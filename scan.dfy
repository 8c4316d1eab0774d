/**
 * Left-to-right, non-overlapping matching as JavaScript performs it for a
 * global regular expression: `replace(/…/g, …)` and a `while (re.exec(s))`
 * loop. A matcher looks at the text from the current position onward and
 * either matches a non-empty prefix of it (with whatever the pattern
 * captures) or does not match there.
 */
module Scan {
  import opened Wrappers

  datatype Hit<T> = Hit(len: nat, data: T)

  type Matcher<T> = string -> Option<Hit<T>>

  /** A usable match: non-empty and inside the text. */
  predicate Fits<T>(h: Option<Hit<T>>, s: string) { h.Some? && 0 < h.value.len <= |s| }

  predicate MatchesAt<T>(s: string, m: Matcher<T>, k: nat)
    requires k <= |s|
  {
    Fits(m(s[k..]), s[k..])
  }

  /** Global `replace`: each match is replaced by the text the matcher yields. */
  function ReplaceAll(s: string, m: Matcher<string>): string
    decreases |s|
  {
    if s == [] then []
    else if Fits(m(s), s) then m(s).value.data + ReplaceAll(s[m(s).value.len..], m)
    else [s[0]] + ReplaceAll(s[1..], m)
  }

  /** A match at the start is replaced, and the replacement goes on after it. */
  lemma {:induction false} ReplaceHit(s: string, m: Matcher<string>)
    requires Fits(m(s), s)
    ensures ReplaceAll(s, m) == m(s).value.data + ReplaceAll(s[m(s).value.len..], m)
  {
  }

  /** A replace whose pattern matches nowhere leaves the text as it is. */
  lemma {:induction false} ReplaceNoMatch(s: string, m: Matcher<string>)
    requires forall k :: 0 <= k < |s| ==> !MatchesAt(s, m, k)
    ensures ReplaceAll(s, m) == s
    decreases |s|
  {
    if s != [] {
      assert !MatchesAt(s, m, 0);
      assert s[0..] == s;
      forall k | 0 <= k < |s[1..]| ensures !MatchesAt(s[1..], m, k) {
        assert !MatchesAt(s, m, k + 1);
        assert s[1..][k..] == s[k + 1..];
      }
      ReplaceNoMatch(s[1..], m);
    }
  }

  /** The first position at or after `k` where the matcher matches. */
  function FindFrom<T>(s: string, m: Matcher<T>, k: nat): (r: Option<nat>)
    requires k <= |s|
    ensures r.Some? ==> k <= r.value < |s| && MatchesAt(s, m, r.value)
    ensures r.Some? ==> forall j :: k <= j < r.value ==> !MatchesAt(s, m, j)
    ensures r.None? ==> forall j :: k <= j < |s| ==> !MatchesAt(s, m, j)
    decreases |s| - k
  {
    if k == |s| then None
    else if MatchesAt(s, m, k) then Some(k)
    else FindFrom(s, m, k + 1)
  }

  /** A stretch of text between matches, or one match with its captures. */
  datatype Piece<T> = Gap(text: string) | Found(text: string, data: T)

  /** The text cut into unmatched gaps and successive matches. */
  function Pieces<T>(s: string, m: Matcher<T>): seq<Piece<T>>
    decreases |s|
  {
    match FindFrom(s, m, 0)
    case None => if s == [] then [] else [Gap(s)]
    case Some(k) =>
      var h := m(s[k..]).value;
      (if k == 0 then [] else [Gap(s[..k])]) + [Found(s[k..k + h.len], h.data)] + Pieces(s[k + h.len..], m)
  }

  function Texts<T>(ps: seq<Piece<T>>): string {
    if ps == [] then [] else ps[0].text + Texts(ps[1..])
  }

  lemma {:induction false} TextsAppend<T>(a: seq<Piece<T>>, b: seq<Piece<T>>)
    ensures Texts(a + b) == Texts(a) + Texts(b)
  {
    if a != [] {
      assert (a + b)[0] == a[0];
      assert (a + b)[1..] == a[1..] + b;
      TextsAppend(a[1..], b);
    } else {
      assert a + b == b;
    }
  }

  /** The pieces cover the text exactly, in order: nothing is lost or repeated. */
  lemma {:induction false} PiecesCover<T>(s: string, m: Matcher<T>)
    ensures Texts(Pieces(s, m)) == s
    decreases |s|
  {
    match FindFrom(s, m, 0)
    case None =>
    case Some(k) =>
      var h := m(s[k..]).value;
      var rest := s[k + h.len..];
      PiecesCover(rest, m);
      var pre: seq<Piece<T>> := if k == 0 then [] else [Gap(s[..k])];
      TextsAppend(pre + [Found(s[k..k + h.len], h.data)], Pieces(rest, m));
      TextsAppend(pre, [Found(s[k..k + h.len], h.data)]);
      assert Texts(pre) == s[..k];
      assert s[..k] + s[k..k + h.len] + rest == s;
  }

  /** Texts of the gaps only, the matches left out. */
  function GapTexts<T>(ps: seq<Piece<T>>): string {
    if ps == [] then [] else (if ps[0].Gap? then ps[0].text else []) + GapTexts(ps[1..])
  }

  lemma {:induction false} GapTextsAppend<T>(a: seq<Piece<T>>, b: seq<Piece<T>>)
    ensures GapTexts(a + b) == GapTexts(a) + GapTexts(b)
  {
    if a != [] {
      assert (a + b)[0] == a[0];
      assert (a + b)[1..] == a[1..] + b;
      GapTextsAppend(a[1..], b);
    } else {
      assert a + b == b;
    }
  }

  /** The same pattern, each match replaced by nothing. */
  function Erase<T>(m: Matcher<T>): Matcher<string> {
    (t: string) => match m(t) case None => None case Some(h) => Some(Hit(h.len, ""))
  }

  /** Text before the first match is copied as it is. */
  lemma {:induction false} ReplaceSkip(s: string, m: Matcher<string>, k: nat)
    requires k <= |s|
    requires forall j :: 0 <= j < k ==> !MatchesAt(s, m, j)
    ensures ReplaceAll(s, m) == s[..k] + ReplaceAll(s[k..], m)
    decreases k
  {
    if k > 0 {
      assert !MatchesAt(s, m, 0);
      assert s[0..] == s;
      forall j | 0 <= j < k - 1 ensures !MatchesAt(s[1..], m, j) {
        assert !MatchesAt(s, m, j + 1);
        assert s[1..][j..] == s[j + 1..];
      }
      ReplaceSkip(s[1..], m, k - 1);
      assert s[1..][k - 1..] == s[k..];
      assert [s[0]] + s[1..][..k - 1] == s[..k];
    }
  }

  /** Joining the gaps is removing every match. */
  lemma {:induction false} GapsAreErased<T>(s: string, m: Matcher<T>)
    ensures GapTexts(Pieces(s, m)) == ReplaceAll(s, Erase(m))
    decreases |s|
  {
    var e := Erase(m);
    EraseMatches(s, m);
    match FindFrom(s, m, 0)
    case None =>
      ReplaceNoMatch(s, e);
    case Some(k) =>
      var h := m(s[k..]).value;
      var rest := s[k + h.len..];
      GapsAreErased(rest, m);
      ReplaceSkip(s, e, k);
      ErasedAt(s, m, k);
      GapsStep(s, m, k);
  }

  /** The erasing matcher matches where the original one does. */
  lemma {:induction false} EraseMatches<T>(s: string, m: Matcher<T>)
    ensures forall j :: 0 <= j <= |s| ==> (MatchesAt(s, Erase(m), j) <==> MatchesAt(s, m, j))
  {
    forall j | 0 <= j <= |s| ensures MatchesAt(s, Erase(m), j) <==> MatchesAt(s, m, j) { }
  }

  /** At a match the erasing replacement skips the match. */
  lemma {:induction false} ErasedAt<T>(s: string, m: Matcher<T>, k: nat)
    requires k < |s| && MatchesAt(s, m, k)
    ensures k + m(s[k..]).value.len <= |s|
    ensures ReplaceAll(s[k..], Erase(m)) == ReplaceAll(s[k + m(s[k..]).value.len..], Erase(m))
  {
    var h := m(s[k..]).value;
    assert s[k..][h.len..] == s[k + h.len..];
  }

  /** The gaps of a text whose first match is at `k`: the text before it, then the gaps after the match. */
  lemma {:induction false} GapsStep<T>(s: string, m: Matcher<T>, k: nat)
    requires FindFrom(s, m, 0) == Some(k)
    ensures k + m(s[k..]).value.len <= |s|
    ensures GapTexts(Pieces(s, m)) == s[..k] + GapTexts(Pieces(s[k + m(s[k..]).value.len..], m))
  {
    var h := m(s[k..]).value;
    var rest := s[k + h.len..];
    var pre: seq<Piece<T>> := if k == 0 then [] else [Gap(s[..k])];
    var mid: seq<Piece<T>> := [Found(s[k..k + h.len], h.data)];
    assert Pieces(s, m) == pre + mid + Pieces(rest, m);
    assert GapTexts(mid) == [];
    GapsJoin(Pieces(s, m), pre, mid, Pieces(rest, m));
    assert GapTexts(pre) == s[..k];
  }

  /** A stretch of pieces without gaps adds nothing to the gaps. */
  lemma {:induction false} GapsJoin<T>(ps: seq<Piece<T>>, pre: seq<Piece<T>>, mid: seq<Piece<T>>, post: seq<Piece<T>>)
    requires ps == pre + mid + post && GapTexts(mid) == []
    ensures GapTexts(ps) == GapTexts(pre) + GapTexts(post)
  {
    GapTextsAppend(pre + mid, post);
    GapTextsAppend(pre, mid);
  }

  /** Searching from `pos` in `s` is searching from 0 in the rest of `s`. */
  lemma {:induction false} FindShift<T>(s: string, m: Matcher<T>, pos: nat, j: nat)
    requires pos <= j <= |s|
    ensures FindFrom(s[pos..], m, j - pos) == match FindFrom(s, m, j) case None => None case Some(k) => Some(k - pos)
    decreases |s| - j
  {
    var t := s[pos..];
    if j < |s| {
      assert t[j - pos..] == s[j..];
      FindShift(s, m, pos, j + 1);
    }
  }

  /**
   * One round of a `while (re.exec(s))` loop whose `lastIndex` is `pos`:
   * the pieces of the rest of the text are the gap before the next match,
   * that match, and the pieces after it.
   */
  lemma {:induction false} PiecesFrom<T>(s: string, m: Matcher<T>, pos: nat)
    requires pos <= |s|
    ensures FindFrom(s, m, pos).None? ==> Pieces(s[pos..], m) == if pos == |s| then [] else [Gap(s[pos..])]
    ensures FindFrom(s, m, pos).Some? ==>
      var k := FindFrom(s, m, pos).value;
      var h := m(s[k..]).value;
      && k + h.len <= |s|
      && Pieces(s[pos..], m) == (if k == pos then [] else [Gap(s[pos..k])]) + [Found(s[k..k + h.len], h.data)] + Pieces(s[k + h.len..], m)
  {
    FindShift(s, m, pos, pos);
    var t := s[pos..];
    match FindFrom(s, m, pos)
    case None =>
    case Some(k) =>
      assert t[k - pos..] == s[k..];
      assert MatchesAt(s, m, k);
      var h := m(s[k..]).value;
      assert k + h.len <= |s|;
      SliceOfSlice(s, pos, 0, k - pos);
      SliceOfSlice(s, pos, k - pos, k - pos + h.len);
      assert t[k - pos + h.len..] == s[k + h.len..];
  }

  /** A slice of a suffix is a slice of the whole text. */
  lemma {:induction false} SliceOfSlice(s: string, pos: nat, a: nat, b: nat)
    requires a <= b && pos + b <= |s|
    ensures s[pos..][a..b] == s[pos + a..pos + b]
  {
    forall i | 0 <= i < b - a ensures s[pos..][a..b][i] == s[pos + a..pos + b][i] {
      assert s[pos..][a..b][i] == s[pos + a + i];
    }
  }

  /** What a scan loop emits: each piece's output, in order. */
  function Collect<T, U>(ps: seq<Piece<T>>, f: Piece<T> -> seq<U>): seq<U> {
    if ps == [] then [] else f(ps[0]) + Collect(ps[1..], f)
  }

  lemma {:induction false} CollectAppend<T, U>(a: seq<Piece<T>>, b: seq<Piece<T>>, f: Piece<T> -> seq<U>)
    ensures Collect(a + b, f) == Collect(a, f) + Collect(b, f)
  {
    if a == [] {
      assert a + b == b;
    } else {
      assert (a + b)[0] == a[0];
      assert (a + b)[1..] == a[1..] + b;
      CollectAppend(a[1..], b, f);
    }
  }

  /** One `exec` from `pos`: the gap before the next match, the match, and what follows it. */
  lemma {:induction false} CollectRound<T, U>(s: string, m: Matcher<T>, f: Piece<T> -> seq<U>, pos: nat)
    requires pos <= |s|
    ensures FindFrom(s, m, pos).None? ==>
      Collect(Pieces(s[pos..], m), f) == if pos == |s| then [] else f(Gap(s[pos..]))
    ensures FindFrom(s, m, pos).Some? ==>
      var k := FindFrom(s, m, pos).value;
      var h := m(s[k..]).value;
      && k + h.len <= |s|
      && Collect(Pieces(s[pos..], m), f) ==
         (if k == pos then [] else f(Gap(s[pos..k]))) + f(Found(s[k..k + h.len], h.data)) + Collect(Pieces(s[k + h.len..], m), f)
  {
    PiecesFrom(s, m, pos);
    match FindFrom(s, m, pos)
    case None =>
      if pos < |s| {
        var one: seq<Piece<T>> := [Gap(s[pos..])];
        assert one[1..] == [];
      }
    case Some(k) =>
      var h := m(s[k..]).value;
      var gap: seq<Piece<T>> := if k == pos then [] else [Gap(s[pos..k])];
      var found: seq<Piece<T>> := [Found(s[k..k + h.len], h.data)];
      var rest := Pieces(s[k + h.len..], m);
      CollectAppend(gap + found, rest, f);
      CollectAppend(gap, found, f);
      assert found[1..] == [];
      if k != pos {
        assert gap[1..] == [];
      }
  }

  /**
   * The `while ((m = re.exec(s)))` loop: the text before each match is
   * handed to `f` as a gap, each match as a found piece, and what is left
   * after the last match as a final gap.
   */
  method ExecLoop<T, U>(s: string, m: Matcher<T>, f: Piece<T> -> seq<U>) returns (out: seq<U>)
    ensures out == Collect(Pieces(s, m), f)
  {
    out := [];
    var last := 0;
    assert s[0..] == s;
    while true
      invariant 0 <= last <= |s|
      invariant out + Collect(Pieces(s[last..], m), f) == Collect(Pieces(s, m), f)
      decreases |s| - last
    {
      var found := FindFrom(s, m, last);
      if found.None? {
        CollectRound(s, m, f, last);
        break;
      }
      var k := found.value;
      var h := m(s[k..]).value;
      var gap := if k == last then [] else f(Gap(s[last..k]));
      var hit := f(Found(s[k..k + h.len], h.data));
      ExecStep(s, m, f, last, out, gap, hit);
      out := out + gap + hit;
      last := k + h.len;
    }
    if last < |s| {
      out := out + f(Gap(s[last..]));
    }
  }

  /** When no match is left, the loop's output is complete but for the final gap. */
  lemma {:induction false} ExecEnd<T, U>(s: string, m: Matcher<T>, f: Piece<T> -> seq<U>, last: nat, out: seq<U>)
    requires last <= |s| && FindFrom(s, m, last).None?
    requires out + Collect(Pieces(s[last..], m), f) == Collect(Pieces(s, m), f)
    ensures out + (if last == |s| then [] else f(Gap(s[last..]))) == Collect(Pieces(s, m), f)
  {
    CollectRound(s, m, f, last);
  }

  /** The loop invariant of `ExecLoop` survives one round. */
  lemma {:induction false} ExecStep<T, U>(s: string, m: Matcher<T>, f: Piece<T> -> seq<U>, last: nat, out: seq<U>, gap: seq<U>, hit: seq<U>)
    requires last <= |s| && FindFrom(s, m, last).Some?
    requires out + Collect(Pieces(s[last..], m), f) == Collect(Pieces(s, m), f)
    requires var k := FindFrom(s, m, last).value;
      var h := m(s[k..]).value;
      && gap == (if k == last then [] else f(Gap(s[last..k])))
      && hit == f(Found(s[k..k + h.len], h.data))
    ensures var k := FindFrom(s, m, last).value;
      var h := m(s[k..]).value;
      && k + h.len <= |s|
      && (out + gap + hit) + Collect(Pieces(s[k + h.len..], m), f) == Collect(Pieces(s, m), f)
  {
    CollectRound(s, m, f, last);
    var k := FindFrom(s, m, last).value;
    var h := m(s[k..]).value;
    var rest := Collect(Pieces(s[k + h.len..], m), f);
    assert out + (gap + hit + rest) == (out + gap + hit) + rest;
  }

  /** The output of piece `j` sits between the outputs of the pieces before it and those after it. */
  lemma {:induction false} CollectSplit<T, U>(ps: seq<Piece<T>>, f: Piece<T> -> seq<U>, j: nat)
    requires j < |ps|
    ensures Collect(ps, f) == Collect(ps[..j], f) + f(ps[j]) + Collect(ps[j + 1..], f)
  {
    var a, one, b := ps[..j], [ps[j]], ps[j + 1..];
    assert ps == a + one + b;
    CollectAppend(a + one, b, f);
    CollectAppend(a, one, f);
    assert one[1..] == [];
    assert Collect(one, f) == f(ps[j]) + Collect(one[1..], f);
  }

  /** Something is in the output exactly when some piece emits it. */
  lemma {:induction false} CollectHas<T, U>(ps: seq<Piece<T>>, f: Piece<T> -> seq<U>, x: U)
    ensures x in Collect(ps, f) <==> exists j :: 0 <= j < |ps| && x in f(ps[j])
  {
    if ps != [] {
      CollectHas(ps[1..], f, x);
      if x in Collect(ps[1..], f) {
        var j :| 0 <= j < |ps[1..]| && x in f(ps[1..][j]);
        assert ps[1..][j] == ps[j + 1];
      }
      if exists j :: 0 <= j < |ps| && x in f(ps[j]) {
        var j :| 0 <= j < |ps| && x in f(ps[j]);
        if j > 0 {
          assert ps[j] == ps[1..][j - 1];
        }
      }
    }
  }

  /**
   * When every match captures less than it consumes (as measured by `size`),
   * every captured value is smaller than the text: what a recursion over the
   * captures needs to end.
   */
  lemma {:induction false} FoundShorter<T>(s: string, m: Matcher<T>, size: T -> nat)
    requires forall t :: m(t).Some? ==> size(m(t).value.data) < m(t).value.len
    ensures forall p :: p in Pieces(s, m) && p.Found? ==> size(p.data) < |s|
    decreases |s|
  {
    match FindFrom(s, m, 0)
    case None =>
    case Some(k) =>
      var h := m(s[k..]).value;
      var rest := s[k + h.len..];
      FoundShorter(rest, m, size);
      assert Pieces(s, m) == (if k == 0 then [] else [Gap(s[..k])]) + [Found(s[k..k + h.len], h.data)] + Pieces(rest, m);
  }
}
