/**
 * The renderer's translation engine (src/frontend/i18n.js): dot-path
 * lookup in the loaded dictionary, `{name}` interpolation, the lookup that
 * echoes the key when there is no translation, the `data-i18n-attr` spec
 * parser, and the language switch with its fallback to Italian.
 */
module I18n {
  import opened Wrappers
  import opened Strings
  import opened Scan
  import opened Json

  // ---------------------------------------------------------------- lookup

  /** One step of the `reduce`: the property when the value is truthy and the property is neither null nor missing. */
  function Step(o: Value, k: string): (r: Value)
    ensures r.Some? ==> r.value != JNull && Truthy(o)
  {
    var p := OptProp(o, k);
    if Truthy(o) && p.Some? && p.value != JNull then p else None
  }

  /** The `reduce` over the keys of a path. */
  function Walk(o: Value, keys: seq<string>): Value
    decreases |keys|
  {
    if keys == [] then o else Walk(Step(o, keys[0]), keys[1..])
  }

  /** `get(obj, path)`. */
  function Get(obj: Value, path: string): Value {
    Walk(obj, Split(path, '.'))
  }

  /** Once a step finds nothing, the walk finds nothing. */
  lemma {:induction false} WalkMissing(keys: seq<string>)
    ensures Walk(None, keys) == None
  {
    if keys != [] {
      WalkMissing(keys[1..]);
    }
  }

  /** Walking two key lists one after the other is walking them joined. */
  lemma {:induction false} WalkAppend(o: Value, a: seq<string>, b: seq<string>)
    ensures Walk(o, a + b) == Walk(Walk(o, a), b)
    decreases |a|
  {
    if a != [] {
      assert (a + b)[0] == a[0];
      assert (a + b)[1..] == a[1..] + b;
      WalkAppend(Step(o, a[0]), a[1..], b);
    } else {
      assert a + b == b;
    }
  }

  /** A lookup never yields null, and a missing or null step anywhere on the path makes it undefined. */
  lemma {:induction false} WalkStops(o: Value, keys: seq<string>, i: nat)
    requires i < |keys| && Step(Walk(o, keys[..i]), keys[i]).None?
    ensures Walk(o, keys) == None
  {
    assert keys == keys[..i] + [keys[i]] + keys[i + 1..];
    WalkAppend(o, keys[..i] + [keys[i]], keys[i + 1..]);
    WalkAppend(o, keys[..i], [keys[i]]);
    WalkMissing(keys[i + 1..]);
  }

  /** `get(obj, a + '.' + b)` is `get(get(obj, a), b)`. */
  lemma {:induction false} GetPath(obj: Value, a: string, b: string)
    ensures Get(obj, a + "." + b) == Get(Get(obj, a), b)
  {
    SplitAround(a, '.', b);
    WalkAppend(obj, Split(a, '.'), Split(b, '.'));
  }

  /** A lookup with a non-empty path never ends on null. */
  lemma {:induction false} WalkNotNull(o: Value, keys: seq<string>)
    requires keys != []
    ensures Walk(o, keys) != Some(JNull)
    decreases |keys|
  {
    if |keys| > 1 {
      WalkNotNull(Step(o, keys[0]), keys[1..]);
    }
  }

  lemma {:induction false} SplitAround(a: string, c: char, b: string)
    ensures Split(a + [c] + b, c) == Split(a, c) + Split(b, c)
    decreases |a|
  {
    if a == [] {
      assert a + [c] + b == [c] + b;
      assert ([c] + b)[1..] == b;
    } else {
      var t := a[1..];
      assert a + [c] + b == [a[0]] + (t + [c] + b);
      assert ([a[0]] + (t + [c] + b))[1..] == t + [c] + b;
      SplitAround(t, c, b);
    }
  }

  // ---------------------------------------------------------------- interpolation

  /** `String(v)` for a value from parsed JSON other than null. */
  function ToStr(j: Json): string {
    match j
    case JNull => "null"
    case JBool(b) => if b then "true" else "false"
    case JNum(n) => if n < 0 then "-" + NatToString(-n) else NatToString(n)
    case JStr(s) => s
    case JObj(_) => "[object Object]"
    case JArr(items) => Join(seq(|items|, i requires 0 <= i < |items| => if items[i] == JNull then "" else ToStr(items[i])), ",")
  }

  /** The index past the run of word characters starting at `from`. */
  function WordEnd(t: string, from: nat): (r: nat)
    requires from <= |t|
    ensures from <= r <= |t| && (forall i :: from <= i < r ==> IsWordChar(t[i]))
    ensures r == |t| || !IsWordChar(t[r])
    decreases |t| - from
  {
    if from < |t| && IsWordChar(t[from]) then WordEnd(t, from + 1) else from
  }

  /** The properties of the parameters, when they are an object. */
  function Params(params: Value): map<string, Json> {
    if params.Some? && params.value.JObj? then params.value.props else map[]
  }

  /** `params[k] != null ? String(params[k]) : `{${k}}``. */
  function Filled(params: Value, k: string): string {
    var ps := Params(params);
    if k in ps && ps[k] != JNull then ToStr(ps[k]) else "{" + k + "}"
  }

  /** `/\{(\w+)\}/` with the replacement callback. */
  function PlaceholderAt(params: Value): Matcher<string> {
    (t: string) =>
      if |t| < 3 || t[0] != '{' then None
      else
        var w := WordEnd(t, 1);
        if w > 1 && w < |t| && t[w] == '}' then Some(Hit(w + 1, Filled(params, t[1..w]))) else None
  }

  /** `interpolate(str, params)`. */
  function Interpolate(str: string, params: Value): string {
    if !Truthy(params) then str else ReplaceAll(str, PlaceholderAt(params))
  }

  predicate IsWord(k: string) {
    |k| > 0 && forall i :: 0 <= i < |k| ==> IsWordChar(k[i])
  }

  /** The placeholder `{k}` at the head of the text is matched whole. */
  lemma {:induction false} PlaceholderHead(params: Value, k: string, rest: string)
    requires IsWord(k)
    ensures PlaceholderAt(params)("{" + k + "}" + rest) == Some(Hit(|k| + 2, Filled(params, k)))
  {
    var t := "{" + k + "}" + rest;
    var w := WordEnd(t, 1);
    forall i | 1 <= i < |k| + 1 ensures IsWordChar(t[i]) {
      assert t[i] == k[i - 1];
    }
    assert t[|k| + 1] == '}';
    assert w == |k| + 1;
    assert t[1..w] == k;
  }

  /**
   * One left-to-right pass: a placeholder at the head is replaced by the
   * parameter's text (or kept as it is when the parameter is missing or
   * null), and the scan goes on after it without looking at the
   * replacement again.
   */
  lemma {:induction false} InterpolateHead(params: Value, k: string, rest: string)
    requires Truthy(params) && IsWord(k)
    ensures Interpolate("{" + k + "}" + rest, params) ==
      (if k in Params(params) && Params(params)[k] != JNull then ToStr(Params(params)[k]) else "{" + k + "}") +
      Interpolate(rest, params)
  {
    var t := "{" + k + "}" + rest;
    PlaceholderHead(params, k, rest);
    assert t[|k| + 2..] == rest;
  }

  /** Without parameters the string comes back as it is. */
  lemma {:induction false} InterpolateNoParams(str: string, params: Value)
    requires !Truthy(params)
    ensures Interpolate(str, params) == str
  {
  }

  /** When no placeholder names a parameter that is set, every placeholder is kept verbatim. */
  lemma {:induction false} InterpolateUnset(str: string, params: Value)
    requires forall k :: k in Params(params) ==> Params(params)[k] == JNull
    ensures Interpolate(str, params) == str
  {
    if Truthy(params) {
      var m := PlaceholderAt(params);
      forall t: string | Fits(m(t), t) ensures m(t).value.data == t[..m(t).value.len] {
        var w := WordEnd(t, 1);
        assert t[..w + 1] == "{" + t[1..w] + "}";
      }
      ReplaceEcho(str, m);
    }
  }

  /** A replacement that puts back what it matched changes nothing. */
  lemma {:induction false} ReplaceEcho(s: string, m: Matcher<string>)
    requires forall t: string :: Fits(m(t), t) ==> m(t).value.data == t[..m(t).value.len]
    ensures ReplaceAll(s, m) == s
    decreases |s|
  {
    if s != [] {
      if Fits(m(s), s) {
        ReplaceEcho(s[m(s).value.len..], m);
        assert s[..m(s).value.len] + s[m(s).value.len..] == s;
      } else {
        ReplaceEcho(s[1..], m);
        assert [s[0]] + s[1..] == s;
      }
    }
  }

  /** Text without '{' is never touched. */
  lemma {:induction false} InterpolateNoBrace(str: string, params: Value)
    requires forall i :: 0 <= i < |str| ==> str[i] != '{'
    ensures Interpolate(str, params) == str
  {
    if Truthy(params) {
      var m := PlaceholderAt(params);
      forall k | 0 <= k < |str| ensures !MatchesAt(str, m, k) {
        assert str[k..][0] == str[k];
      }
      ReplaceNoMatch(str, m);
    }
  }

  // ---------------------------------------------------------------- t

  /** `t(key, params)` on a dictionary: the interpolated string, or the key itself when the lookup is not a string. */
  function Translate(dict: Value, key: string, params: Value): string {
    var v := Get(dict, key);
    if v.Some? && v.value.JStr? then Interpolate(v.value.s, params) else key
  }

  /** The key comes back exactly when the lookup is not a string or the string interpolates to the key. */
  lemma {:induction false} TranslateEcho(dict: Value, key: string, params: Value)
    ensures var v := Get(dict, key);
      (!(v.Some? && v.value.JStr?) ==> Translate(dict, key, params) == key) &&
      (v.Some? && v.value.JStr? ==> Translate(dict, key, params) == Interpolate(v.value.s, params))
  {
  }

  // ---------------------------------------------------------------- data-i18n-attr

  datatype AttrPair = AttrPair(attr: string, key: string)

  predicate IsSep(c: char) { c == '|' || c == ';' }

  /** The index past the run of separators starting at `from`. */
  function SepEnd(t: string, from: nat): (r: nat)
    requires from <= |t|
    ensures from <= r <= |t| && (forall i :: from <= i < r ==> IsSep(t[i]))
    ensures r == |t| || !IsSep(t[r])
    decreases |t| - from
  {
    if from < |t| && IsSep(t[from]) then SepEnd(t, from + 1) else from
  }

  /** `/[|;]+/`. */
  function SepRunAt(t: string): Option<Hit<string>> {
    if |t| > 0 && IsSep(t[0]) then Some(Hit(SepEnd(t, 0), "")) else None
  }

  /** A piece split at its first ':', both sides trimmed; nothing when a side is empty or there is no ':'. */
  function PairOf(piece: string): (r: seq<AttrPair>)
    ensures |r| <= 1
  {
    match FindChar(piece, ':', 0)
    case None => []
    case Some(idx) => PairAt(piece[..idx], piece[idx + 1..])
  }

  /** The two sides, trimmed; nothing when one is empty. */
  function PairAt(before: string, after: string): (r: seq<AttrPair>)
    ensures |r| <= 1
  {
    var attr, key := Trim(before), Trim(after);
    if attr == "" || key == "" then [] else [AttrPair(attr, key)]
  }

  /** The pairs of the pieces between separators, in order. */
  function PairsOf(ps: seq<Piece<string>>): seq<AttrPair> {
    if ps == [] then [] else (if ps[0].Gap? then PairOf(ps[0].text) else []) + PairsOf(ps[1..])
  }

  /** The `data-i18n-attr` spec parser of `apply` (src/frontend/i18n.js:68-78). */
  function ParseAttrSpec(spec: string): seq<AttrPair> {
    PairsOf(Pieces(spec, SepRunAt))
  }

  /** Non-empty, with no white space at either end. */
  predicate Bare(s: string) {
    s != "" && !IsWs(s[0]) && !IsWs(s[|s| - 1])
  }

  predicate NoSep(s: string) {
    forall i :: 0 <= i < |s| ==> !IsSep(s[i])
  }

  predicate NoColon(s: string) {
    forall i :: 0 <= i < |s| ==> s[i] != ':'
  }

  /** A well-formed pair: both sides bare, no ':' in the attribute, no separator in either. */
  predicate GoodPair(p: AttrPair) {
    Bare(p.attr) && Bare(p.key) && NoColon(p.attr) && NoSep(p.attr) && NoSep(p.key)
  }

  /** No piece between separators holds a separator. */
  predicate GapsClean(ps: seq<Piece<string>>) {
    forall k :: 0 <= k < |ps| && ps[k].Gap? ==> NoSep(ps[k].text)
  }

  /** Gaps between separator runs hold no separator. */
  lemma {:induction false} GapsHaveNoSep(s: string)
    ensures GapsClean(Pieces(s, SepRunAt))
    decreases |s|
  {
    match FindFrom(s, SepRunAt, 0)
    case None =>
      NoMatchNoSep(s, |s|);
      assert s[..|s|] == s;
    case Some(k) =>
      var h := SepRunAt(s[k..]).value;
      var rest := s[k + h.len..];
      GapsHaveNoSep(rest);
      NoMatchNoSep(s, k);
      var pre: seq<Piece<string>> := if k == 0 then [] else [Gap(s[..k])];
      var mid: seq<Piece<string>> := [Found(s[k..k + h.len], h.data)];
      GapsCleanAppend(pre, mid);
      GapsCleanAppend(pre + mid, Pieces(rest, SepRunAt));
  }

  /** Before the first separator run there is no separator. */
  lemma {:induction false} NoMatchNoSep(s: string, k: nat)
    requires k <= |s| && forall j :: 0 <= j < k ==> !MatchesAt(s, SepRunAt, j)
    ensures NoSep(s[..k])
  {
    forall i | 0 <= i < k ensures !IsSep(s[..k][i]) {
      assert !MatchesAt(s, SepRunAt, i);
      assert s[i..][0] == s[i] == s[..k][i];
    }
  }

  lemma {:induction false} GapsCleanAppend(a: seq<Piece<string>>, b: seq<Piece<string>>)
    requires GapsClean(a) && GapsClean(b)
    ensures GapsClean(a + b)
  {
    forall k | 0 <= k < |a + b| && (a + b)[k].Gap? ensures NoSep((a + b)[k].text) {
      if k >= |a| {
        assert (a + b)[k] == b[k - |a|];
      }
    }
  }

  /** Every parsed pair has a trimmed, non-empty attribute without ':' and a trimmed, non-empty key, neither with a separator. */
  lemma {:induction false} ParsedPairsGood(spec: string)
    ensures forall k :: 0 <= k < |ParseAttrSpec(spec)| ==> GoodPair(ParseAttrSpec(spec)[k])
  {
    GapsHaveNoSep(spec);
    PairsGood(Pieces(spec, SepRunAt));
  }

  lemma {:induction false} PairsGood(ps: seq<Piece<string>>)
    requires GapsClean(ps)
    ensures forall k :: 0 <= k < |PairsOf(ps)| ==> GoodPair(PairsOf(ps)[k])
  {
    if ps != [] {
      assert GapsClean(ps[1..]) by {
        forall k | 0 <= k < |ps[1..]| && ps[1..][k].Gap? ensures NoSep(ps[1..][k].text) {
          assert ps[1..][k] == ps[k + 1];
        }
      }
      PairsGood(ps[1..]);
      if ps[0].Gap? {
        PairOfGood(ps[0].text);
      }
    }
  }

  lemma {:induction false} PairOfGood(piece: string)
    requires NoSep(piece)
    ensures forall k :: 0 <= k < |PairOf(piece)| ==> GoodPair(PairOf(piece)[k])
  {
    match FindChar(piece, ':', 0)
    case None =>
    case Some(idx) =>
      NoSepInPart(piece, 0, idx);
      NoSepInPart(piece, idx + 1, |piece|);
      assert NoColon(piece[..idx]) by {
        forall i | 0 <= i < idx ensures piece[..idx][i] != ':' {
          assert piece[..idx][i] == piece[i];
        }
      }
      PairAtGood(piece[..idx], piece[idx + 1..]);
  }

  lemma {:induction false} PairAtGood(a: string, b: string)
    requires NoColon(a) && NoSep(a) && NoSep(b)
    ensures forall k :: 0 <= k < |PairAt(a, b)| ==> GoodPair(PairAt(a, b)[k])
  {
    var x, y := Trim(a), Trim(b);
    if x != "" && y != "" {
      assert GoodPair(AttrPair(x, y)) by {
        TrimNoColon(a);
        TrimNoSep(a);
        TrimNoSep(b);
        assert Bare(x) && Bare(y);
      }
      assert PairAt(a, b) == [AttrPair(x, y)];
    } else {
      assert PairAt(a, b) == [];
    }
  }

  lemma {:induction false} TrimNoSep(s: string)
    requires NoSep(s)
    ensures NoSep(Trim(s))
  {
    TrimKeepsAbsent(s, '|');
    TrimKeepsAbsent(s, ';');
  }

  lemma {:induction false} TrimNoColon(s: string)
    requires NoColon(s)
    ensures NoColon(Trim(s))
  {
    TrimKeepsAbsent(s, ':');
  }

  lemma {:induction false} NoSepInPart(piece: string, i: nat, j: nat)
    requires i <= j <= |piece| && NoSep(piece)
    ensures NoSep(piece[i..j])
  {
    forall k | 0 <= k < j - i ensures !IsSep(piece[i..j][k]) {
      assert piece[i..j][k] == piece[i + k];
    }
  }

  /** A spec holding one pair `attr:key` parses to that pair. */
  lemma {:induction false} ParseOnePair(p: AttrPair)
    requires GoodPair(p)
    ensures ParseAttrSpec(p.attr + ":" + p.key) == [p]
  {
    var s := p.attr + ":" + p.key;
    forall i | 0 <= i < |s| ensures !IsSep(s[i]) {
      if i < |p.attr| {
        assert s[i] == p.attr[i];
      } else if i > |p.attr| {
        assert s[i] == p.key[i - |p.attr| - 1];
      }
    }
    NoSepOnePiece(s);
    PairOfPair(p);
    assert PairsOf([Gap(s)]) == PairOf(s) + PairsOf([]);
  }

  lemma {:induction false} PairOfPair(p: AttrPair)
    requires GoodPair(p)
    ensures PairOf(p.attr + ":" + p.key) == [p]
  {
    PairAtTrimmed(p);
    ColonAt(p.attr, p.key);
  }

  lemma {:induction false} PairAtTrimmed(p: AttrPair)
    requires GoodPair(p)
    ensures PairAt(p.attr, p.key) == [p]
  {
    BareTrimmed(p.attr);
    BareTrimmed(p.key);
  }

  lemma {:induction false} BareTrimmed(s: string)
    requires Bare(s)
    ensures Trim(s) == s
  {
    TrimNoop(s);
  }

  /** The first ':' of `a:b`, when `a` has none, is the one between them. */
  lemma {:induction false} ColonAt(a: string, b: string)
    requires forall i :: 0 <= i < |a| ==> a[i] != ':'
    ensures var s := a + ":" + b; FindChar(s, ':', 0) == Some(|a|) && s[..|a|] == a && s[|a| + 1..] == b
  {
    var s := a + ":" + b;
    forall i | 0 <= i < |a| ensures s[i] != ':' {
      assert s[i] == a[i];
    }
    FindCharIs(s, ':', 0, |a|);
    assert s[..|a|] == a;
    assert s[|a| + 1..] == b;
  }

  /** Text without a separator is one piece. */
  lemma {:induction false} NoSepOnePiece(s: string)
    requires s != [] && forall i :: 0 <= i < |s| ==> !IsSep(s[i])
    ensures Pieces(s, SepRunAt) == [Gap(s)]
  {
    forall k | 0 <= k < |s| ensures !MatchesAt(s, SepRunAt, k) {
      assert s[k..][0] == s[k];
    }
    assert FindFrom(s, SepRunAt, 0).None?;
  }

  // ---------------------------------------------------------------- the language state

  /** The engine's `state`: the current language and its dictionary; the fallback is Italian. */
  class Engine {
    var lang: string
    var dict: Value
    const fallback: string

    constructor ()
      ensures lang == "it" && dict == Some(JObj(map[])) && fallback == "it"
    {
      lang := "it";
      dict := Some(JObj(map[]));
      fallback := "it";
    }

    /** `t(key, params)` on the current dictionary. */
    function T(key: string, params: Value): string
      reads this
    {
      Translate(dict, key, params)
    }

    /**
     * `setLang(lang)` (src/frontend/i18n.js:36-52); `load` stands for
     * `loadDict`, None when the fetch or the parse fails. It returns false
     * when the returned promise rejects: the fallback was needed and failed.
     */
    method SetLang(newLang: string, load: string -> Option<Json>) returns (ok: bool)
      modifies this
      ensures load(newLang).Some? ==> lang == newLang && dict == load(newLang) && ok
      ensures load(newLang).None? && newLang != fallback && load(fallback).Some? ==>
        lang == fallback && dict == load(fallback) && ok
      ensures load(newLang).None? && (newLang == fallback || load(fallback).None?) ==>
        lang == old(lang) && dict == old(dict) && ok == (newLang == fallback)
    {
      var d := load(newLang);
      if d.Some? {
        dict := d;
        lang := newLang;
        return true;
      }
      if newLang != fallback {
        var f := load(fallback);
        if f.None? {
          return false;
        }
        dict := f;
        lang := fallback;
      }
      return true;
    }
  }
}
