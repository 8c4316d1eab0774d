/**
 * The HTML text helpers of the PDF exporter (src/backend/exporter.js):
 * entity decoding, tag stripping, `<br>` conversion, plain-text extraction,
 * the page-content wrapper and the legacy list repairs. Every
 * `replace(/…/g, …)` is a `Scan.ReplaceAll` with a matcher that decides,
 * exactly as the regular expression does (backtracking included), whether
 * and how far it matches at a position.
 */
module Markup {
  import opened Wrappers
  import opened Strings
  import opened Scan

  const NBSP: char := '\U{00A0}'

  /** A case-sensitive literal pattern. */
  function Lit(lit: string, rep: string): Matcher<string> {
    (t: string) => if |lit| > 0 && StartsWith(t, lit) then Some(Hit(|lit|, rep)) else None
  }

  /** A case-insensitive literal pattern (`lit` written in lower case). */
  function LitI(lit: string, rep: string): Matcher<string> {
    (t: string) => if |lit| > 0 && AtI(t, 0, lit) then Some(Hit(|lit|, rep)) else None
  }

  /** Replacing a one-character pattern by text without that character removes it everywhere. */
  lemma {:induction false} ReplaceCharGone(s: string, c: char, rep: string)
    requires forall i :: 0 <= i < |rep| ==> rep[i] != c
    ensures forall i :: 0 <= i < |ReplaceAll(s, Lit([c], rep))| ==> ReplaceAll(s, Lit([c], rep))[i] != c
    decreases |s|
  {
    if s != [] {
      var m := Lit([c], rep);
      if Fits(m(s), s) {
        ReplaceCharGone(s[1..], c, rep);
      } else {
        ReplaceCharGone(s[1..], c, rep);
        assert s[..1] == [s[0]];
      }
    }
  }

  /** A literal pattern starting with `c` matches nowhere in text without `c`. */
  lemma {:induction false} LitAbsent(s: string, c: char, lit: string, rep: string)
    requires |lit| > 0 && lit[0] == c
    requires forall i :: 0 <= i < |s| ==> s[i] != c
    ensures ReplaceAll(s, Lit(lit, rep)) == s
  {
    forall k | 0 <= k < |s| ensures !MatchesAt(s, Lit(lit, rep), k) {
      assert s[k..][0] == s[k];
    }
    ReplaceNoMatch(s, Lit(lit, rep));
  }

  // ---------------------------------------------------------------- entities

  /** `decodeEntities`: six literal replacements, `&amp;` second. */
  function DecodeEntities(s: string): string {
    var a := ReplaceAll(s, Lit("&nbsp;", [NBSP]));
    var b := ReplaceAll(a, Lit("&amp;", "&"));
    var c := ReplaceAll(b, Lit("&lt;", "<"));
    var d := ReplaceAll(c, Lit("&gt;", ">"));
    var e := ReplaceAll(d, Lit("&quot;", "\""));
    ReplaceAll(e, Lit("&#39;", "'"))
  }

  /** Only the named entities are touched: text without '&' comes back unchanged. */
  lemma {:induction false} DecodeWithoutAmp(s: string)
    requires forall i :: 0 <= i < |s| ==> s[i] != '&'
    ensures DecodeEntities(s) == s
  {
    LitAbsent(s, '&', "&nbsp;", [NBSP]);
    LitAbsent(s, '&', "&amp;", "&");
    LitAbsent(s, '&', "&lt;", "<");
    LitAbsent(s, '&', "&gt;", ">");
    LitAbsent(s, '&', "&quot;", "\"");
    LitAbsent(s, '&', "&#39;", "'");
  }

  // ---------------------------------------------------------------- tags

  /** `/<\/?[^>]+>/`: a '<', at least one character other than '>', then the first '>'. */
  function TagAt(t: string): Option<Hit<string>> {
    if |t| >= 2 && t[0] == '<' && t[1] != '>' then
      match FindChar(t, '>', 1)
      case Some(j) => Some(Hit(j + 1, ""))
      case None => None
    else None
  }

  /** `stripTags`. */
  function StripTags(s: string): string {
    ReplaceAll(s, TagAt)
  }

  predicate NoTag(t: string) {
    forall k :: 0 <= k < |t| ==> !MatchesAt(t, TagAt, k)
  }

  lemma {:induction false} StripKeepsNoGt(s: string)
    requires forall i :: 0 <= i < |s| ==> s[i] != '>'
    ensures forall i :: 0 <= i < |StripTags(s)| ==> StripTags(s)[i] != '>'
    decreases |s|
  {
    if s != [] {
      if !Fits(TagAt(s), s) {
        forall i | 0 <= i < |s[1..]| ensures s[1..][i] != '>' {
          assert s[1..][i] == s[i + 1];
        }
        StripKeepsNoGt(s[1..]);
        assert StripTags(s) == [s[0]] + StripTags(s[1..]);
      }
    }
  }

  /** No tag survives `stripTags`: removing one never joins two pieces into a new tag. */
  lemma {:induction false} StripTagsLeavesNoTag(s: string)
    ensures NoTag(StripTags(s))
    decreases |s|
  {
    if s != [] {
      if Fits(TagAt(s), s) {
        var n := TagAt(s).value.len;
        StripTagsLeavesNoTag(s[n..]);
        assert StripTags(s) == [] + StripTags(s[n..]);
        assert [] + StripTags(s[n..]) == StripTags(s[n..]);
      } else {
        var r := StripTags(s[1..]);
        StripTagsLeavesNoTag(s[1..]);
        var out := [s[0]] + r;
        assert StripTags(s) == out;
        forall k | 0 <= k < |out| ensures !MatchesAt(out, TagAt, k) {
          if k > 0 {
            assert out[k..] == r[k - 1..];
            assert !MatchesAt(r, TagAt, k - 1);
          } else if s[0] == '<' && |r| >= 1 {
            assert out[0..] == out;
            if |s| >= 2 && s[1] == '>' {
              assert !Fits(TagAt(s[1..]), s[1..]);
              assert r == [s[1]] + StripTags(s[2..]) by {
                assert s[1..][1..] == s[2..];
              }
            } else {
              assert FindChar(s, '>', 1).None?;
              forall i | 0 <= i < |s[1..]| ensures s[1..][i] != '>' {
                assert s[1..][i] == s[i + 1];
              }
              StripKeepsNoGt(s[1..]);
              assert FindChar(out, '>', 1).None?;
            }
          }
        }
      }
    }
  }

  /** Stripping twice is stripping once. */
  lemma {:induction false} StripTagsIdempotent(s: string)
    ensures StripTags(StripTags(s)) == StripTags(s)
  {
    StripTagsLeavesNoTag(s);
    ReplaceNoMatch(StripTags(s), TagAt);
  }

  /** Text without '<' has no tags to strip. */
  lemma {:induction false} StripTagsWithoutLt(s: string)
    requires forall i :: 0 <= i < |s| ==> s[i] != '<'
    ensures StripTags(s) == s
  {
    forall k | 0 <= k < |s| ensures !MatchesAt(s, TagAt, k) {
      assert s[k..][0] == s[k];
    }
    ReplaceNoMatch(s, TagAt);
  }

  // ---------------------------------------------------------------- line breaks and plain text

  /** `/<br\s*\/?>/i`. */
  function BrAt(t: string): Option<Hit<string>> {
    if !AtI(t, 0, "<br") then None
    else
      var w := SkipWs(t, 3);
      if w + 1 < |t| && t[w] == '/' && t[w + 1] == '>' then Some(Hit(w + 2, "\n"))
      else if w < |t| && t[w] == '>' then Some(Hit(w + 1, "\n"))
      else None
  }

  /** `replace(/<br\s*\/?>/gi, '\n')`. */
  function BrToNewline(s: string): string {
    ReplaceAll(s, BrAt)
  }

  /** `BrAt` matches only at '<'. */
  lemma {:induction false} BrLtOnly()
    ensures LtOnly(BrAt)
  {
    forall t: string | BrAt(t).Some? && |t| > 0 ensures t[0] == '<' {
      AtILt(t, "<br");
    }
  }

  /** A `<br>` tag in a spelling `/<br\s*\/?>/i` accepts: `<br` in any case, white space, then `>` or `/>`. */
  predicate IsBrTag(b: string) {
    4 <= |b| && AtI(b, 0, "<br") && b[|b| - 1] == '>' &&
    (AllWs(b[3..|b| - 1]) || (5 <= |b| && b[|b| - 2] == '/' && AllWs(b[3..|b| - 2])))
  }

  /** The pattern takes the whole tag, whatever follows it. */
  lemma {:induction false} BrTagMatches(b: string, y: string)
    requires IsBrTag(b)
    ensures BrAt(b + y) == Some(Hit(|b|, "\n"))
  {
    var t := b + y;
    forall i | 0 <= i < 3 ensures EqI(t[0 + i], "<br"[i]) {
      assert t[i] == b[0 + i];
    }
    if AllWs(b[3..|b| - 1]) {
      assert t[3..|b| - 1] == b[3..|b| - 1];
      SkipWsIs(t, 3, |b| - 1);
    } else {
      assert t[3..|b| - 2] == b[3..|b| - 2];
      SkipWsIs(t, 3, |b| - 2);
    }
  }

  /** Before '<'-free text, a `<br>` tag becomes one '\n' and the replacement goes on after it. */
  lemma {:induction false} BrReplaced(x: string, b: string, y: string)
    requires forall i :: 0 <= i < |x| ==> x[i] != '<'
    requires IsBrTag(b)
    ensures BrToNewline(x + b + y) == x + "\n" + BrToNewline(y)
  {
    var s := x + b + y;
    var r := ReplaceAll(b + y, BrAt);
    assert r == "\n" + BrToNewline(y) by {
      BrTagMatches(b, y);
      ReplaceHit(b + y, BrAt);
      assert (b + y)[|b|..] == y;
    }
    assert ReplaceAll(s, BrAt) == x + r by {
      assert s == x + (b + y);
      BrNotBefore(x, b + y);
      ReplaceSkip(s, BrAt, |x|);
      assert s[..|x|] == x;
      assert s[|x|..] == b + y;
    }
  }

  /** Nothing matches inside '<'-free text. */
  lemma {:induction false} BrNotBefore(x: string, z: string)
    requires forall i :: 0 <= i < |x| ==> x[i] != '<'
    ensures forall j :: 0 <= j < |x| ==> !MatchesAt(x + z, BrAt, j)
  {
    BrLtOnly();
    forall j | 0 <= j < |x| ensures !MatchesAt(x + z, BrAt, j) {
      assert (x + z)[j..][0] == x[j];
    }
  }

  /**
   * The replacement does not rescan what it produced, and `\s` takes the
   * '\n' it writes: "<br<br>>" comes out as "<br\n>", itself a `<br>` tag.
   */
  lemma {:induction false} BrCanReappear(p: string, b: string)
    requires |p| == 3 && AtI(p, 0, "<br") && IsBrTag(b)
    ensures BrToNewline(p + b + ">") == p + "\n>"
    ensures IsBrTag(p + "\n>")
  {
    var s := p + b + ">";
    var r := ReplaceAll(b + ">", BrAt);
    assert r == "\n>" by {
      BrTagMatches(b, ">");
      ReplaceHit(b + ">", BrAt);
      assert (b + ">")[|b|..] == ">";
      BrLtOnly();
      NoLtUntouched(">", BrAt);
    }
    assert ReplaceAll(s, BrAt) == p + r by {
      BrNotAtSpelling(p, b);
      ReplaceSkip(s, BrAt, 3);
      assert s[..3] == p && s[3..] == b + ">";
    }
    BrSpellingTag(p);
  }

  /** In `p + b + ">"` nothing matches before the tag `b`: after `p` comes '<', not '>' or "/>". */
  lemma {:induction false} BrNotAtSpelling(p: string, b: string)
    requires |p| == 3 && AtI(p, 0, "<br") && IsBrTag(b)
    ensures forall j :: 0 <= j < 3 ==> !MatchesAt(p + b + ">", BrAt, j)
  {
    var s := p + b + ">";
    AtILt(b, "<br");
    assert s[3] == b[0];
    assert AtI(s, 0, "<br") by {
      forall i | 0 <= i < 3 ensures EqI(s[0 + i], "<br"[i]) { assert s[i] == p[0 + i]; }
    }
    assert SkipWs(s, 3) == 3;
    BrLtOnly();
    forall j | 0 <= j < 3 ensures !MatchesAt(s, BrAt, j) {
      assert s[j..][0] == s[j];
      if j > 0 { assert EqI(p[0 + j], "<br"[j]); }
    }
  }

  /** `<br`, in any case, then '\n' and '>' is a `<br>` tag. */
  lemma {:induction false} BrSpellingTag(p: string)
    requires |p| == 3 && AtI(p, 0, "<br")
    ensures IsBrTag(p + "\n>")
  {
    var t := p + "\n>";
    assert AtI(t, 0, "<br") by {
      forall i | 0 <= i < 3 ensures EqI(t[0 + i], "<br"[i]) { assert t[i] == p[0 + i]; }
    }
    assert t[3..4] == "\n";
  }

  /** `replace(/\r/g, '')`. */
  function RemoveCr(s: string): string {
    ReplaceAll(s, Lit("\r", ""))
  }

  function NbspToSpace(s: string): (r: string)
    ensures forall i :: 0 <= i < |r| ==> r[i] != NBSP
  {
    ReplaceCharGone(s, NBSP, " ");
    ReplaceAll(s, Lit([NBSP], " "))
  }

  /** `htmlToPlainText`: wrapper removed, breaks to newlines, tags stripped, entities decoded. */
  function HtmlToPlainText(s: string): (r: string)
    ensures Trim(r) == r
    ensures forall i :: 0 <= i < |r| ==> r[i] != NBSP
  {
    var n := NbspToSpace(DecodeEntities(StripTags(BrToNewline(ExtractPageContent(s)))));
    TrimIdempotent(n);
    TrimKeepsAbsent(n, NBSP);
    Trim(n)
  }

  /** A `<br>` tag between plain texts (no tag, no entity, no NBSP) turns into one line break, and then the whole text is trimmed. */
  lemma {:induction false} PlainTextBreak(x: string, b: string, y: string)
    requires forall i :: 0 <= i < |x| ==> x[i] != '<' && x[i] != '&' && x[i] != NBSP
    requires forall i :: 0 <= i < |y| ==> y[i] != '<' && y[i] != '&' && y[i] != NBSP
    requires IsBrTag(b)
    ensures HtmlToPlainText(x + b + y) == Trim(x + "\n" + y)
  {
    var s := x + b + y;
    var t := x + "\n" + y;
    assert ExtractPageContent(s) == s by {
      NoDivAround(x, b, y);
      ExtractWithoutDiv(s);
    }
    assert BrToNewline(s) == t by {
      BrReplaced(x, b, y);
      BrLtOnly();
      NoLtUntouched(y, BrAt);
    }
    assert forall i :: 0 <= i < |t| ==> t[i] != '<' && t[i] != '&' && t[i] != NBSP by {
      forall i | 0 <= i < |t| ensures t[i] != '<' && t[i] != '&' && t[i] != NBSP {
        if i < |x| { assert t[i] == x[i]; } else if i > |x| { assert t[i] == y[i - |x| - 1]; }
      }
    }
    StripTagsWithoutLt(t);
    DecodeWithoutAmp(t);
    LitAbsent(t, NBSP, [NBSP], " ");
  }

  /** Text in which no `<div` starts has no page wrapper to extract. */
  lemma {:induction false} ExtractWithoutDiv(s: string)
    requires forall k :: 0 <= k < |s| ==> !AtI(s, k, "<div")
    ensures ExtractPageContent(s) == s
  {
    forall j | 0 <= j < |s| ensures !MatchesAt(s, PageContentAt, j) {
      if AtI(s[j..], 0, "<div") {
        forall i | 0 <= i < 4 ensures EqI(s[j + i], "<div"[i]) {
          assert s[j..][0 + i] == s[j + i];
        }
        assert AtI(s, j, "<div");
      }
    }
  }

  /** A `<br>` tag holds '<' only at its start. */
  lemma {:induction false} BrTagOneLt(b: string)
    requires IsBrTag(b)
    ensures forall i :: 1 <= i < |b| ==> b[i] != '<'
  {
    forall i | 1 <= i < |b| ensures b[i] != '<' {
      if i < 3 {
        assert EqI(b[0 + i], "<br"[i]);
      } else if AllWs(b[3..|b| - 1]) {
        if i < |b| - 1 { assert b[3..|b| - 1][i - 3] == b[i]; }
      } else if i < |b| - 2 {
        assert b[3..|b| - 2][i - 3] == b[i];
      }
    }
  }

  /** A `<br>` tag between '<'-free texts leaves no place where `<div` starts. */
  lemma {:induction false} NoDivAround(x: string, b: string, y: string)
    requires forall i :: 0 <= i < |x| ==> x[i] != '<'
    requires forall i :: 0 <= i < |y| ==> y[i] != '<'
    requires IsBrTag(b)
    ensures forall k :: 0 <= k < |x + b + y| ==> !AtI(x + b + y, k, "<div")
  {
    var s := x + b + y;
    BrTagOneLt(b);
    forall k | 0 <= k < |s| ensures !AtI(s, k, "<div") {
      if k == |x| {
        assert s[k + 1] == b[1];
        assert EqI(b[0 + 1], "<br"[1]);
        NotAtI(s, k, "<div", 1);
      } else {
        if k < |x| {
          assert s[k] == x[k];
        } else if k < |x| + |b| {
          assert s[k] == b[k - |x|];
        } else {
          assert s[k] == y[k - |x| - |b|];
        }
        NotAtI(s, k, "<div", 0);
      }
    }
  }

  // ---------------------------------------------------------------- page-content wrapper

  const CLASS_ATTR: string := "class=\""

  /**
   * Backtracking into a greedy `[^>]*` tries the later start positions of
   * what follows first: `f(k)` for `k` = `hi`, `hi`-1, …, `lo`.
   */
  function LastFirst<T>(lo: nat, hi: int, f: nat -> Option<T>): (r: Option<T>)
    ensures r.Some? ==> exists k :: lo <= k <= hi && f(k) == r
    decreases hi + 1
  {
    if hi < lo then None
    else match f(hi)
      case Some(v) => Some(v)
      case None => LastFirst(lo, hi - 1, f)
  }

  lemma {:induction false} LastFirstIs<T>(lo: nat, hi: int, f: nat -> Option<T>, j: nat)
    requires lo <= j <= hi && f(j).Some?
    requires forall k: nat :: j < k <= hi ==> f(k).None?
    ensures LastFirst(lo, hi, f) == f(j)
    decreases hi + 1
  {
    if hi > j {
      LastFirstIs(lo, hi - 1, f, j);
    }
  }

  predicate NoCloseDiv(t: string) {
    forall j :: 0 <= j <= |t| ==> !AtI(t, j, "</div>")
  }

  lemma {:induction false} AtISlice(t: string, a: nat, b: nat, j: nat, lit: string)
    requires a <= b <= |t| && AtI(t[a..b], j, lit)
    ensures AtI(t, a + j, lit) && a + j + |lit| <= b
  {
    forall i | 0 <= i < |lit| ensures EqI(t[a + j + i], lit[i]) {
      assert t[a..b][j + i] == t[a + j + i];
    }
  }

  /** The rest of the page-content pattern once `class="` is taken at `k`. */
  function PageFromClass(t: string, k: nat): (r: Option<Hit<string>>)
    ensures r.Some? ==> NoCloseDiv(r.value.data) && 0 < r.value.len <= |t|
  {
    if !AtI(t, k, CLASS_ATTR) then None
    else match FindChar(t, '"', k + 7)
      case None => None
      case Some(q) =>
        if FindLitI(t[..q], "page-content", k + 7).None? then None
        else match FindChar(t, '>', q + 1)
          case None => None
          case Some(g2) =>
            match FindLitI(t, "</div>", g2 + 1)
            case None => None
            case Some(e) =>
              var c := t[g2 + 1..e];
              assert NoCloseDiv(c) by {
                forall j | 0 <= j <= |c| ensures !AtI(c, j, "</div>") {
                  if AtI(c, j, "</div>") { AtISlice(t, g2 + 1, e, j, "</div>"); }
                }
              }
              Some(Hit(e + 6, c))
  }

  /** `/<div[^>]*class="[^"]*page-content[^"]*"[^>]*>([\s\S]*?)<\/div>/i` at the start of `t`. */
  function PageContentAt(t: string): (r: Option<Hit<string>>)
    ensures r.Some? ==> NoCloseDiv(r.value.data)
  {
    if !AtI(t, 0, "<div") then None
    else match FindChar(t, '>', 4)
      case None => None
      case Some(g) => LastFirst(4, g - 1, k => PageFromClass(t, k))
  }

  /**
   * `extractPageContent`: the content of the first page-content div, cut at
   * the first `</div>` after it (the match is lazy), or the input itself.
   */
  function ExtractPageContent(s: string): (r: string)
    ensures r == s || NoCloseDiv(r)
  {
    match FindFrom(s, PageContentAt, 0)
    case Some(i) => PageContentAt(s[i..]).value.data
    case None => s
  }

  const PAGE_OPEN: string := "<div class=\"page-content\">"

  /** `s` starts with the editor's page wrapper `<div class="page-content">`. */
  predicate OpensPage(s: string) {
    |s| >= 26 && s[0] == '<' && s[1] == 'd' && s[2] == 'i' && s[3] == 'v' && s[4] == ' ' && s[5] == 'c' && s[6] == 'l' && s[7] == 'a' && s[8] == 's' && s[9] == 's' && s[10] == '=' && s[11] == '"' && s[12] == 'p' && s[13] == 'a' && s[14] == 'g' && s[15] == 'e' && s[16] == '-' && s[17] == 'c' && s[18] == 'o' && s[19] == 'n' && s[20] == 't' && s[21] == 'e' && s[22] == 'n' && s[23] == 't' && s[24] == '"' && s[25] == '>'
  }

  lemma {:induction false} WrapperOpens(x: string)
    ensures OpensPage(PAGE_OPEN + x + "</div>")
  {
    var s := PAGE_OPEN + x + "</div>";
    assert s[..26] == PAGE_OPEN;
  }

  lemma {:induction false} WrapperOpenTag(s: string)
    requires OpensPage(s)
    ensures AtI(s, 0, "<div")
    ensures FindChar(s, '>', 4) == Some(25)
    ensures forall k: nat :: 5 < k <= 24 ==> !AtI(s, k, CLASS_ATTR)
  {
    forall i: nat | 4 <= i <= 24 ensures s[i] != '>' {
      if i == 4 {  }
      else if i == 5 {  }
      else if i == 6 {  }
      else if i == 7 {  }
      else if i == 8 {  }
      else if i == 9 {  }
      else if i == 10 {  }
      else if i == 11 {  }
      else if i == 12 {  }
      else if i == 13 {  }
      else if i == 14 {  }
      else if i == 15 {  }
      else if i == 16 {  }
      else if i == 17 {  }
      else if i == 18 {  }
      else if i == 19 {  }
      else if i == 20 {  }
      else if i == 21 {  }
      else if i == 22 {  }
      else if i == 23 {  }
      else {  }
    }
    FindCharIs(s, '>', 4, 25);
    forall k: nat | 6 <= k <= 24 ensures !AtI(s, k, CLASS_ATTR) {
      if k == 6 { NotAtI(s, k, CLASS_ATTR, 0); }
      else if k == 7 { NotAtI(s, k, CLASS_ATTR, 0); }
      else if k == 8 { NotAtI(s, k, CLASS_ATTR, 0); }
      else if k == 9 { NotAtI(s, k, CLASS_ATTR, 0); }
      else if k == 10 { NotAtI(s, k, CLASS_ATTR, 0); }
      else if k == 11 { NotAtI(s, k, CLASS_ATTR, 0); }
      else if k == 12 { NotAtI(s, k, CLASS_ATTR, 0); }
      else if k == 13 { NotAtI(s, k, CLASS_ATTR, 0); }
      else if k == 14 { NotAtI(s, k, CLASS_ATTR, 0); }
      else if k == 15 { NotAtI(s, k, CLASS_ATTR, 0); }
      else if k == 16 { NotAtI(s, k, CLASS_ATTR, 0); }
      else if k == 17 { NotAtI(s, k, CLASS_ATTR, 1); }
      else if k == 18 { NotAtI(s, k, CLASS_ATTR, 0); }
      else if k == 19 { NotAtI(s, k, CLASS_ATTR, 0); }
      else if k == 20 { NotAtI(s, k, CLASS_ATTR, 0); }
      else if k == 21 { NotAtI(s, k, CLASS_ATTR, 0); }
      else if k == 22 { NotAtI(s, k, CLASS_ATTR, 0); }
      else if k == 23 { NotAtI(s, k, CLASS_ATTR, 0); }
      else { NotAtI(s, k, CLASS_ATTR, 0); }
    }
  }

  lemma {:induction false} WrapperClassAttr(s: string)
    requires OpensPage(s)
    ensures AtI(s, 5, CLASS_ATTR)
    ensures FindChar(s, '"', 12) == Some(24)
    ensures FindLitI(s[..24], "page-content", 12) == Some(12)
    ensures FindChar(s, '>', 25) == Some(25)
  {
    forall i: nat | 12 <= i <= 23 ensures s[i] != '"' {
      if i == 12 {  }
      else if i == 13 {  }
      else if i == 14 {  }
      else if i == 15 {  }
      else if i == 16 {  }
      else if i == 17 {  }
      else if i == 18 {  }
      else if i == 19 {  }
      else if i == 20 {  }
      else if i == 21 {  }
      else if i == 22 {  }
      else {  }
    }
    FindCharIs(s, '"', 12, 24);
    assert AtI(s[..24], 12, "page-content");
    FindLitIIs(s[..24], "page-content", 12, 12);
    FindCharIs(s, '>', 25, 25);
  }

  lemma {:induction false} AtIInside(p: string, x: string, q: string, j: nat, lit: string)
    requires |p| <= j && j + |lit| <= |p| + |x|
    ensures AtI(p + x + q, j, lit) ==> AtI(x, j - |p|, lit)
  {
    var s := p + x + q;
    if AtI(s, j, lit) {
      forall i | 0 <= i < |lit| ensures EqI(x[j - |p| + i], lit[i]) {
        assert s[j + i] == x[j - |p| + i];
      }
    }
  }

  lemma {:induction false} NoCloseInside(p: string, x: string)
    requires NoCloseDiv(x)
    ensures forall j :: |p| <= j < |p| + |x| ==> !AtI(p + x + "</div>", j, "</div>")
  {
    var s := p + x + "</div>";
    var n, m := |x|, |p|;
    forall j | m <= j < m + n ensures !AtI(s, j, "</div>") {
      if j + 6 <= m + n {
        AtIInside(p, x, "</div>", j, "</div>");
      } else {
        assert s[m + n] == '<';
        NotAtI(s, j, "</div>", m + n - j);
      }
    }
  }

  lemma {:induction false} CloseAfter(p: string, x: string)
    requires NoCloseDiv(x)
    ensures FindLitI(p + x + "</div>", "</div>", |p|) == Some(|p| + |x|)
  {
    var s := p + x + "</div>";
    NoCloseInside(p, x);
    AtIEnd(p + x, "</div>");
    FindLitIIs(s, "</div>", |p|, |p| + |x|);
  }

  lemma {:induction false} ClassAt5(s: string, x: string)
    requires OpensPage(s) && s[26..] == x + "</div>" && NoCloseDiv(x)
    ensures PageFromClass(s, 5) == Some(Hit(|x| + 32, x))
  {
    WrapperClassAttr(s);
    assert s == s[..26] + x + "</div>";
    CloseAfter(s[..26], x);
    assert s[26..26 + |x|] == x;
  }

  lemma {:induction false} ExtractOpened(s: string, x: string)
    requires OpensPage(s) && s[26..] == x + "</div>" && NoCloseDiv(x)
    ensures ExtractPageContent(s) == x
  {
    WrapperOpenTag(s);
    ClassAt5(s, x);
    forall k: nat | 5 < k <= 24 ensures PageFromClass(s, k).None? { }
    LastFirstIs(4, 24, k => PageFromClass(s, k), 5);
    assert PageContentAt(s) == Some(Hit(|x| + 32, x));
    assert s[0..] == s;
    assert FindFrom(s, PageContentAt, 0) == Some(0);
  }

  /** The wrapper the editor writes around a page yields the page's HTML back. */
  lemma {:induction false} ExtractFromWrapper(x: string)
    requires NoCloseDiv(x)
    ensures ExtractPageContent(PAGE_OPEN + x + "</div>") == x
  {
    WrapperOpens(x);
    var s := PAGE_OPEN + x + "</div>";
    assert s[26..] == x + "</div>";
    ExtractOpened(s, x);
  }

  // ---------------------------------------------------------------- legacy list repair

  /** `\bw\b` (case-insensitive) starts somewhere in `[a, b)` and ends by `b`. */
  predicate HasWordI(t: string, w: string, a: nat, b: nat)
    requires b <= |t|
    decreases b - a
  {
    a + |w| <= b
    && ((a >= 1 && AtI(t, a, w) && !IsWordChar(t[a - 1]) && (a + |w| == |t| || !IsWordChar(t[a + |w|])))
        || HasWordI(t, w, a + 1, b))
  }

  /** The rest of `<(div|p)[^>]*class="[^"]*\bNAME\b[^"]*"[^>]*>` once `class="` is taken at `k`. */
  function ListClassFrom(t: string, k: nat, name: string): Option<Hit<string>> {
    if !AtI(t, k, CLASS_ATTR) then None
    else match FindChar(t, '"', k + 7)
      case None => None
      case Some(q) =>
        if !HasWordI(t, name, k + 7, q) then None
        else match FindChar(t, '>', q + 1)
          case None => None
          case Some(g2) => Some(Hit(g2 + 1, "<" + name + ">"))
  }

  /** A legacy `div` or `p` whose class list holds the word `name` ("ul" or "ol"). */
  function ListClassAt(name: string): Matcher<string> {
    (t: string) =>
      var n := if AtI(t, 0, "<div") then 4 else if AtI(t, 0, "<p") then 2 else 0;
      if n == 0 then None
      else match FindChar(t, '>', n)
        case None => None
        case Some(g) => LastFirst(n, g - 1, k => ListClassFrom(t, k, name))
  }

  /** `<\/(div|p)>` (case-insensitive) becomes `</li>`. */
  function BlockCloseAt(t: string): Option<Hit<string>> {
    if AtI(t, 0, "</div>") then Some(Hit(6, "</li>"))
    else if AtI(t, 0, "</p>") then Some(Hit(4, "</li>"))
    else None
  }

  /** `<NAME>(?![\s\S]*?<\/NAME>)`: an opening tag with no closing tag anywhere after it. */
  function UnclosedAt(name: string): Matcher<string> {
    (t: string) =>
      if AtI(t, 0, "<" + name + ">") && FindLitI(t, "</" + name + ">", |name| + 2).None?
      then Some(Hit(|name| + 2, "<" + name + "></" + name + ">"))
      else None
  }

  /** `<li[^>]*>\s*<\/li>` (case-insensitive): an empty list item. */
  function EmptyItemAt(t: string): Option<Hit<string>> {
    if !AtI(t, 0, "<li") then None
    else match FindChar(t, '>', 3)
      case None => None
      case Some(g) =>
        var w := SkipWs(t, g + 1);
        if AtI(t, w, "</li>") then Some(Hit(w + 5, "")) else None
  }

  /** `<\/NAME>\s*<NAME[^>]*>`: a list closed and immediately reopened. */
  function RejoinAt(name: string): Matcher<string> {
    (t: string) =>
      if !AtI(t, 0, "</" + name + ">") then None
      else
        var w := SkipWs(t, |name| + 3);
        if !AtI(t, w, "<" + name) then None
        else match FindChar(t, '>', w + |name| + 1)
          case None => None
          case Some(g) => Some(Hit(g + 1, ""))
  }

  /** `fixBrokenLists`: legacy list blocks to real lists, unclosed lists closed, empty items and seams removed. */
  function FixBrokenLists(s: string): (r: string)
    ensures Trim(r) == r
  {
    var a := ReplaceAll(s, ListClassAt("ul"));
    var b := ReplaceAll(a, ListClassAt("ol"));
    var c := ReplaceAll(b, BlockCloseAt);
    var d := ReplaceAll(c, UnclosedAt("ul"));
    var e := ReplaceAll(d, UnclosedAt("ol"));
    var f := ReplaceAll(e, EmptyItemAt);
    var g := ReplaceAll(f, RejoinAt("ul"));
    var h := ReplaceAll(g, RejoinAt("ol"));
    TrimIdempotent(h);
    Trim(h)
  }

  /** The matcher only ever matches text starting with '<'. */
  ghost predicate LtOnly(m: Matcher<string>) {
    forall t: string :: m(t).Some? && |t| > 0 ==> t[0] == '<'
  }

  /** A pattern that only matches at '<' leaves text without '<' unchanged. */
  lemma {:induction false} NoLtUntouched(s: string, m: Matcher<string>)
    requires forall i :: 0 <= i < |s| ==> s[i] != '<'
    requires LtOnly(m)
    ensures ReplaceAll(s, m) == s
  {
    forall k | 0 <= k < |s| ensures !MatchesAt(s, m, k) {
      assert s[k..][0] == s[k];
    }
    ReplaceNoMatch(s, m);
  }

  lemma {:induction false} AtILt(t: string, lit: string)
    requires |lit| > 0 && lit[0] == '<' && AtI(t, 0, lit)
    ensures t[0] == '<'
  {
    assert EqI(t[0 + 0], lit[0]);
  }

  lemma {:induction false} ListClassLtOnly(name: string)
    ensures LtOnly(ListClassAt(name))
  {
    forall t: string | ListClassAt(name)(t).Some? && |t| > 0 ensures t[0] == '<' {
      if AtI(t, 0, "<div") { AtILt(t, "<div"); } else { AtILt(t, "<p"); }
    }
  }

  lemma {:induction false} BlockCloseLtOnly()
    ensures LtOnly(BlockCloseAt)
  {
    forall t: string | BlockCloseAt(t).Some? && |t| > 0 ensures t[0] == '<' {
      if AtI(t, 0, "</div>") { AtILt(t, "</div>"); } else { AtILt(t, "</p>"); }
    }
  }

  lemma {:induction false} UnclosedLtOnly(name: string)
    ensures LtOnly(UnclosedAt(name))
  {
    forall t: string | UnclosedAt(name)(t).Some? && |t| > 0 ensures t[0] == '<' {
      AtILt(t, "<" + name + ">");
    }
  }

  lemma {:induction false} EmptyItemLtOnly()
    ensures LtOnly(EmptyItemAt)
  {
    forall t: string | EmptyItemAt(t).Some? && |t| > 0 ensures t[0] == '<' {
      AtILt(t, "<li");
    }
  }

  lemma {:induction false} RejoinLtOnly(name: string)
    ensures LtOnly(RejoinAt(name))
  {
    forall t: string | RejoinAt(name)(t).Some? && |t| > 0 ensures t[0] == '<' {
      AtILt(t, "</" + name + ">");
    }
  }

  /** Every pattern of the repair begins with '<', so text without '<' is only trimmed. */
  lemma {:induction false} FixBrokenListsWithoutLt(s: string)
    requires forall i :: 0 <= i < |s| ==> s[i] != '<'
    ensures FixBrokenLists(s) == Trim(s)
  {
    ListClassLtOnly("ul"); ListClassLtOnly("ol"); BlockCloseLtOnly();
    UnclosedLtOnly("ul"); UnclosedLtOnly("ol"); EmptyItemLtOnly();
    RejoinLtOnly("ul"); RejoinLtOnly("ol");
    NoLtUntouched(s, ListClassAt("ul"));
    NoLtUntouched(s, ListClassAt("ol"));
    NoLtUntouched(s, BlockCloseAt);
    NoLtUntouched(s, UnclosedAt("ul"));
    NoLtUntouched(s, UnclosedAt("ol"));
    NoLtUntouched(s, EmptyItemAt);
    NoLtUntouched(s, RejoinAt("ul"));
    NoLtUntouched(s, RejoinAt("ol"));
  }

  // ---------------------------------------------------------------- list clean-up before segmentation

  /** "ul" or "ol" (any case) at `k`, in lower case. */
  function ListNameAt(t: string, k: nat): Option<string> {
    if AtI(t, k, "ul") then Some("ul") else if AtI(t, k, "ol") then Some("ol") else None
  }

  /** `<\/(ul|ol)>\s*<\1>` (case-insensitive, the back-reference too). */
  function SeamAt(t: string): Option<Hit<string>> {
    if |t| < 5 || t[0] != '<' || t[1] != '/' || t[4] != '>' then None
    else match ListNameAt(t, 2)
      case None => None
      case Some(n) =>
        var w := SkipWs(t, 5);
        if w + 3 < |t| && t[w] == '<' && AtI(t, w + 1, n) && t[w + 3] == '>' then Some(Hit(w + 4, "")) else None
  }

  /** `<(ul|ol)><\1>` becomes `<$1>`, the captured name keeping its case. */
  function DoubleOpenAt(t: string): Option<Hit<string>> {
    if |t| < 8 || t[0] != '<' || t[3] != '>' || t[4] != '<' || t[7] != '>' then None
    else match ListNameAt(t, 1)
      case None => None
      case Some(n) => if AtI(t, 5, n) then Some(Hit(8, "<" + t[1..3] + ">")) else None
  }

  /** `<\/(ul|ol)><\/\1>` becomes `</$1>`. */
  function DoubleCloseAt(t: string): Option<Hit<string>> {
    if |t| < 10 || t[..2] != "</" || t[4..7] != "></" || t[9] != '>' then None
    else match ListNameAt(t, 2)
      case None => None
      case Some(n) => if AtI(t, 7, n) then Some(Hit(10, "</" + t[2..4] + ">")) else None
  }

  /** The clean-up chain of `renderRichTextPage` (src/backend/exporter.js:527-531). */
  function CleanLists(s: string): string {
    var a := ReplaceAll(s, SeamAt);
    var b := ReplaceAll(a, DoubleOpenAt);
    var c := ReplaceAll(b, DoubleCloseAt);
    ReplaceAll(c, EmptyItemAt)
  }
}
