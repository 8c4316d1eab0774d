/**
 * Inline formatting of the rich-text exporter (src/backend/exporter.js:377-442):
 * bold, italic, underline and `<font size>` tags become marker tokens, the
 * text is stripped of tags and decoded, cut at the markers, and walked once
 * with three flags and a stack of font sizes to give styled segments.
 */
module Inline {
  import opened Wrappers
  import opened Strings
  import opened Scan
  import opened Markup

  const BASE_PX: int := 16

  /** `Math.round(x * 100) / 100`, halves rounding up as `Math.round` does. */
  function RoundHundredths(x: real): (r: real)
    ensures x - 0.005 < r <= x + 0.005
  {
    ((x * 100.0 + 0.5).Floor as real) / 100.0
  }

  /** `fontPt`: pixels to points, rounded to hundredths; exact for whole pixels. */
  function FontPt(px: int): (r: real)
    ensures r == px as real * 0.75
  {
    var x := px as real * 0.75;
    WholeRounds(px * 75);
    assert x * 100.0 == (px * 75) as real;
    RoundHundredths(x)
  }

  lemma {:induction false} WholeRounds(n: int)
    ensures ((n as real) + 0.5).Floor == n
  {
  }

  /** `fontSizePx`: the three listed levels agree with the general rule `16 + 2(n-3)`. */
  function FontSizePx(n: int): (r: int)
    ensures r == 16 + 2 * (n - 3)
  {
    if n == 2 then 14 else if n == 3 then 16 else if n == 4 then 18 else 16 + 2 * (n - 3)
  }

  // ---------------------------------------------------------------- markers

  /** The eight marker tokens; `SizeOn` keeps the level digit. */
  datatype Mark = BOn | BOff | IOn | IOff | UOn | UOff | SizeOn(level: nat) | SizeOff

  /** `<(x|y)>`-style alternatives, case-insensitive, replaced by one token. */
  function EitherAt(x: string, y: string, rep: string): Matcher<string> {
    (t: string) =>
      if |x| > 0 && AtI(t, 0, x) then Some(Hit(|x|, rep))
      else if |y| > 0 && AtI(t, 0, y) then Some(Hit(|y|, rep))
      else None
  }

  predicate IsLevelDigit(c: char) { '1' <= c <= '7' }

  /** What follows `size=` at `k` in `<font[^>]*size=["']?([1-7])["']?[^>]*>`. */
  function SizeAttrFrom(t: string, k: nat): Option<Hit<string>> {
    if !AtI(t, k, "size=") then None
    else
      var q := k + 5;
      var d: Option<nat> :=
        if q + 1 < |t| && (t[q] == '"' || t[q] == '\'') && IsLevelDigit(t[q + 1]) then Some(q + 1)
        else if q < |t| && IsLevelDigit(t[q]) then Some(q)
        else None;
      match d
      case None => None
      case Some(d) =>
        match FindChar(t, '>', d + 1)
        case None => None
        case Some(g) => Some(Hit(g + 1, "[[SIZE_ON:" + [t[d]] + "]]"))
  }

  /** `<font …size=N…>`: the greedy `[^>]*` makes the last `size=` before the first '>' win. */
  function FontOpenAt(t: string): Option<Hit<string>> {
    if !AtI(t, 0, "<font") then None
    else match FindChar(t, '>', 5)
      case None => None
      case Some(g) => LastFirst(5, g - 1, k => SizeAttrFrom(t, k))
  }

  /** The tag-to-marker replacements of `inlineSegments`, in source order. */
  function Markerize(s: string): string {
    var a := ReplaceAll(s, EitherAt("<strong>", "<b>", "[[B_ON]]"));
    var b := ReplaceAll(a, EitherAt("</strong>", "</b>", "[[B_OFF]]"));
    var c := ReplaceAll(b, EitherAt("<em>", "<i>", "[[I_ON]]"));
    var d := ReplaceAll(c, EitherAt("</em>", "</i>", "[[I_OFF]]"));
    var e := ReplaceAll(d, LitI("<u>", "[[U_ON]]"));
    var f := ReplaceAll(e, LitI("</u>", "[[U_OFF]]"));
    var g := ReplaceAll(f, FontOpenAt);
    var h := ReplaceAll(g, LitI("</font>", "[[SIZE_OFF]]"));
    BrToNewline(h)
  }

  /** The text the split works on: markers in, every other tag out, entities decoded. */
  function MarkedText(html: string): string {
    DecodeEntities(StripTags(Markerize(html)))
  }

  /** The split pattern: one of the eight tokens, case-sensitive, `\d` for the level. */
  function MarkerAt(t: string): Option<Hit<Mark>> {
    if StartsWith(t, "[[B_ON]]") then Some(Hit(8, BOn))
    else if StartsWith(t, "[[B_OFF]]") then Some(Hit(9, BOff))
    else if StartsWith(t, "[[I_ON]]") then Some(Hit(8, IOn))
    else if StartsWith(t, "[[I_OFF]]") then Some(Hit(9, IOff))
    else if StartsWith(t, "[[U_ON]]") then Some(Hit(8, UOn))
    else if StartsWith(t, "[[U_OFF]]") then Some(Hit(9, UOff))
    else if |t| >= 13 && StartsWith(t, "[[SIZE_ON:") && IsDigit(t[10]) && t[11] == ']' && t[12] == ']'
    then Some(Hit(13, SizeOn(t[10] as int - '0' as int)))
    else if StartsWith(t, "[[SIZE_OFF]]") then Some(Hit(12, SizeOff))
    else None
  }

  /** `s.split(/(…markers…)/)` without its empty strings: text gaps and the markers between them. */
  function Parts(html: string): seq<Piece<Mark>> {
    Pieces(MarkedText(html), MarkerAt)
  }

  // ---------------------------------------------------------------- the walk

  datatype Seg = Seg(text: string, b: bool, i: bool, u: bool, sizePt: real)

  /** The loop state: the three flags, the size stack, the current size and the output. */
  datatype Walk = Walk(b: bool, i: bool, u: bool, stack: seq<int>, px: int, segs: seq<Seg>)

  const START: Walk := Walk(false, false, false, [], BASE_PX, [])

  function PushSize(w: Walk, level: nat): Walk {
    w.(stack := w.stack + [w.px], px := FontSizePx(level))
  }

  /** `curPx = stack.pop() || BASE_PX`. */
  function PopSize(w: Walk): Walk {
    if w.stack == [] then w.(px := BASE_PX)
    else
      var v := w.stack[|w.stack| - 1];
      w.(stack := w.stack[..|w.stack| - 1], px := if v != 0 then v else BASE_PX)
  }

  function Emit(w: Walk, text: string): Walk {
    w.(segs := w.segs + [Seg(text, w.b, w.i, w.u, FontPt(w.px))])
  }

  /** One part: a marker changes the state, a non-empty text part is emitted. */
  function Step(w: Walk, p: Piece<Mark>): Walk {
    match p
    case Gap(t) => if t == "" then w else Emit(w, t)
    case Found(_, m) =>
      match m
      case BOn => w.(b := true)
      case BOff => w.(b := false)
      case IOn => w.(i := true)
      case IOff => w.(i := false)
      case UOn => w.(u := true)
      case UOff => w.(u := false)
      case SizeOn(n) => PushSize(w, n)
      case SizeOff => PopSize(w)
  }

  /** The state after walking `ps` from the start. */
  function WalkOf(ps: seq<Piece<Mark>>): Walk {
    if ps == [] then START else Step(WalkOf(ps[..|ps| - 1]), ps[|ps| - 1])
  }

  /** The segments `inlineSegments` returns. */
  function InlineSegs(html: string): seq<Seg> {
    WalkOf(Parts(html)).segs
  }

  /** `inlineSegments`: the loop over the parts, proved to compute `InlineSegs`. */
  method InlineSegments(html: string) returns (segs: seq<Seg>)
    ensures segs == InlineSegs(html)
  {
    segs := WalkParts(Parts(html));
  }

  /** The loop of `inlineSegments` over the split parts. */
  method WalkParts(parts: seq<Piece<Mark>>) returns (segs: seq<Seg>)
    ensures segs == WalkOf(parts).segs
  {
    var b, i, u := false, false, false;
    var stack: seq<int> := [];
    var curPx := BASE_PX;
    segs := [];
    var k := 0;
    while k < |parts|
      invariant 0 <= k <= |parts|
      invariant Walk(b, i, u, stack, curPx, segs) == WalkOf(parts[..k])
    {
      var p := parts[k];
      ghost var before := Walk(b, i, u, stack, curPx, segs);
      assert WalkOf(parts[..k + 1]) == Step(before, p) by {
        assert parts[..k + 1][..k] == parts[..k];
      }
      match p {
        case Gap(t) =>
          if t != "" {
            segs := segs + [Seg(t, b, i, u, FontPt(curPx))];
          }
        case Found(_, m) =>
          match m {
            case BOn => b := true;
            case BOff => b := false;
            case IOn => i := true;
            case IOff => i := false;
            case UOn => u := true;
            case UOff => u := false;
            case SizeOn(n) =>
              stack := stack + [curPx];
              curPx := FontSizePx(n);
            case SizeOff =>
              if stack == [] {
                curPx := BASE_PX;
              } else {
                var v := stack[|stack| - 1];
                stack := stack[..|stack| - 1];
                curPx := if v != 0 then v else BASE_PX;
              }
          }
      }
      assert Walk(b, i, u, stack, curPx, segs) == Step(before, p);
      k := k + 1;
    }
    assert parts[..k] == parts;
  }

  // ---------------------------------------------------------------- what the walk means

  /** The last ON/OFF marker of one kind in `ps`; off when there is none. */
  function LastFlag(ps: seq<Piece<Mark>>, on: Mark, off: Mark): bool {
    if ps == [] then false
    else
      var p := ps[|ps| - 1];
      if p.Found? && p.data == on then true
      else if p.Found? && p.data == off then false
      else LastFlag(ps[..|ps| - 1], on, off)
  }

  /** The levels of the size tags still open after `ps`, innermost last; a stray close does nothing. */
  function OpenLevels(ps: seq<Piece<Mark>>): seq<nat> {
    if ps == [] then []
    else
      var o := OpenLevels(ps[..|ps| - 1]);
      var p := ps[|ps| - 1];
      if p.Found? && p.data.SizeOn? then o + [p.data.level]
      else if p.Found? && p.data == SizeOff then (if o == [] then [] else o[..|o| - 1])
      else o
  }

  /** The size in force: the innermost open level's, or the 16px base. */
  function OpenPx(ps: seq<Piece<Mark>>): int {
    var o := OpenLevels(ps);
    if o == [] then BASE_PX else FontSizePx(o[|o| - 1])
  }

  /** Segments described by the marker history alone: each non-empty text part with the flags and size of what precedes it. */
  function SegsRef(ps: seq<Piece<Mark>>): seq<Seg> {
    if ps == [] then []
    else
      var pre := ps[..|ps| - 1];
      var p := ps[|ps| - 1];
      SegsRef(pre)
      + (if p.Gap? && p.text != ""
         then [Seg(p.text, LastFlag(pre, BOn, BOff), LastFlag(pre, IOn, IOff), LastFlag(pre, UOn, UOff), FontPt(OpenPx(pre)))]
         else [])
  }

  /** The size stack holds the base size and then the levels of all but the innermost open tag. */
  ghost predicate StackMatches(w: Walk, o: seq<nat>) {
    && |w.stack| == |o|
    && (forall j :: 0 <= j < |o| ==> w.stack[j] == if j == 0 then BASE_PX else FontSizePx(o[j - 1]))
    && w.px == (if o == [] then BASE_PX else FontSizePx(o[|o| - 1]))
  }

  lemma {:induction false} WalkFlags(ps: seq<Piece<Mark>>)
    ensures WalkOf(ps).b == LastFlag(ps, BOn, BOff)
    ensures WalkOf(ps).i == LastFlag(ps, IOn, IOff)
    ensures WalkOf(ps).u == LastFlag(ps, UOn, UOff)
  {
    if ps != [] {
      WalkFlags(ps[..|ps| - 1]);
    }
  }

  lemma {:induction false} WalkSizes(ps: seq<Piece<Mark>>)
    ensures StackMatches(WalkOf(ps), OpenLevels(ps))
  {
    if ps != [] {
      var pre := ps[..|ps| - 1];
      WalkSizes(pre);
      var w := WalkOf(pre);
      var o := OpenLevels(pre);
      var p := ps[|ps| - 1];
      if p.Found? && p.data.SizeOn? {
        var o2 := o + [p.data.level];
        assert OpenLevels(ps) == o2;
        assert WalkOf(ps) == PushSize(w, p.data.level);
        forall j | 0 <= j < |o2| ensures WalkOf(ps).stack[j] == if j == 0 then BASE_PX else FontSizePx(o2[j - 1]) {
          if j < |o| {
            assert WalkOf(ps).stack[j] == w.stack[j];
          }
        }
      } else if p.Found? && p.data == SizeOff {
        assert WalkOf(ps) == PopSize(w);
        if o != [] {
          var v := w.stack[|w.stack| - 1];
          assert v >= 10;
          var o2 := o[..|o| - 1];
          assert OpenLevels(ps) == o2;
          forall j | 0 <= j < |o2| ensures WalkOf(ps).stack[j] == if j == 0 then BASE_PX else FontSizePx(o2[j - 1]) {
            assert WalkOf(ps).stack[j] == w.stack[j];
          }
        }
      } else {
        assert OpenLevels(ps) == o;
      }
    }
  }

  lemma {:induction false} WalkSegs(ps: seq<Piece<Mark>>)
    ensures WalkOf(ps).segs == SegsRef(ps)
  {
    if ps != [] {
      var pre := ps[..|ps| - 1];
      WalkSegs(pre);
      var w := WalkOf(pre);
      var p := ps[|ps| - 1];
      if p.Gap? && p.text != "" {
        WalkFlags(pre);
        WalkSizes(pre);
        assert WalkOf(ps) == Emit(w, p.text);
        assert w.px == OpenPx(pre);
      } else {
        MarkerKeepsSegs(w, p);
      }
    }
  }

  lemma {:induction false} MarkerKeepsSegs(w: Walk, p: Piece<Mark>)
    requires !(p.Gap? && p.text != "")
    ensures Step(w, p).segs == w.segs
  {
  }

  /** The loop's segments are exactly the reference segments. */
  lemma {:induction false} InlineSegsMeaning(html: string)
    ensures InlineSegs(html) == SegsRef(Parts(html))
  {
    WalkSegs(Parts(html));
  }

  /** With no size tag open the size is 12pt. */
  lemma {:induction false} BaseSizeIs12(ps: seq<Piece<Mark>>)
    requires OpenLevels(ps) == []
    ensures FontPt(OpenPx(ps)) == 12.0
  {
  }

  /** A size tag closed right after it opens brings back the size in force before it. */
  lemma {:induction false} SizeOffRestores(ps: seq<Piece<Mark>>, t: string, level: nat, t2: string)
    ensures OpenLevels(ps + [Found(t, SizeOn(level)), Found(t2, SizeOff)]) == OpenLevels(ps)
    ensures OpenPx(ps + [Found(t, SizeOn(level)), Found(t2, SizeOff)]) == OpenPx(ps)
  {
    var q := ps + [Found(t, SizeOn(level)), Found(t2, SizeOff)];
    assert q[..|q| - 1] == ps + [Found(t, SizeOn(level))];
    assert q[..|q| - 1][..|q| - 2] == ps;
  }

  /** A close with nothing open falls back to the 16px base. */
  lemma {:induction false} SizeOffOnEmpty(ps: seq<Piece<Mark>>, t: string)
    requires OpenLevels(ps) == []
    ensures OpenPx(ps + [Found(t, SizeOff)]) == BASE_PX
  {
    assert (ps + [Found(t, SizeOff)])[..|ps|] == ps;
  }

  /** No segment is empty. */
  lemma {:induction false} SegsNonEmpty(ps: seq<Piece<Mark>>)
    ensures forall j :: 0 <= j < |SegsRef(ps)| ==> SegsRef(ps)[j].text != ""
  {
    if ps != [] {
      SegsNonEmpty(ps[..|ps| - 1]);
    }
  }

  function SegTexts(segs: seq<Seg>): string {
    if segs == [] then [] else SegTexts(segs[..|segs| - 1]) + segs[|segs| - 1].text
  }

  lemma {:induction false} GapTextsSnoc(ps: seq<Piece<Mark>>)
    requires ps != []
    ensures GapTexts(ps) == GapTexts(ps[..|ps| - 1]) + (if ps[|ps| - 1].Gap? then ps[|ps| - 1].text else [])
  {
    var pre := ps[..|ps| - 1];
    assert ps == pre + [ps[|ps| - 1]];
    GapTextsAppend(pre, [ps[|ps| - 1]]);
  }

  lemma {:induction false} SegTextsAreGaps(ps: seq<Piece<Mark>>)
    ensures SegTexts(SegsRef(ps)) == GapTexts(ps)
  {
    if ps != [] {
      var pre := ps[..|ps| - 1];
      SegTextsAreGaps(pre);
      GapTextsSnoc(ps);
      var p := ps[|ps| - 1];
      if p.Gap? && p.text != "" {
        var s := SegsRef(pre) + [Seg(p.text, LastFlag(pre, BOn, BOff), LastFlag(pre, IOn, IOff), LastFlag(pre, UOn, UOff), FontPt(OpenPx(pre)))];
        assert SegsRef(ps) == s;
        assert s[..|s| - 1] == SegsRef(pre);
      } else {
        assert SegsRef(ps) == SegsRef(pre);
      }
    }
  }

  /** The segment texts joined are the stripped, decoded text with every marker removed. */
  lemma {:induction false} InlineSegsText(html: string)
    ensures SegTexts(InlineSegs(html)) == ReplaceAll(MarkedText(html), Erase(MarkerAt))
  {
    InlineSegsMeaning(html);
    SegTextsAreGaps(Parts(html));
    GapsAreErased(MarkedText(html), MarkerAt);
  }

  // ---------------------------------------------------------------- the loop as written

  /** `p.match(/\d/)[0]` read as a number: the first decimal digit anywhere in `p`. */
  function FirstDigit(p: string): (r: Option<nat>)
    ensures r.Some? ==> r.value <= 9
  {
    if p == [] then None
    else if IsDigit(p[0]) then Some(p[0] as int - '0' as int)
    else FirstDigit(p[1..])
  }

  /**
   * One part as src/backend/exporter.js:411-421 treats it: by comparing its
   * text, with any part that merely starts with `[[SIZE_ON:` taken as a size
   * tag. When such a part has no digit, `match` yields null and indexing it
   * throws.
   */
  function StepAsWritten(w: Walk, p: string): Result<Walk> {
    if p == "" then Ok(w)
    else if p == "[[B_ON]]" then Ok(w.(b := true))
    else if p == "[[B_OFF]]" then Ok(w.(b := false))
    else if p == "[[I_ON]]" then Ok(w.(i := true))
    else if p == "[[I_OFF]]" then Ok(w.(i := false))
    else if p == "[[U_ON]]" then Ok(w.(u := true))
    else if p == "[[U_OFF]]" then Ok(w.(u := false))
    else if StartsWith(p, "[[SIZE_ON:") then
      match FirstDigit(p)
      case None => Err("TypeError: Cannot read properties of null (reading '0')")
      case Some(n) => Ok(PushSize(w, n))
    else if p == "[[SIZE_OFF]]" then Ok(PopSize(w))
    else Ok(Emit(w, p))
  }

  function WalkAsWritten(parts: seq<string>): Result<Walk> {
    if parts == [] then Ok(START)
    else match WalkAsWritten(parts[..|parts| - 1])
      case Err(e) => Err(e)
      case Ok(w) => StepAsWritten(w, parts[|parts| - 1])
  }

  function PartTexts(ps: seq<Piece<Mark>>): (r: seq<string>)
    ensures |r| == |ps| && forall j :: 0 <= j < |ps| ==> r[j] == ps[j].text
  {
    seq(|ps|, j requires 0 <= j < |ps| => ps[j].text)
  }

  /** `inlineSegments` exactly as written, thrown errors included. */
  function InlineSegmentsAsWritten(html: string): Result<seq<Seg>> {
    match WalkAsWritten(PartTexts(Parts(html)))
    case Err(e) => Err(e)
    case Ok(w) => Ok(w.segs)
  }

  // Text without '<' goes through the marker replacements untouched.

  lemma {:induction false} EitherLtOnly(x: string, y: string, rep: string)
    requires |x| > 0 && x[0] == '<' && |y| > 0 && y[0] == '<'
    ensures LtOnly(EitherAt(x, y, rep))
  {
    forall t: string | EitherAt(x, y, rep)(t).Some? && |t| > 0 ensures t[0] == '<' {
      if AtI(t, 0, x) { AtILt(t, x); } else { AtILt(t, y); }
    }
  }

  lemma {:induction false} LitILtOnly(lit: string, rep: string)
    requires |lit| > 0 && lit[0] == '<'
    ensures LtOnly(LitI(lit, rep))
  {
    forall t: string | LitI(lit, rep)(t).Some? && |t| > 0 ensures t[0] == '<' {
      AtILt(t, lit);
    }
  }

  lemma {:induction false} FontOpenLtOnly()
    ensures LtOnly(FontOpenAt)
  {
    forall t: string | FontOpenAt(t).Some? && |t| > 0 ensures t[0] == '<' {
      AtILt(t, "<font");
    }
  }

  lemma {:induction false} MarkedTextPlain(s: string)
    requires forall i :: 0 <= i < |s| ==> s[i] != '<' && s[i] != '&'
    ensures MarkedText(s) == s
  {
    EitherLtOnly("<strong>", "<b>", "[[B_ON]]");
    EitherLtOnly("</strong>", "</b>", "[[B_OFF]]");
    EitherLtOnly("<em>", "<i>", "[[I_ON]]");
    EitherLtOnly("</em>", "</i>", "[[I_OFF]]");
    LitILtOnly("<u>", "[[U_ON]]");
    LitILtOnly("</u>", "[[U_OFF]]");
    FontOpenLtOnly();
    LitILtOnly("</font>", "[[SIZE_OFF]]");
    BrLtOnly();
    NoLtUntouched(s, EitherAt("<strong>", "<b>", "[[B_ON]]"));
    NoLtUntouched(s, EitherAt("</strong>", "</b>", "[[B_OFF]]"));
    NoLtUntouched(s, EitherAt("<em>", "<i>", "[[I_ON]]"));
    NoLtUntouched(s, EitherAt("</em>", "</i>", "[[I_OFF]]"));
    NoLtUntouched(s, LitI("<u>", "[[U_ON]]"));
    NoLtUntouched(s, LitI("</u>", "[[U_OFF]]"));
    NoLtUntouched(s, FontOpenAt);
    NoLtUntouched(s, LitI("</font>", "[[SIZE_OFF]]"));
    NoLtUntouched(s, BrAt);
    StripTagsWithoutLt(s);
    DecodeWithoutAmp(s);
  }

  lemma {:induction false} MarkerNeedsBrackets(t: string)
    ensures MarkerAt(t).Some? ==> |t| >= 2 && t[0] == '[' && t[1] == '['
  {
  }

  /** A text whose only "[[" is at its start and which is no marker there is one text part. */
  lemma {:induction false} SinglePart(s: string)
    requires |s| >= 3
    requires forall i :: 2 <= i < |s| ==> s[i] != '['
    requires MarkerAt(s).None?
    ensures Pieces(s, MarkerAt) == [Gap(s)]
  {
    assert s[0..] == s;
    forall k | 0 < k < |s| ensures !MatchesAt(s, MarkerAt, k) {
      MarkerNeedsBrackets(s[k..]);
      if k + 1 < |s| {
        assert s[k..][1] == s[k + 1];
      }
    }
  }

  const STRAY_NO_DIGIT: string := "[[SIZE_ON:x]]"
  const STRAY_TWO_DIGITS: string := "[[SIZE_ON:12]]"

  lemma {:induction false} NoDigitIsNoMarker()
    ensures MarkerAt(STRAY_NO_DIGIT).None?
  {
    var s := STRAY_NO_DIGIT;
    assert s[2] == 'S' && s[10] == 'x' && s[8] == 'N';
  }

  lemma {:induction false} TwoDigitsIsNoMarker()
    ensures MarkerAt(STRAY_TWO_DIGITS).None?
  {
    var s := STRAY_TWO_DIGITS;
    assert s[2] == 'S' && s[11] == '2' && s[8] == 'N';
  }

  /** Plain text that is no marker and holds none is a single text part. */
  lemma {:induction false} PlainParts(s: string)
    requires |s| >= 3
    requires forall i :: 0 <= i < |s| ==> s[i] != '<' && s[i] != '&'
    requires forall i :: 2 <= i < |s| ==> s[i] != '['
    requires MarkerAt(s).None?
    ensures Parts(s) == [Gap(s)]
  {
    MarkedTextPlain(s);
    SinglePart(s);
  }

  lemma {:induction false} StrayChars(s: string)
    requires s == STRAY_NO_DIGIT || s == STRAY_TWO_DIGITS
    ensures |s| >= 3
    ensures forall i :: 0 <= i < |s| ==> s[i] != '<' && s[i] != '&'
    ensures forall i :: 2 <= i < |s| ==> s[i] != '['
  {
  }

  lemma {:induction false} StrayDigits()
    ensures forall i :: 0 <= i < |STRAY_NO_DIGIT| ==> !IsDigit(STRAY_NO_DIGIT[i])
    ensures forall i :: 0 <= i < 10 ==> !IsDigit(STRAY_TWO_DIGITS[i])
    ensures STRAY_TWO_DIGITS[10] == '1'
    ensures StartsWith(STRAY_NO_DIGIT, "[[SIZE_ON:") && StartsWith(STRAY_TWO_DIGITS, "[[SIZE_ON:")
  {
  }

  lemma {:induction false} NoDigitParts()
    ensures Parts(STRAY_NO_DIGIT) == [Gap(STRAY_NO_DIGIT)]
  {
    StrayChars(STRAY_NO_DIGIT);
    NoDigitIsNoMarker();
    PlainParts(STRAY_NO_DIGIT);
  }

  lemma {:induction false} TwoDigitsParts()
    ensures Parts(STRAY_TWO_DIGITS) == [Gap(STRAY_TWO_DIGITS)]
  {
    StrayChars(STRAY_TWO_DIGITS);
    TwoDigitsIsNoMarker();
    PlainParts(STRAY_TWO_DIGITS);
  }

  /** As written, any part starting with `[[SIZE_ON:` is read as a size tag, by its first digit. */
  lemma {:induction false} SizePrefixAsWritten(w: Walk, p: string)
    requires StartsWith(p, "[[SIZE_ON:")
    ensures FirstDigit(p).None? ==> StepAsWritten(w, p).Err?
    ensures FirstDigit(p).Some? ==> StepAsWritten(w, p) == Ok(PushSize(w, FirstDigit(p).value))
  {
    assert p[2] == 'S' && p[7] == 'O' && p[8] == 'N';
  }

  lemma {:induction false} FirstDigitIs(p: string, j: nat)
    requires j <= |p| && forall i :: 0 <= i < j ==> !IsDigit(p[i])
    ensures j == |p| ==> FirstDigit(p) == None
    ensures j < |p| && IsDigit(p[j]) ==> FirstDigit(p) == Some(p[j] as int - '0' as int)
  {
    if j > 0 {
      FirstDigitIs(p[1..], j - 1);
    }
  }

  lemma {:induction false} WalkOneAsWritten(p: string)
    ensures WalkAsWritten([p]) == StepAsWritten(START, p)
  {
    var one: seq<string> := [p];
    assert one[..|one| - 1] == [];
  }

  lemma {:induction false} AsWrittenOfSingle(s: string)
    requires Parts(s) == [Gap(s)]
    ensures InlineSegmentsAsWritten(s) == match StepAsWritten(START, s) case Err(e) => Err(e) case Ok(w) => Ok(w.segs)
  {
    assert PartTexts([Gap(s)]) == [s];
    WalkOneAsWritten(s);
  }

  /** As written, a text part that starts like a size tag but holds no digit makes the loop throw. */
  lemma {:induction false} StrayTagThrowsAsWritten()
    ensures InlineSegmentsAsWritten(STRAY_NO_DIGIT).Err?
  {
    NoDigitParts();
    AsWrittenOfSingle(STRAY_NO_DIGIT);
    StrayDigits();
    FirstDigitIs(STRAY_NO_DIGIT, |STRAY_NO_DIGIT|);
    SizePrefixAsWritten(START, STRAY_NO_DIGIT);
  }

  /** As written, a text part such as "[[SIZE_ON:12]]" is swallowed as a size change: its text is lost. */
  lemma {:induction false} StrayTagSwallowedAsWritten()
    ensures InlineSegmentsAsWritten(STRAY_TWO_DIGITS) == Ok([])
  {
    TwoDigitsParts();
    StrayDigits();
    FirstDigitIs(STRAY_TWO_DIGITS, 10);
    SizeTagSwallowed(STRAY_TWO_DIGITS);
  }

  /** A single text part read as a size tag leaves no segment behind. */
  lemma {:induction false} SizeTagSwallowed(s: string)
    requires Parts(s) == [Gap(s)] && StartsWith(s, "[[SIZE_ON:") && FirstDigit(s).Some?
    ensures InlineSegmentsAsWritten(s) == Ok([])
  {
    AsWrittenOfSingle(s);
    SizePrefixAsWritten(START, s);
  }

  /** Dispatching on what the split found, such a part is plain 12pt text and nothing is lost. */
  lemma {:induction false} StrayTagIsText()
    ensures InlineSegs(STRAY_NO_DIGIT) == [Seg(STRAY_NO_DIGIT, false, false, false, 12.0)]
    ensures InlineSegs(STRAY_TWO_DIGITS) == [Seg(STRAY_TWO_DIGITS, false, false, false, 12.0)]
  {
    NoDigitParts();
    TwoDigitsParts();
    var p1: seq<Piece<Mark>> := [Gap(STRAY_NO_DIGIT)];
    var p2: seq<Piece<Mark>> := [Gap(STRAY_TWO_DIGITS)];
    assert p1[..|p1| - 1] == [] && p2[..|p2| - 1] == [];
  }

  // ---------------------------------------------------------------- font names

  /** `fontFor`: the registered face for the flags; any prefix other than "Mono" means the serif family. */
  function FontFor(b: bool, i: bool, prefix: string): string {
    if prefix == "Mono" then
      if b && i then "Mono-BoldOblique" else if b then "Mono-Bold" else if i then "Mono-Oblique" else "Mono"
    else
      if b && i then "Serif-BoldItalic" else if b then "Serif-Bold" else if i then "Serif-Italic" else "Serif"
  }

  /** Different flags give different faces, and the family follows the prefix. */
  lemma {:induction false} FontForDistinct(b1: bool, i1: bool, b2: bool, i2: bool, prefix: string)
    ensures FontFor(b1, i1, prefix) == FontFor(b2, i2, prefix) <==> b1 == b2 && i1 == i2
    ensures prefix == "Mono" ==> StartsWith(FontFor(b1, i1, prefix), "Mono")
    ensures prefix != "Mono" ==> StartsWith(FontFor(b1, i1, prefix), "Serif")
  {
    var r := FontFor(b1, i1, prefix);
    if prefix == "Mono" {
      assert r[..4] == "Mono";
    } else {
      assert r[..5] == "Serif";
    }
  }

}
