/**
 * The rich-text path of the exporter (src/backend/exporter.js:444-640):
 * a page is repaired, cut into top-level containers and the loose text
 * between them, and each block is drawn as a heading, a numbered or
 * bulleted list, a nested list, or a run of inline segments. A section
 * holding several page-content divs is drawn one page per div.
 */
module RichText {
  import opened Wrappers
  import opened Strings
  import opened Scan
  import opened Markup
  import opened Inline
  import opened Draw

  // ---------------------------------------------------------------- containers

  /** A matched `<NAME …>…</NAME>`: the tag name as captured, and the inner HTML. */
  datatype Container = Container(name: string, inner: string)

  /** The tag names of `<(h[1-3]|p|div|ul|ol)`, in lower case, for the text at the start of `t`. */
  function ContainerName(t: string): (r: Option<string>)
    ensures r.Some? ==> 1 <= |r.value| <= 3 && 1 + |r.value| <= |t|
  {
    if AtI(t, 0, "<h") && |t| > 2 && '1' <= t[2] <= '3' then Some(['h', t[2]])
    else if AtI(t, 0, "<p") then Some("p")
    else if AtI(t, 0, "<div") then Some("div")
    else if AtI(t, 0, "<ul") then Some("ul")
    else if AtI(t, 0, "<ol") then Some("ol")
    else None
  }

  /**
   * `<(h[1-3]|p|div|ul|ol)[^>]*>([\s\S]*?)<\/\1>` (case-insensitive, the
   * back-reference too): the open tag up to its first '>', then everything up
   * to the first closing tag of the same name.
   */
  function ContainerAt(t: string): (r: Option<Hit<Container>>)
    ensures r.Some? ==> |r.value.data.inner| < r.value.len <= |t|
  {
    match ContainerName(t)
    case None => None
    case Some(n) =>
      match FindChar(t, '>', 1 + |n|)
      case None => None
      case Some(g) =>
        match FindLitI(t, "</" + n + ">", g + 1)
        case None => None
        case Some(e) => Some(Hit(e + |n| + 3, Container(n, t[g + 1..e])))
  }

  datatype Kind = H1 | H2 | H3 | P | Div | Ul | Ol

  /** The block type of a lower-cased container name. */
  function KindOfName(n: string): Kind {
    if n == "h1" then H1 else if n == "h2" then H2 else if n == "h3" then H3
    else if n == "p" then P else if n == "div" then Div else if n == "ul" then Ul
    else Ol
  }

  /** `/<\s*NAME\b/i` matches at `j`: a '<', optional white space, the name, then no word character. */
  predicate OpensTagAt(t: string, j: nat, name: string)
    requires j < |t|
  {
    t[j] == '<'
    && var k := SkipWs(t, j + 1);
    AtI(t, k, name) && (k + |name| == |t| || !IsWordChar(t[k + |name|]))
  }

  predicate OpensTag(t: string, name: string) {
    exists j :: 0 <= j < |t| && OpensTagAt(t, j, name)
  }

  /** `forcedType`: a container holding an `ol` opening is an ordered list, else one holding a `ul`, else its own tag. */
  function ForcedKind(inner: string, name: string): Kind {
    if OpensTag(inner, "ol") then Ol else if OpensTag(inner, "ul") then Ul else KindOfName(name)
  }

  /** A block to draw: its type and its HTML. */
  datatype RichBlock = RichBlock(kind: Kind, html: string)

  /** One round of the segmentation loop: loose text that is not blank is a `div` block; a container is typed by `ForcedKind`. */
  function SegPiece(p: Piece<Container>): seq<RichBlock> {
    match p
    case Gap(text) => if Trim(text) == "" then [] else [RichBlock(Div, Trim(text))]
    case Found(_, c) =>
      var inner := Trim(c.inner);
      [RichBlock(ForcedKind(inner, ToLower(c.name)), inner)]
  }

  /** The page text the segmentation scans: lists repaired, content extracted, breaks made newlines, lists cleaned. */
  function PageText(html: string): string {
    CleanLists(BrToNewline(RemoveCr(ExtractPageContent(FixBrokenLists(html)))))
  }

  /** The blocks of the segmentation loop (src/backend/exporter.js:537-562). */
  function Segment(text: string): seq<RichBlock> {
    Collect(Pieces(text, ContainerAt), SegPiece)
  }

  /**
   * Blocks keep source order: the blocks of the `j`-th stretch of the text
   * come after those of every earlier stretch and before those of every
   * later one. Loose text that is not blank becomes, trimmed, a `div` block;
   * each container becomes a block of its forced type holding its trimmed
   * inner HTML; and nothing else is emitted.
   */
  lemma {:induction false} SegmentPlaces(text: string, j: nat)
    requires j < |Pieces(text, ContainerAt)|
    ensures var ps := Pieces(text, ContainerAt);
      Segment(text) == Collect(ps[..j], SegPiece) + SegPiece(ps[j]) + Collect(ps[j + 1..], SegPiece)
    ensures var p := Pieces(text, ContainerAt)[j];
      p.Gap? && Trim(p.text) != "" ==> RichBlock(Div, Trim(p.text)) in Segment(text)
    ensures var p := Pieces(text, ContainerAt)[j];
      p.Found? ==> RichBlock(ForcedKind(Trim(p.data.inner), ToLower(p.data.name)), Trim(p.data.inner)) in Segment(text)
  {
    CollectSplit(Pieces(text, ContainerAt), SegPiece, j);
  }

  lemma {:induction false} SegmentOnlyFromPieces(text: string, b: RichBlock)
    ensures b in Segment(text) <==>
      exists j :: 0 <= j < |Pieces(text, ContainerAt)| && b in SegPiece(Pieces(text, ContainerAt)[j])
  {
    var ps := Pieces(text, ContainerAt);
    CollectHas(ps, SegPiece, b);
  }

  /** The loose text is what is left once every container is cut out. */
  lemma {:induction false} LooseTextOutsideContainers(text: string)
    ensures GapTexts(Pieces(text, ContainerAt)) == ReplaceAll(text, Erase(ContainerAt))
  {
    GapsAreErased(text, ContainerAt);
  }

  /** A container whose inner HTML opens an `ol` anywhere is an ordered list, whatever its own tag. */
  lemma {:induction false} NestedOrderedWins(inner: string, name: string, j: nat)
    requires j + 3 <= |inner| && inner[j..j + 3] == "<ol" && (j + 3 == |inner| || !IsWordChar(inner[j + 3]))
    ensures ForcedKind(inner, name) == Ol
  {
    assert inner[j] == inner[j..j + 3][0];
    assert SkipWs(inner, j + 1) == j + 1 by {
      assert inner[j + 1] == inner[j..j + 3][1];
    }
    assert AtI(inner, j + 1, "ol") by {
      assert inner[j + 1] == inner[j..j + 3][1];
      assert inner[j + 2] == inner[j..j + 3][2];
    }
    assert OpensTagAt(inner, j, "ol");
  }

  // ---------------------------------------------------------------- list items

  /** `<li[^>]*>([\s\S]*?)<\/li>` (case-insensitive): the item's inner HTML. */
  function ListItemAt(t: string): (r: Option<Hit<string>>)
    ensures r.Some? ==> |r.value.data| < r.value.len <= |t|
  {
    if !AtI(t, 0, "<li") then None
    else match FindChar(t, '>', 3)
      case None => None
      case Some(g) =>
        match FindLitI(t, "</li>", g + 1)
        case None => None
        case Some(e) => Some(Hit(e + 5, t[g + 1..e]))
  }

  /** `safeItem`: the item's text, untagged, decoded and trimmed. */
  function SafeItem(inner: string): string {
    Trim(DecodeEntities(StripTags(inner)))
  }

  /** A blank item is skipped. */
  function ItemText(p: Piece<string>): seq<string> {
    if p.Found? && SafeItem(p.data) != "" then [SafeItem(p.data)] else []
  }

  /** The non-blank item texts of a list block, in order. */
  function ItemTexts(html: string): seq<string> {
    Collect(Pieces(html, ListItemAt), ItemText)
  }

  /** "n. " for an ordered list, "• " otherwise. */
  function ItemLabel(n: nat, ordered: bool): string {
    if ordered then NatToString(n) + ". " else "• "
  }

  /** The items labelled from `start` on. */
  function NumberFrom(xs: seq<string>, start: nat, ordered: bool): seq<string> {
    if xs == [] then [] else [ItemLabel(start, ordered) + xs[0]] + NumberFrom(xs[1..], start + 1, ordered)
  }

  /** Ordered items are numbered consecutively from `start`; each keeps its text. */
  lemma {:induction false} NumberFromIndex(xs: seq<string>, start: nat, ordered: bool)
    ensures |NumberFrom(xs, start, ordered)| == |xs|
    ensures forall i :: 0 <= i < |xs| ==> NumberFrom(xs, start, ordered)[i] == ItemLabel(start + i, ordered) + xs[i]
  {
    if xs != [] {
      NumberFromIndex(xs[1..], start + 1, ordered);
      forall i | 0 < i < |xs|
        ensures NumberFrom(xs, start, ordered)[i] == ItemLabel(start + i, ordered) + xs[i]
      {
        assert NumberFrom(xs, start, ordered)[i] == NumberFrom(xs[1..], start + 1, ordered)[i - 1];
        assert xs[1..][i - 1] == xs[i];
      }
    }
  }

  lemma {:induction false} NumberFromAppend(a: seq<string>, b: seq<string>, start: nat, ordered: bool)
    ensures NumberFrom(a + b, start, ordered) == NumberFrom(a, start, ordered) + NumberFrom(b, start + |a|, ordered)
  {
    if a == [] {
      assert a + b == b;
    } else {
      assert (a + b)[0] == a[0];
      assert (a + b)[1..] == a[1..] + b;
      NumberFromAppend(a[1..], b, start + 1, ordered);
    }
  }

  /** The items of a list block: numbered 1, 2, … over the non-blank items only, or bulleted. */
  function ListItems(html: string, ordered: bool): seq<string> {
    NumberFrom(ItemTexts(html), 1, ordered)
  }

  /** The `i`-th drawn item is the `i`-th non-blank item, labelled `i + 1` when the list is ordered. */
  lemma {:induction false} ListItemsNumbered(html: string, ordered: bool)
    ensures |ListItems(html, ordered)| == |ItemTexts(html)|
    ensures forall i :: 0 <= i < |ItemTexts(html)| ==>
      ListItems(html, ordered)[i] == ItemLabel(i + 1, ordered) + ItemTexts(html)[i]
  {
    NumberFromIndex(ItemTexts(html), 1, ordered);
  }

  /** Every item drawn has text, trimmed. */
  lemma {:induction false} ItemTextsTrimmed(html: string)
    ensures forall x :: x in ItemTexts(html) ==> x != "" && Trim(x) == x
  {
    forall x | x in ItemTexts(html)
      ensures x != "" && Trim(x) == x
    {
      ItemTextIsTrimmed(Pieces(html, ListItemAt), x);
    }
  }

  lemma {:induction false} ItemTextIsTrimmed(ps: seq<Piece<string>>, x: string)
    requires x in Collect(ps, ItemText)
    ensures x != "" && Trim(x) == x
  {
    CollectHas(ps, ItemText, x);
    var j :| 0 <= j < |ps| && x in ItemText(ps[j]);
    TrimIdempotent(DecodeEntities(StripTags(ps[j].data)));
  }

  /** Numbering one more item. */
  lemma {:induction false} NumberSnoc(done: seq<string>, x: string, ordered: bool)
    ensures NumberFrom(done + [x], 1, ordered) == NumberFrom(done, 1, ordered) + [ItemLabel(|done| + 1, ordered) + x]
  {
    NumberFromAppend(done, [x], 1, ordered);
    var one := [x];
    assert one[1..] == [];
  }

  /**
   * The item loop of a list block (src/backend/exporter.js:570-580): the
   * `exec` loop keeps the non-blank items, and the counter advances once
   * per item kept.
   */
  method NumberItems(html: string, ordered: bool) returns (items: seq<string>)
    ensures items == ListItems(html, ordered)
  {
    var kept := ExecLoop(html, ListItemAt, ItemText);
    items := NumberKept(kept, ordered);
  }

  /** The counter of the item loop: the `idx`-th kept item is labelled `idx`. */
  method NumberKept(kept: seq<string>, ordered: bool) returns (items: seq<string>)
    ensures items == NumberFrom(kept, 1, ordered)
  {
    items := [];
    var idx := 0;
    while idx < |kept|
      invariant 0 <= idx <= |kept| && items == NumberFrom(kept[..idx], 1, ordered)
    {
      NumberSnoc(kept[..idx], kept[idx], ordered);
      assert kept[..idx + 1] == kept[..idx] + [kept[idx]];
      idx := idx + 1;
      items := items + [ItemLabel(idx, ordered) + kept[idx - 1]];
    }
    assert kept[..|kept|] == kept;
  }

  // ---------------------------------------------------------------- drawing

  /** `drawSegs`: one text run per segment, each continued but the last, then the run is ended. */
  function DrawSegs(segs: seq<Seg>, x: real, width: real, prefix: string): seq<Cmd> {
    seq(|segs|, i requires 0 <= i < |segs| =>
      Text(segs[i].text, x, width, AlignLeft, FontFor(segs[i].b, segs[i].i, prefix), segs[i].sizePt, segs[i].u, i < |segs| - 1))
    + [EndLine]
  }

  /** What `drawSegs` prints is the segments' text, in order. */
  lemma {:induction false} DrawSegsPrints(segs: seq<Seg>, x: real, width: real, prefix: string)
    ensures Printed(DrawSegs(segs, x, width, prefix)) == SegTexts(segs)
    decreases |segs|
  {
    if segs == [] {
      assert DrawSegs(segs, x, width, prefix) == [EndLine];
    } else {
      var last := segs[|segs| - 1];
      var init := segs[..|segs| - 1];
      var cmds := DrawSegs(segs, x, width, prefix);
      var c := Text(last.text, x, width, AlignLeft, FontFor(last.b, last.i, prefix), last.sizePt, last.u, false);
      DrawSegsPrints(init, x, width, prefix);
      var initCmds := DrawSegs(init, x, width, prefix);
      assert cmds[..|init|] + [c] + [EndLine] == cmds;
      assert forall i :: 0 <= i < |init| ==> cmds[i].Text? && initCmds[i].Text? && cmds[i].text == initCmds[i].text;
      PrintedTexts(cmds[..|init|], initCmds[..|init|]);
      assert initCmds == initCmds[..|init|] + [EndLine];
      PrintedAppend(initCmds[..|init|], [EndLine]);
      PrintedAppend(cmds[..|init|] + [c], [EndLine]);
      PrintedAppend(cmds[..|init|], [c]);
      SegTextsSnoc(init, last);
      assert init + [last] == segs;
    }
  }

  /** Two command lists whose text commands print the same text print the same. */
  lemma {:induction false} PrintedTexts(a: seq<Cmd>, b: seq<Cmd>)
    requires |a| == |b|
    requires forall i :: 0 <= i < |a| ==> a[i].Text? && b[i].Text? && a[i].text == b[i].text
    ensures Printed(a) == Printed(b)
  {
    if a != [] {
      PrintedTexts(a[1..], b[1..]);
    }
  }

  lemma {:induction false} SegTextsSnoc(init: seq<Seg>, last: Seg)
    ensures SegTexts(init + [last]) == SegTexts(init) + last.text
  {
    if init == [] {
      assert init + [last] == [last];
    } else {
      assert (init + [last])[1..] == init[1..] + [last];
      SegTextsSnoc(init[1..], last);
    }
  }

  /** Only the last segment of a run leaves the line open for nothing: every earlier one is continued. */
  lemma {:induction false} DrawSegsContinued(segs: seq<Seg>, x: real, width: real, prefix: string)
    ensures var cmds := DrawSegs(segs, x, width, prefix);
      && |cmds| == |segs| + 1 && cmds[|segs|] == EndLine
      && forall i :: 0 <= i < |segs| ==> cmds[i].Text? && (cmds[i].continued <==> i < |segs| - 1)
  {
  }

  /**
   * A plain block prints exactly its untagged, decoded text with the inline
   * markers taken out: no character is lost or added on the way to the page.
   */
  lemma {:induction false} PlainBlockPrints(b: RichBlock, prefix: string, measure: string -> real)
    requires b.kind in {P, Div} && Trim(b.html) != ""
    requires !HasOpenTag(Trim(b.html), "<ul") && !HasOpenTag(Trim(b.html), "<ol")
    ensures Printed(BlockCmds(b, prefix, measure)) == ReplaceAll(MarkedText(Trim(b.html)), Erase(MarkerAt))
  {
    var segs := InlineSegs(Trim(b.html));
    DrawSegsPrints(segs, LEFT, WIDTH, prefix);
    PrintedAppend(DrawSegs(segs, LEFT, WIDTH, prefix), [MoveDown(0.6)]);
    InlineSegsText(Trim(b.html));
  }

  /** The marker of item `idx`: its number and a dot, or a bullet. */
  function ItemMarker(ordered: bool, idx: nat): string {
    if ordered then NatToString(idx) + "." else "•"
  }

  const INDENT: real := 28.0

  /** `subRe`: a nested `<(ul|ol)[^>]*>…</\1>`, its name as written (the `ol` test is case-sensitive). */
  function SubListAt(t: string): (r: Option<Hit<Container>>)
    ensures r.Some? ==> |r.value.data.inner| < r.value.len <= |t|
  {
    if !(AtI(t, 0, "<ul") || AtI(t, 0, "<ol")) then None
    else
      var n := t[1..3];
      match FindChar(t, '>', 3)
      case None => None
      case Some(g) =>
        match FindLitI(t, "</" + ToLower(n) + ">", g + 1)
        case None => None
        case Some(e) => Some(Hit(e + 5, Container(n, t[g + 1..e])))
  }

  function Len(x: string): nat { |x| }

  function InnerLen(c: Container): nat { |c.inner| }

  /** One item of `renderList`: the marker at the depth's indent, the item's own text beside it, then a small gap. */
  function ItemCmds(inner: string, idx: nat, ordered: bool, depth: nat, prefix: string, measure: string -> real): seq<Cmd> {
    var textPart := Trim(ReplaceAll(inner, Erase(SubListAt)));
    var xStart := LEFT + INDENT * depth as real;
    var markerText := ItemMarker(ordered, idx) + " ";
    var xText := xStart + measure(markerText) + 6.0;
    [Run(markerText, xStart, prefix + "-Bold", 12.0)]
    + DrawSegs(InlineSegs(textPart), xText, WIDTH - (xText - LEFT), prefix)
    + [EndLine, MoveDown(0.25)]
  }

  /**
   * `renderList`: every item is numbered (blank ones too), drawn at
   * `28 * depth` from the left margin, and followed by its nested lists one
   * level deeper. `measure` is pdfkit's `widthOfString`.
   */
  function RenderList(html: string, ordered: bool, depth: nat, prefix: string, measure: string -> real): seq<Cmd>
    decreases |html|, 1
  {
    FoundShorter(html, ListItemAt, Len);
    ListItemsCmds(html, Pieces(html, ListItemAt), 0, ordered, depth, prefix, measure)
  }

  function ListItemsCmds(html: string, ps: seq<Piece<string>>, idx: nat, ordered: bool, depth: nat, prefix: string, measure: string -> real): seq<Cmd>
    requires forall p :: p in ps && p.Found? ==> |p.data| < |html|
    decreases |html|, 0, |ps|
  {
    if ps == [] then []
    else if ps[0].Gap? then ListItemsCmds(html, ps[1..], idx, ordered, depth, prefix, measure)
    else
      var inner := ps[0].data;
      FoundShorter(inner, SubListAt, InnerLen);
      ItemCmds(inner, idx + 1, ordered, depth, prefix, measure)
      + SubListsCmds(inner, Pieces(inner, SubListAt), depth + 1, prefix, measure)
      + ListItemsCmds(html, ps[1..], idx + 1, ordered, depth, prefix, measure)
  }

  function SubListsCmds(inner: string, subs: seq<Piece<Container>>, depth: nat, prefix: string, measure: string -> real): seq<Cmd>
    requires forall p :: p in subs && p.Found? ==> |p.data.inner| < |inner|
    decreases |inner|, 0, |subs|
  {
    if subs == [] then []
    else
      (if subs[0].Found? then RenderList(subs[0].data.inner, subs[0].data.name == "ol", depth, prefix, measure) else [])
      + SubListsCmds(inner, subs[1..], depth, prefix, measure)
  }

  /** What a list drawing may contain: no page break, and every marker at least at its depth's indent. */
  ghost predicate ListShaped(cmds: seq<Cmd>, depth: nat) {
    forall c :: c in cmds ==> !c.NewPage? && (c.Run? ==> c.x >= LEFT + INDENT * depth as real)
  }

  lemma {:induction false} ListShapedAppend(a: seq<Cmd>, b: seq<Cmd>, depth: nat)
    requires ListShaped(a, depth) && ListShaped(b, depth)
    ensures ListShaped(a + b, depth)
  {
  }

  lemma {:induction false} ListShapedDeeper(cmds: seq<Cmd>, depth: nat)
    requires ListShaped(cmds, depth + 1)
    ensures ListShaped(cmds, depth)
  {
  }

  /** A nested list never breaks the page and is indented at least as far as its depth. */
  lemma {:induction false} RenderListShaped(html: string, ordered: bool, depth: nat, prefix: string, measure: string -> real)
    ensures ListShaped(RenderList(html, ordered, depth, prefix, measure), depth)
    decreases |html|, 1
  {
    FoundShorter(html, ListItemAt, Len);
    ListItemsShaped(html, Pieces(html, ListItemAt), 0, ordered, depth, prefix, measure);
  }

  lemma {:induction false} ListItemsShaped(html: string, ps: seq<Piece<string>>, idx: nat, ordered: bool, depth: nat, prefix: string, measure: string -> real)
    requires forall p :: p in ps && p.Found? ==> |p.data| < |html|
    ensures ListShaped(ListItemsCmds(html, ps, idx, ordered, depth, prefix, measure), depth)
    decreases |html|, 0, |ps|
  {
    if ps != [] {
      ListItemsShaped(html, ps[1..], if ps[0].Gap? then idx else idx + 1, ordered, depth, prefix, measure);
      if ps[0].Found? {
        var inner := ps[0].data;
        FoundShorter(inner, SubListAt, InnerLen);
        SubListsShaped(inner, Pieces(inner, SubListAt), depth + 1, prefix, measure);
        ListShapedDeeper(SubListsCmds(inner, Pieces(inner, SubListAt), depth + 1, prefix, measure), depth);
        var item := ItemCmds(inner, idx + 1, ordered, depth, prefix, measure);
        ListShapedAppend(item, SubListsCmds(inner, Pieces(inner, SubListAt), depth + 1, prefix, measure), depth);
      }
    }
  }

  lemma {:induction false} SubListsShaped(inner: string, subs: seq<Piece<Container>>, depth: nat, prefix: string, measure: string -> real)
    requires forall p :: p in subs && p.Found? ==> |p.data.inner| < |inner|
    ensures ListShaped(SubListsCmds(inner, subs, depth, prefix, measure), depth)
    decreases |inner|, 0, |subs|
  {
    if subs != [] {
      SubListsShaped(inner, subs[1..], depth, prefix, measure);
      if subs[0].Found? {
        RenderListShaped(subs[0].data.inner, subs[0].data.name == "ol", depth, prefix, measure);
      }
    }
  }

  /** `/<ul[^>]*>/` (case-sensitive): `open` somewhere, with a '>' after it. */
  predicate HasOpenTag(t: string, open: string) {
    exists j :: 0 <= j <= |t| && OpenTagAt(t, j, open)
  }

  predicate OpenTagAt(t: string, j: nat, open: string)
    requires j <= |t|
  {
    StartsWith(t[j..], open) && FindChar(t, '>', j + |open|).Some?
  }

  /** The size of a heading: 32, 24 or 18 px in points. */
  function HeadingSize(k: Kind): real {
    if k == H1 then FontPt(32) else if k == H2 then FontPt(24) else FontPt(18)
  }

  /** Drawing a list block from its numbered items. */
  function ListBlockCmds(items: seq<string>, prefix: string): seq<Cmd> {
    DrawSegs(InlineSegs(Join(items, "\n")), LEFT, WIDTH, prefix) + [MoveDown(0.6)]
  }

  /** The drawing of one block (src/backend/exporter.js:566-623). */
  function BlockCmds(b: RichBlock, prefix: string, measure: string -> real): seq<Cmd> {
    var htmlBlock := Trim(b.html);
    if b.kind == Ol || b.kind == Ul then ListBlockCmds(ListItems(b.html, b.kind == Ol), prefix)
    else if htmlBlock == "" then []
    else if b.kind == H1 || b.kind == H2 || b.kind == H3 then
      [Line(StripTags(DecodeEntities(htmlBlock)), LEFT, WIDTH, AlignLeft, prefix + "-Bold", HeadingSize(b.kind)),
       MoveDown(0.8), SetFont(prefix, FontPt(BASE_PX))]
    else if HasOpenTag(htmlBlock, "<ul") || HasOpenTag(htmlBlock, "<ol") then
      RenderList(htmlBlock, HasOpenTag(htmlBlock, "<ol"), 0, prefix, measure) + [MoveDown(0.4)]
    else DrawSegs(InlineSegs(htmlBlock), LEFT, WIDTH, prefix) + [MoveDown(0.6)]
  }

  /** The body of the block loop, with the item loop for list blocks. */
  method RenderBlock(b: RichBlock, prefix: string, measure: string -> real) returns (cmds: seq<Cmd>)
    ensures cmds == BlockCmds(b, prefix, measure)
  {
    if b.kind == Ol || b.kind == Ul {
      var items := NumberItems(b.html, b.kind == Ol);
      cmds := ListBlockCmds(items, prefix);
    } else {
      cmds := BlockCmds(b, prefix, measure);
    }
  }

  /** The blocks drawn one after another. */
  function BlocksCmds(bs: seq<RichBlock>, prefix: string, measure: string -> real): seq<Cmd> {
    if bs == [] then [] else BlocksCmds(bs[..|bs| - 1], prefix, measure) + BlockCmds(bs[|bs| - 1], prefix, measure)
  }

  /** `renderRichTextPage`: nothing for an empty page, else every block of the prepared text in order. */
  function RichTextPage(html: string, prefix: string, measure: string -> real): seq<Cmd> {
    if html == "" then [] else BlocksCmds(Segment(PageText(html)), prefix, measure)
  }

  method RenderRichTextPage(html: string, prefix: string, measure: string -> real) returns (cmds: seq<Cmd>)
    ensures cmds == RichTextPage(html, prefix, measure)
  {
    cmds := [];
    if html == "" {
      return;
    }
    var blocks := ExecLoop(PageText(html), ContainerAt, SegPiece);
    cmds := RenderBlocks(blocks, prefix, measure);
  }

  /** The block loop `for (const b of blocks)`. */
  method RenderBlocks(blocks: seq<RichBlock>, prefix: string, measure: string -> real) returns (cmds: seq<Cmd>)
    ensures cmds == BlocksCmds(blocks, prefix, measure)
  {
    cmds := [];
    for j := 0 to |blocks|
      invariant cmds == BlocksCmds(blocks[..j], prefix, measure)
    {
      var c := RenderBlock(blocks[j], prefix, measure);
      assert blocks[..j + 1][..j] == blocks[..j];
      cmds := cmds + c;
    }
    assert blocks[..|blocks|] == blocks;
  }

  // ---------------------------------------------------------------- pages

  function PagePiece(p: Piece<string>): seq<string> {
    if p.Found? then [p.data] else []
  }

  /** The pages of `renderRichTextPages`: every page-content div's content, or the extracted content when there is none. */
  function PageList(raw: string): seq<string> {
    var pages := Collect(Pieces(raw, PageContentAt), PagePiece);
    if pages == [] then [ExtractPageContent(raw)] else pages
  }

  /** A section without page-content divs is one page, the section itself; otherwise the first page is what `extractPageContent` finds. */
  lemma {:induction false} PageListMeaning(raw: string)
    ensures |PageList(raw)| >= 1
    ensures FindFrom(raw, PageContentAt, 0).None? ==> PageList(raw) == [raw]
    ensures FindFrom(raw, PageContentAt, 0).Some? ==> PageList(raw)[0] == ExtractPageContent(raw)
  {
    CollectRound(raw, PageContentAt, PagePiece, 0);
    assert raw[0..] == raw;
  }

  function PagesCmds(pages: seq<string>, prefix: string, measure: string -> real): seq<Cmd> {
    if pages == [] then []
    else
      PagesCmds(pages[..|pages| - 1], prefix, measure)
      + (if |pages| > 1 then [NewPage] else [])
      + RichTextPage(pages[|pages| - 1], prefix, measure)
  }

  /** `renderRichTextPages`. */
  function RichTextPages(raw: string, prefix: string, measure: string -> real): seq<Cmd> {
    if raw == "" then [] else PagesCmds(PageList(raw), prefix, measure)
  }

  method RenderRichTextPages(raw: string, prefix: string, measure: string -> real) returns (cmds: seq<Cmd>)
    ensures cmds == RichTextPages(raw, prefix, measure)
  {
    cmds := [];
    if raw == "" {
      return;
    }
    var pages := ExecLoop(raw, PageContentAt, PagePiece);
    if |pages| == 0 {
      pages := [ExtractPageContent(raw)];
    }
    cmds := RenderPages(pages, prefix, measure);
  }

  lemma {:induction false} PagesSnoc(pages: seq<string>, i: nat, prefix: string, measure: string -> real)
    requires i < |pages|
    ensures PagesCmds(pages[..i + 1], prefix, measure)
      == PagesCmds(pages[..i], prefix, measure) + (if i > 0 then [NewPage] else []) + RichTextPage(pages[i], prefix, measure)
  {
    assert pages[..i + 1][..i] == pages[..i];
  }

  /** The page loop: a new page before every page but the first. */
  method RenderPages(pages: seq<string>, prefix: string, measure: string -> real) returns (cmds: seq<Cmd>)
    ensures cmds == PagesCmds(pages, prefix, measure)
  {
    cmds := [];
    for i := 0 to |pages|
      invariant cmds == PagesCmds(pages[..i], prefix, measure)
    {
      var c := RenderRichTextPage(pages[i], prefix, measure);
      PagesSnoc(pages, i, prefix, measure);
      cmds := cmds + (if i > 0 then [NewPage] else []) + c;
    }
    assert pages[..|pages|] == pages;
  }

  /** The number of page breaks in a drawing. */
  function Breaks(cmds: seq<Cmd>): nat {
    if cmds == [] then 0 else (if cmds[0].NewPage? then 1 else 0) + Breaks(cmds[1..])
  }

  lemma {:induction false} BreaksAppend(a: seq<Cmd>, b: seq<Cmd>)
    ensures Breaks(a + b) == Breaks(a) + Breaks(b)
  {
    if a == [] {
      assert a + b == b;
    } else {
      assert (a + b)[1..] == a[1..] + b;
      BreaksAppend(a[1..], b);
    }
  }

  lemma {:induction false} NoBreaks(cmds: seq<Cmd>)
    requires forall c :: c in cmds ==> !c.NewPage?
    ensures Breaks(cmds) == 0
  {
    if cmds != [] {
      assert cmds[0] in cmds;
      NoBreaks(cmds[1..]);
    }
  }

  lemma {:induction false} DrawSegsNoBreak(segs: seq<Seg>, x: real, width: real, prefix: string)
    ensures forall c :: c in DrawSegs(segs, x, width, prefix) ==> !c.NewPage?
  {
    var cmds := DrawSegs(segs, x, width, prefix);
    forall c | c in cmds ensures !c.NewPage? {
      var i :| 0 <= i < |cmds| && cmds[i] == c;
    }
  }

  /** A block never breaks the page. */
  lemma {:induction false} BlockNoBreak(b: RichBlock, prefix: string, measure: string -> real)
    ensures Breaks(BlockCmds(b, prefix, measure)) == 0
  {
    var htmlBlock := Trim(b.html);
    var cmds := BlockCmds(b, prefix, measure);
    if b.kind == Ol || b.kind == Ul {
      DrawSegsNoBreak(InlineSegs(Join(ListItems(b.html, b.kind == Ol), "\n")), LEFT, WIDTH, prefix);
    } else if htmlBlock == "" || b.kind == H1 || b.kind == H2 || b.kind == H3 {
    } else if HasOpenTag(htmlBlock, "<ul") || HasOpenTag(htmlBlock, "<ol") {
      RenderListShaped(htmlBlock, HasOpenTag(htmlBlock, "<ol"), 0, prefix, measure);
    } else {
      DrawSegsNoBreak(InlineSegs(htmlBlock), LEFT, WIDTH, prefix);
    }
    NoBreaks(cmds);
  }

  lemma {:induction false} BlocksNoBreak(bs: seq<RichBlock>, prefix: string, measure: string -> real)
    ensures Breaks(BlocksCmds(bs, prefix, measure)) == 0
  {
    if bs != [] {
      BlocksNoBreak(bs[..|bs| - 1], prefix, measure);
      BlockNoBreak(bs[|bs| - 1], prefix, measure);
      BreaksAppend(BlocksCmds(bs[..|bs| - 1], prefix, measure), BlockCmds(bs[|bs| - 1], prefix, measure));
    }
  }

  lemma {:induction false} PageNoBreak(html: string, prefix: string, measure: string -> real)
    ensures Breaks(RichTextPage(html, prefix, measure)) == 0
  {
    if html != "" {
      BlocksNoBreak(Segment(PageText(html)), prefix, measure);
    }
  }

  lemma {:induction false} PagesBreaks(pages: seq<string>, prefix: string, measure: string -> real)
    requires pages != []
    ensures Breaks(PagesCmds(pages, prefix, measure)) == |pages| - 1
  {
    var init := pages[..|pages| - 1];
    var page := RichTextPage(pages[|pages| - 1], prefix, measure);
    PageNoBreak(pages[|pages| - 1], prefix, measure);
    var sep: seq<Cmd> := if |pages| > 1 then [NewPage] else [];
    if init != [] {
      PagesBreaks(init, prefix, measure);
    }
    BreaksAppend(PagesCmds(init, prefix, measure) + sep, page);
    BreaksAppend(PagesCmds(init, prefix, measure), sep);
    assert Breaks(sep) == (if |pages| > 1 then 1 else 0) by {
      if |pages| > 1 {
        assert sep[1..] == [];
      }
    }
  }

  /** A section is drawn as one page per entry of `PageList`: a page break between each two and nowhere else. */
  lemma {:induction false} PageBreaksBetweenPages(raw: string, prefix: string, measure: string -> real)
    requires raw != ""
    ensures Breaks(RichTextPages(raw, prefix, measure)) == |PageList(raw)| - 1
  {
    PageListMeaning(raw);
    PagesBreaks(PageList(raw), prefix, measure);
  }
}
