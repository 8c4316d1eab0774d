/**
 * The screenplay path of the exporter (src/backend/exporter.js:297-373):
 * blank-line markers are inserted between adjacent `div`s, the scene is
 * cut into typed blocks by its class attributes, and each block type is
 * laid out by a fixed table of column, alignment, face and casing.
 */
module Screenplay {
  import opened Wrappers
  import opened Strings
  import opened Scan
  import opened Markup
  import opened Draw

  // ---------------------------------------------------------------- blank lines between blocks

  const GAP_MARKUP: string := "</div><div class=\"scene-gap\"></div>"

  /** `/<\/div>\s*(?=<div)/`: a closing `div`, the white space after it, and a `div` opening next. */
  function GapAt(t: string): (r: Option<Hit<string>>)
    ensures r.Some? ==> StartsWith(t, "</div>") && 6 <= r.value.len <= |t| && AllWs(t[6..r.value.len])
    ensures r.Some? ==> StartsWith(t[r.value.len..], "<div") && r.value.data == GAP_MARKUP
  {
    if !StartsWith(t, "</div>") then None
    else
      var w := SkipWs(t, 6);
      if StartsWith(t[w..], "<div") then Some(Hit(w, GAP_MARKUP)) else None
  }

  /** Wherever a closing `div` is followed by white space and a `div`, the gap matches all of that space. */
  lemma {:induction false} GapAtComplete(t: string, w: nat)
    requires StartsWith(t, "</div>") && 6 <= w <= |t| && AllWs(t[6..w]) && StartsWith(t[w..], "<div")
    ensures GapAt(t) == Some(Hit(w, GAP_MARKUP))
  {
    assert t[w] == t[w..][0] == '<';
    SkipWsIs(t, 6, w);
  }

  /** The replace in `renderSceneBlocks`. */
  function InsertSceneGaps(html: string): string {
    ReplaceAll(html, GapAt)
  }

  // ---------------------------------------------------------------- scene elements

  /** What `<(div|p)[^>]*class="([^"]+)"[^>]*>([\s\S]*?)<\/\1>` captures: the class value and the inner HTML. */
  datatype Element = Element(classes: string, inner: string)

  /** The rest of a scene element once `class="` is taken at `k`; `close` is `</div>` or `</p>`. */
  function ElementFromClass(t: string, k: nat, close: string): Option<Hit<Element>> {
    if !AtI(t, k, CLASS_ATTR) then None
    else match FindChar(t, '"', k + 7)
      case None => None
      case Some(q) =>
        if q == k + 7 then None
        else match FindChar(t, '>', q + 1)
          case None => None
          case Some(g2) =>
            match FindLitI(t, close, g2 + 1)
            case None => None
            case Some(e) => Some(Hit(e + |close|, Element(t[k + 7..q], t[g2 + 1..e])))
  }

  /** A `div` or `p` element with a non-empty class attribute, up to its first closing tag. */
  function ElementAt(t: string): Option<Hit<Element>> {
    var n := if AtI(t, 0, "<div") then 4 else if AtI(t, 0, "<p") then 2 else 0;
    if n == 0 then None
    else
      var close := if n == 4 then "</div>" else "</p>";
      match FindChar(t, '>', n)
      case None => None
      case Some(g) => LastFirst(n, g - 1, k => ElementFromClass(t, k, close))
  }

  // ---------------------------------------------------------------- block types

  datatype BlockType = SceneHeading | Character | Dialogue | Parenthetical | Transition | Action | SceneGap

  datatype Block = Block(kind: BlockType, text: string)

  /** The seven class names the exporter knows. */
  function KnownClass(c: string): Option<BlockType> {
    if c == "scene-heading" then Some(SceneHeading)
    else if c == "character" then Some(Character)
    else if c == "dialogue" then Some(Dialogue)
    else if c == "parenthetical" then Some(Parenthetical)
    else if c == "transition" then Some(Transition)
    else if c == "action" then Some(Action)
    else if c == "scene-gap" then Some(SceneGap)
    else None
  }

  /** The index just past the run of non-white-space characters from `from`. */
  function WordEnd(v: string, from: nat): (r: nat)
    requires from <= |v|
    ensures from <= r <= |v| && (forall i :: from <= i < r ==> !IsWs(v[i])) && (r == |v| || IsWs(v[r]))
    decreases |v| - from
  {
    if from < |v| && !IsWs(v[from]) then WordEnd(v, from + 1) else from
  }

  /**
   * `classList = v.split(/\s+/)` without the empty strings a leading or
   * trailing space leaves, which no known name equals.
   */
  function Words(v: string): (r: seq<string>)
    ensures forall j :: 0 <= j < |r| ==> r[j] != [] && forall i :: 0 <= i < |r[j]| ==> !IsWs(r[j][i])
    decreases |v|
  {
    var a := SkipWs(v, 0);
    if a == |v| then []
    else
      var b := WordEnd(v, a);
      [v[a..b]] + Words(v[b..])
  }

  /** `classList.find(c => known.includes(c))`. */
  function FirstKnown(ws: seq<string>): Option<BlockType> {
    if ws == [] then None
    else if KnownClass(ws[0]).Some? then KnownClass(ws[0])
    else FirstKnown(ws[1..])
  }

  /** `find` yields a known class exactly when there is one, and then the first one. */
  lemma {:induction false} FirstKnownIs(ws: seq<string>)
    ensures FirstKnown(ws).Some? <==> exists j :: 0 <= j < |ws| && KnownClass(ws[j]).Some?
    ensures FirstKnown(ws).Some? ==>
      exists j :: 0 <= j < |ws| && KnownClass(ws[j]) == FirstKnown(ws) && forall i :: 0 <= i < j ==> KnownClass(ws[i]).None?
  {
    if ws != [] && KnownClass(ws[0]).None? {
      FirstKnownIs(ws[1..]);
      var r := FirstKnown(ws[1..]);
      if r.Some? {
        var j :| 0 <= j < |ws[1..]| && KnownClass(ws[1..][j]) == r && forall i :: 0 <= i < j ==> KnownClass(ws[1..][i]).None?;
        assert KnownClass(ws[j + 1]) == r;
        forall i | 0 <= i < j + 1 ensures KnownClass(ws[i]).None? {
          if i > 0 { assert ws[i] == ws[1..][i - 1]; }
        }
      } else {
        forall j | 0 <= j < |ws| ensures KnownClass(ws[j]).None? {
          if j > 0 { assert ws[j] == ws[1..][j - 1]; }
        }
      }
    }
  }

  /** The block type of a class value: the first known class, or action. */
  function ClassType(classes: string): BlockType {
    match FirstKnown(Words(classes))
    case Some(k) => k
    case None => Action
  }

  /** A block of type `kind` whose decoded text is `x`: a gap, a trimmed non-empty text, or nothing. */
  function MakeBlock(kind: BlockType, x: string): Option<Block> {
    if kind == SceneGap then Some(Block(SceneGap, ""))
    else
      var text := Trim(x);
      if text == "" then None else Some(Block(kind, text))
  }

  /** One loop round of `parseSceneBlocks`: the block of one matched element. */
  function BlockOf(e: Element): Option<Block> {
    MakeBlock(ClassType(e.classes), DecodeEntities(StripTags(e.inner)))
  }

  lemma {:induction false} MakeBlockMeaning(kind: BlockType, x: string)
    ensures var r := MakeBlock(kind, x);
      && (r.Some? ==> r.value.kind == kind)
      && (r.Some? && kind == SceneGap ==> r.value.text == "")
      && (r.Some? && kind != SceneGap ==> r.value.text != "" && Trim(r.value.text) == r.value.text && r.value.text == Trim(x))
      && (r.None? <==> kind != SceneGap && Trim(x) == "")
  {
    TrimIdempotent(x);
  }

  /**
   * A gap element gives a gap block with no text; any other element gives a
   * block of its class type whose text is its trimmed, decoded, untagged
   * inner HTML, or nothing when that text is blank.
   */
  lemma {:induction false} BlockOfMeaning(e: Element)
    ensures var r := BlockOf(e);
      var x := DecodeEntities(StripTags(e.inner));
      && (r.Some? ==> r.value.kind == ClassType(e.classes))
      && (r.Some? && r.value.kind == SceneGap ==> r.value.text == "")
      && (r.Some? && r.value.kind != SceneGap ==> r.value.text != "" && Trim(r.value.text) == r.value.text && r.value.text == Trim(x))
      && (r.None? <==> ClassType(e.classes) != SceneGap && Trim(x) == "")
  {
    MakeBlockMeaning(ClassType(e.classes), DecodeEntities(StripTags(e.inner)));
  }

  /** What one round of `parseSceneBlocks` adds: the element's block, if it has one; text between elements adds nothing. */
  function PieceBlocks(p: Piece<Element>): seq<Block> {
    if p.Found? then
      match BlockOf(p.data)
      case Some(b) => [b]
      case None => []
    else []
  }

  /** The text `parseSceneBlocks` scans: the page content, carriage returns dropped, breaks as newlines. */
  function SceneText(html: string): string {
    BrToNewline(RemoveCr(ExtractPageContent(html)))
  }

  /** The blocks `parseSceneBlocks` returns: those of the matched elements, in order. */
  function SceneBlocks(html: string): seq<Block> {
    Collect(Pieces(SceneText(html), ElementAt), PieceBlocks)
  }

  /** `parseSceneBlocks`: the `re.exec` loop over the prepared text. */
  method ParseSceneBlocks(html: string) returns (blocks: seq<Block>)
    ensures blocks == SceneBlocks(html)
  {
    blocks := ExecLoop(SceneText(html), ElementAt, PieceBlocks);
  }

  /** A theatre "stage-direction" line is no known class, so it is exported as action. */
  lemma {:induction false} StageDirectionIsAction()
    ensures ClassType("stage-direction") == Action
  {
    var v := "stage-direction";
    assert !IsWs(v[0]);
    assert SkipWs(v, 0) == 0;
    assert WordEnd(v, 0) == |v|;
    assert v[0..|v|] == v;
    assert Words(v[|v|..]) == [];
    assert Words(v) == [v];
  }

  /** Classes are looked at in attribute order: the first known one decides. */
  lemma {:induction false} FirstClassDecides(before: seq<string>, c: string, after: seq<string>)
    requires forall i :: 0 <= i < |before| ==> KnownClass(before[i]).None?
    requires KnownClass(c).Some?
    ensures FirstKnown(before + [c] + after) == KnownClass(c)
  {
    var ws := before + [c] + after;
    if before == [] {
      assert ws[0] == c;
    } else {
      assert ws[0] == before[0];
      assert ws[1..] == before[1..] + [c] + after;
      FirstClassDecides(before[1..], c, after);
    }
  }

  // ---------------------------------------------------------------- layout

  /** `rel` of `renderSceneBlocks`: the centred column widths as fractions of the content width. */
  function ColumnWidth(kind: BlockType): real {
    match kind
    case Character => WIDTH * 300.0 / 700.0
    case Dialogue => WIDTH * 400.0 / 700.0
    case Parenthetical => WIDTH * 360.0 / 700.0
    case _ => WIDTH
  }

  /** `center(w)`: the left edge of a column of width `w` centred in the content area. */
  function Center(w: real): real {
    LEFT + (WIDTH - w) / 2.0
  }

  /** The drawing of one block: the table of `renderSceneBlocks`. */
  function LayoutBlock(b: Block): seq<Cmd> {
    match b.kind
    case SceneHeading => [Line(ToUpper(b.text), LEFT, WIDTH, AlignLeft, "Mono-Bold", 12.0), MoveDown(0.4)]
    case Character =>
      var w := ColumnWidth(Character);
      [Line(ToUpper(b.text), Center(w), w, AlignCenter, "Mono-Bold", 12.0), MoveDown(0.2)]
    case Dialogue =>
      var w := ColumnWidth(Dialogue);
      [Line(b.text, Center(w), w, AlignLeft, "Mono", 12.0), MoveDown(0.2)]
    case Parenthetical =>
      var w := ColumnWidth(Parenthetical);
      [Line("(" + b.text + ")", Center(w), w, AlignLeft, "Mono-Oblique", 12.0), MoveDown(0.2)]
    case Transition => [Line(ToUpper(b.text), LEFT, WIDTH, AlignRight, "Mono-Bold", 12.0), MoveDown(0.2)]
    case SceneGap => [MoveDown(0.8)]
    case Action => [Line(b.text, LEFT, WIDTH, AlignLeft, "Mono", 12.0), MoveDown(0.2)]
  }

  function LayoutBlocks(bs: seq<Block>): seq<Cmd> {
    if bs == [] then [] else LayoutBlock(bs[0]) + LayoutBlocks(bs[1..])
  }

  /** `renderSceneBlocks`: gaps inserted, blocks parsed, each block laid out. */
  function RenderScene(html: string): seq<Cmd> {
    LayoutBlocks(SceneBlocks(InsertSceneGaps(html)))
  }

  /** Every block's text sits inside the content area, and a centred column has equal slack on both sides. */
  lemma {:induction false} LayoutGeometry(b: Block)
    requires b.kind != SceneGap
    ensures LayoutBlock(b)[0].Text?
    ensures var c := LayoutBlock(b)[0];
      && LEFT <= c.x && c.x + c.width <= LEFT + WIDTH
      && c.x - LEFT == (LEFT + WIDTH) - (c.x + c.width)
      && c.width == ColumnWidth(b.kind)
  {
  }

  /** Headings, character cues and transitions are upper-cased; dialogue and action keep their case. */
  lemma {:induction false} LayoutCasing(b: Block)
    requires b.kind != SceneGap
    ensures b.kind in {SceneHeading, Character, Transition} ==> LayoutBlock(b)[0].text == ToUpper(b.text)
    ensures b.kind in {Dialogue, Action} ==> LayoutBlock(b)[0].text == b.text
    ensures b.kind == Parenthetical ==> LayoutBlock(b)[0].text == "(" + b.text + ")"
  {
  }

  /** The parentheses the editor seeds a parenthetical with are kept, so the PDF shows them doubled. */
  lemma {:induction false} ParentheticalDoubled(x: string)
    ensures LayoutBlock(Block(Parenthetical, "(" + x + ")"))[0].text == "((" + x + "))"
  {
  }

  /** The faces of the table: bold for headings, cues and transitions, oblique for parentheticals. */
  lemma {:induction false} LayoutFaces(b: Block)
    requires b.kind != SceneGap
    ensures LayoutBlock(b)[0].font == (if b.kind in {SceneHeading, Character, Transition} then "Mono-Bold"
                                      else if b.kind == Parenthetical then "Mono-Oblique" else "Mono")
    ensures LayoutBlock(b)[0].align == (if b.kind == Character then AlignCenter
                                       else if b.kind == Transition then AlignRight else AlignLeft)
  {
  }
}
