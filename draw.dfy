/**
 * What the exporter asks pdfkit to draw, as a sequence of commands. Text
 * measurement, line wrapping and the moving cursor stay with pdfkit; the
 * model keeps the decisions made before it: which text, where, how wide,
 * aligned how, in which face and size.
 */
module Draw {
  datatype Align = AlignLeft | AlignCenter | AlignRight

  datatype Cmd =
    | Text(text: string, x: real, width: real, align: Align, font: string, size: real, underline: bool, continued: bool)
      // A continued run with no width of its own: the list marker of `renderList`.
    | Run(text: string, x: real, font: string, size: real)
      // `doc.text('', { continued: false })`: ends a run of continued text.
    | EndLine
      // `doc.font(f).fontSize(s)` with nothing drawn.
    | SetFont(font: string, size: real)
    | MoveDown(lines: real)
      // A filled colour bar across the content width (`rect(x, y, w, 6)`).
    | Bar(color: string)
      // The thin grey rule under a timeline group.
    | Rule
    | NewPage

  /** The page of src/backend/exporter.js:936-941: 675 x 841.5 points, margins 54/54/66/66. */
  const PAGE_WIDTH: real := 675.0
  const PAGE_HEIGHT: real := 841.5
  const MARGIN_LEFT: real := 66.0
  const MARGIN_RIGHT: real := 66.0

  /** `doc.page.margins.left` and `doc.page.width - left - right`. */
  const LEFT: real := MARGIN_LEFT
  const WIDTH: real := PAGE_WIDTH - MARGIN_LEFT - MARGIN_RIGHT

  /** A plain left-aligned, non-underlined, finished line of text. */
  function Line(text: string, x: real, width: real, align: Align, font: string, size: real): Cmd {
    Text(text, x, width, align, font, size, false, false)
  }

  /** The characters the text commands print, in order. */
  function Printed(cmds: seq<Cmd>): string {
    if cmds == [] then []
    else (if cmds[0].Text? || cmds[0].Run? then cmds[0].text else []) + Printed(cmds[1..])
  }

  lemma {:induction false} PrintedAppend(a: seq<Cmd>, b: seq<Cmd>)
    ensures Printed(a + b) == Printed(a) + Printed(b)
  {
    if a == [] {
      assert a + b == b;
    } else {
      assert (a + b)[0] == a[0];
      assert (a + b)[1..] == a[1..] + b;
      PrintedAppend(a[1..], b);
    }
  }
}
