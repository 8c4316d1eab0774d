/**
 * List conversion of the book editor (src/frontend/editor.js):
 * `normalizeListsForSave` turns text lines that start with a bullet or a
 * number into `<ul>`/`<ol>` lists before a page is stored, and
 * `restoreListsForEditor` turns `<div>` lines with textual bullets back
 * into list items when a page is loaded.
 */
module ListConvert {
  import opened Wrappers
  import opened Strings
  import opened Scan
  import opened Markup

  const BULLET: char := '\U{2022}'
  const EN_DASH: char := '\U{2013}'
  const WHITE_BULLET: char := '\U{25E6}'

  // ---------------------------------------------------------------- line classification

  /** The bullets of `(?:•|-|\*|–)`. */
  predicate IsBulletChar(c: char) {
    c == BULLET || c == '-' || c == '*' || c == EN_DASH
  }

  /** `\d{1,5}[.)]` at `from`: one to five digits and a '.' or ')'; the index past it. */
  function NumberEnd(t: string, from: nat): (r: Option<nat>)
    requires from <= |t|
    ensures r.Some? ==> from + 2 <= r.value <= |t|
  {
    var d := SkipDigits(t, from);
    if 1 <= d - from <= 5 && d < |t| && (t[d] == '.' || t[d] == ')') then Some(d + 1) else None
  }

  /** `/^(\d{1,5})[.)]\s+/.test(text)`. */
  predicate IsNumbered(text: string) {
    match NumberEnd(text, 0)
    case Some(j) => j < |text| && IsWs(text[j])
    case None => false
  }

  /** `/^(?:•|-|\*|–)\s+/.test(text)`. */
  predicate IsBullet(text: string) {
    |text| >= 2 && IsBulletChar(text[0]) && IsWs(text[1])
  }

  /** What a line is: an item of a numbered list, of a bullet list, or plain text. */
  datatype Kind = Plain | Item(ordered: bool)

  /** The line's kind, read from its text with the tags stripped; a number wins over a bullet. */
  function KindOf(line: string): Kind {
    var text := Trim(StripTags(line));
    if IsNumbered(text) then Item(true) else if IsBullet(text) then Item(false) else Plain
  }

  /** `line.replace(/^\s*(?:•|-|\*|–|\d{1,5}[.)])\s*\/, '').trim()`: the marker taken off the raw line. */
  function Clean(line: string): string {
    var i := SkipWs(line, 0);
    var j := if i < |line| && IsBulletChar(line[i]) then Some(i + 1) else NumberEnd(line, i);
    match j
    case None => Trim(line)
    case Some(j) => Trim(line[SkipWs(line, j)..])
  }

  /**
   * The marker pattern is anchored at the raw line, so a line that starts
   * with a tag (`<div>- a`) loses no marker: it is only trimmed.
   */
  lemma {:induction false} TagLedLineKeepsMarker(line: string)
    requires |line| > 0 && line[0] == '<'
    ensures Clean(line) == Trim(line)
  {
    assert SkipWs(line, 0) == 0;
    assert !IsBulletChar(line[0]);
    assert SkipDigits(line, 0) == 0;
  }

  /** `line.replace(/^<div[^>]*>|<\/div>$/g, '').trim()`. */
  function CleanText(line: string): string {
    var start :=
      if StartsWith(line, "<div") then
        match FindChar(line, '>', 4)
        case Some(j) => j + 1
        case None => 0
      else 0;
    var end := if EndsWith(line, "</div>") && start <= |line| - 6 then |line| - 6 else |line|;
    Trim(line[start..end])
  }

  function OpenTag(ordered: bool): string { if ordered then "<ol>" else "<ul>" }

  function CloseTag(ordered: bool): string { if ordered then "</ol>" else "</ul>" }

  /** `<name>text</name>`. */
  function Wrapped(name: string, text: string): string { "<" + name + ">" + text + "</" + name + ">" }

  /** The closing tag of the open list, if one is open. */
  function CloseIf(open: Option<bool>): seq<string> {
    if open.Some? then [CloseTag(open.value)] else []
  }

  // ---------------------------------------------------------------- the save conversion

  /** The loop state: the kind of the open list (`inList`, `isOrdered`), and the entries so far. */
  datatype State = State(open: Option<bool>, out: seq<string>)

  /** How the loop reads a line: its kind, its item text and its paragraph text. */
  datatype Reader = Reader(kind: string -> Kind, item: string -> string, para: string -> string)

  /** The reading of `normalizeListsForSave`. */
  function SaveReader(): Reader {
    Reader(KindOf, Clean, CleanText)
  }

  /** The entries one line adds, given the list open before it. */
  function Chunk(rd: Reader, open: Option<bool>, line: string): seq<string> {
    ChunkFor(open, rd.kind(line), rd.item(line), rd.para(line))
  }

  /**
   * The entries a line of the kind adds: a list item, after closing a list
   * of the other kind and opening its own; or a paragraph of the cleaned
   * text when that is not empty, after closing the open list.
   */
  function ChunkFor(open: Option<bool>, kind: Kind, item: string, para: string): seq<string> {
    match kind
    case Item(b) =>
      (if open == Some(b) then [] else CloseIf(open) + [OpenTag(b)]) + [Wrapped("li", item)]
    case Plain =>
      CloseIf(open) + (if para != "" then [Wrapped("p", para)] else [])
  }

  function NextFor(kind: Kind): Option<bool> {
    match kind
    case Item(b) => Some(b)
    case Plain => None
  }

  /** The state after the lines, one line at a time. */
  function Run(lines: seq<string>, rd: Reader): State {
    if lines == [] then State(None, [])
    else
      var n := |lines| - 1;
      var st := Run(lines[..n], rd);
      State(NextFor(rd.kind(lines[n])), st.out + Chunk(rd, st.open, lines[n]))
  }

  /** All entries, the last list closed. */
  function Entries(lines: seq<string>, rd: Reader): seq<string> {
    var st := Run(lines, rd);
    st.out + CloseIf(st.open)
  }

  /** `/<\/div>|<\/p>/i`. */
  function BlockEndAt(t: string): Option<Hit<string>> {
    if AtI(t, 0, "</div>") then Some(Hit(6, "")) else if AtI(t, 0, "</p>") then Some(Hit(4, "")) else None
  }

  /** The pieces between separators whose trimmed text is not empty. */
  function KeptGaps(ps: seq<Piece<string>>): (r: seq<string>)
    ensures forall k :: 0 <= k < |r| ==> Trim(r[k]) != ""
  {
    if ps == [] then []
    else (if ps[0].Gap? && Trim(ps[0].text) != "" then [ps[0].text] else []) + KeptGaps(ps[1..])
  }

  /** `split(/<\/div>|<\/p>/i).filter(l => l.trim())`. */
  function SaveLines(html: string): seq<string> {
    KeptGaps(Pieces(html, BlockEndAt))
  }

  /** `tmp.querySelector('ul, ol')`, read on the markup: a `<ul` or `<ol` tag name in any case. */
  predicate HasList(html: string) {
    exists k :: 0 <= k < |html| && ListTagAt(html, k)
  }

  predicate ListTagAt(html: string, k: nat) {
    (AtI(html, k, "<ul") || AtI(html, k, "<ol")) &&
    (k + 3 == |html| || html[k + 3] == '>' || html[k + 3] == '/' || IsWs(html[k + 3]))
  }

  /** `normalizeListsForSave(html)`. */
  function ListsForSave(html: string): string {
    if html == "" then ""
    else if HasList(html) then html
    else Trim(NbspToSpace(Join(Entries(SaveLines(html), SaveReader()), "\n")))
  }

  /** `normalizeListsForSave` (src/frontend/editor.js:642-693). */
  method NormalizeListsForSave(html: string) returns (r: string)
    ensures r == ListsForSave(html)
  {
    if html == "" {
      return "";
    }
    if HasList(html) {
      return html;
    }
    var out := ConvertLines(SaveLines(html), SaveReader());
    r := Trim(NbspToSpace(Join(out, "\n")));
  }

  /** The `for (let line of lines)` loop and the final close (src/frontend/editor.js:654-689). */
  method ConvertLines(lines: seq<string>, rd: Reader) returns (out: seq<string>)
    ensures out == Entries(lines, rd)
  {
    out := [];
    var inList, isOrdered := false, false;
    for i := 0 to |lines|
      invariant Run(lines[..i], rd) == State(if inList then Some(isOrdered) else None, out)
    {
      var line := lines[i];
      RunSnoc(lines, i, rd);
      inList, isOrdered, out := ConvertLine(inList, isOrdered, out, rd.kind(line), rd.item(line), rd.para(line));
    }
    assert lines[..|lines|] == lines;
    if inList {
      out := out + [CloseTag(isOrdered)];
    }
  }

  /** The body of the loop: what one line of the given kind adds, and the list left open after it. */
  method ConvertLine(inList: bool, isOrdered: bool, out: seq<string>, kind: Kind, item: string, para: string)
    returns (inList': bool, isOrdered': bool, out': seq<string>)
    ensures State(if inList' then Some(isOrdered') else None, out')
      == State(NextFor(kind), out + ChunkFor(if inList then Some(isOrdered) else None, kind, item, para))
  {
    inList', isOrdered', out' := inList, isOrdered, out;
    if kind.Item? {
      if !inList' || isOrdered' != kind.ordered {
        if inList' {
          out' := out' + [CloseTag(isOrdered')];
        }
        out' := out' + [OpenTag(kind.ordered)];
        inList' := true;
        isOrdered' := kind.ordered;
      }
      out' := out' + [Wrapped("li", item)];
    } else {
      if inList' {
        out' := out' + [CloseTag(isOrdered')];
        inList' := false;
      }
      if para != "" {
        out' := out' + [Wrapped("p", para)];
      }
    }
  }

  /** `Run` on one more line. */
  lemma {:induction false} RunSnoc(lines: seq<string>, i: nat, rd: Reader)
    requires i < |lines|
    ensures var st := Run(lines[..i], rd);
      Run(lines[..i + 1], rd) == State(NextFor(rd.kind(lines[i])), st.out + Chunk(rd, st.open, lines[i]))
  {
    assert lines[..i + 1][..i] == lines[..i];
  }

  // ---------------------------------------------------------------- properties of the save conversion

  /** Markup that already holds a list, and empty markup, pass through. */
  lemma {:induction false} SaveKeepsLists(html: string)
    ensures html == "" ==> ListsForSave(html) == ""
    ensures HasList(html) ==> ListsForSave(html) == html
  {
  }

  /** A converted page is trimmed and has no non-breaking space left. */
  lemma {:induction false} SaveConvertedClean(html: string)
    requires html != "" && !HasList(html)
    ensures Trim(ListsForSave(html)) == ListsForSave(html)
    ensures forall i :: 0 <= i < |ListsForSave(html)| ==> ListsForSave(html)[i] != NBSP
  {
    var n := NbspToSpace(Join(Entries(SaveLines(html), SaveReader()), "\n"));
    TrimIdempotent(n);
    TrimKeepsAbsent(n, NBSP);
  }

  /**
   * The list nesting the entries leave behind: the kind of the open list,
   * or None when an entry is out of place (an item outside a list, a
   * paragraph inside one, a list opened inside a list, a close that does
   * not match the open list).
   */
  function Nest(es: seq<string>): Option<Option<bool>> {
    if es == [] then Some(None)
    else
      var n := |es| - 1;
      match Nest(es[..n])
      case None => None
      case Some(o) => NestNext(o, es[n])
  }

  function NestNext(o: Option<bool>, e: string): Option<Option<bool>> {
    if e == "<ul>" || e == "<ol>" then (if o.None? then Some(Some(e == "<ol>")) else None)
    else if e == "</ul>" || e == "</ol>" then (if o == Some(e == "</ol>") then Some(None) else None)
    else if StartsWith(e, "<li>") then (if o.Some? then Some(o) else None)
    else if o.None? then Some(None) else None
  }

  /** Opens and closes alternate with matching kinds, items sit inside lists, and nothing is left open. */
  predicate Balanced(es: seq<string>) {
    Nest(es) == Some(None)
  }

  lemma {:induction false} NestSnoc(a: seq<string>, e: string)
    ensures Nest(a + [e]) == match Nest(a) case None => None case Some(o) => NestNext(o, e)
  {
    assert (a + [e])[..|a|] == a;
  }

  lemma {:induction false} NestTags(b: bool)
    ensures NestNext(None, OpenTag(b)) == Some(Some(b))
    ensures NestNext(Some(b), CloseTag(b)) == Some(None)
  {
  }

  lemma {:induction false} NestItem(o: Option<bool>, c: string)
    requires o.Some?
    ensures NestNext(o, Wrapped("li", c)) == Some(o)
  {
    var it := Wrapped("li", c);
    assert it[..4] == "<li>";
    assert it[1] == 'l';
  }

  lemma {:induction false} NestPara(c: string)
    ensures NestNext(None, Wrapped("p", c)) == Some(None)
  {
    var p := Wrapped("p", c);
    assert p[1] == 'p';
    assert |p| >= 7;
  }

  /** One line's entries, placed after entries that leave `open` open, leave the next state's list open. */
  lemma {:induction false} ChunkNests(out: seq<string>, open: Option<bool>, kind: Kind, item: string, para: string)
    requires Nest(out) == Some(open)
    ensures Nest(out + ChunkFor(open, kind, item, para)) == Some(NextFor(kind))
  {
    var c := CloseIf(open);
    if open.Some? {
      NestTags(open.value);
      NestSnoc(out, CloseTag(open.value));
    } else {
      assert out + c == out;
    }
    assert Nest(out + c) == Some(None);
    match kind
    case Item(b) =>
      if open == Some(b) {
        NestItem(open, item);
        NestSnoc(out, Wrapped("li", item));
      } else {
        NestTags(b);
        NestSnoc(out + c, OpenTag(b));
        NestItem(Some(b), item);
        NestSnoc(out + c + [OpenTag(b)], Wrapped("li", item));
        assert out + ChunkFor(open, kind, item, para) == out + c + [OpenTag(b)] + [Wrapped("li", item)];
      }
    case Plain =>
      if para != "" {
        NestPara(para);
        NestSnoc(out + c, Wrapped("p", para));
        assert out + ChunkFor(open, kind, item, para) == out + c + [Wrapped("p", para)];
      } else {
        assert out + ChunkFor(open, kind, item, para) == out + c;
      }
  }

  /** The entries of the lines so far are well placed and leave open the list the state records. */
  lemma {:induction false} RunNests(lines: seq<string>, rd: Reader)
    ensures Nest(Run(lines, rd).out) == Some(Run(lines, rd).open)
  {
    if lines != [] {
      var n := |lines| - 1;
      var line := lines[n];
      var st := Run(lines[..n], rd);
      RunNests(lines[..n], rd);
      ChunkNests(st.out, st.open, rd.kind(line), rd.item(line), rd.para(line));
    }
  }

  /** The entries of a conversion are balanced. */
  lemma {:induction false} EntriesBalanced(lines: seq<string>, rd: Reader)
    ensures Balanced(Entries(lines, rd))
  {
    var st := Run(lines, rd);
    RunNests(lines, rd);
    if st.open.Some? {
      NestTags(st.open.value);
      NestSnoc(st.out, CloseTag(st.open.value));
    } else {
      assert Entries(lines, rd) == st.out;
    }
  }

  /** A list is open exactly after a list line, and it is of that line's kind. */
  lemma {:induction false} RunOpen(lines: seq<string>, rd: Reader)
    requires lines != []
    ensures Run(lines, rd).open == match rd.kind(lines[|lines| - 1]) case Item(b) => Some(b) case Plain => None
  {
  }

  /** A list line after one of the same kind adds only its item: the two share one list. */
  lemma {:induction false} SameKindShares(lines: seq<string>, rd: Reader, i: nat)
    requires i + 1 < |lines| && rd.kind(lines[i]).Item? && rd.kind(lines[i + 1]) == rd.kind(lines[i])
    ensures Run(lines[..i + 2], rd).out == Run(lines[..i + 1], rd).out + [Wrapped("li", rd.item(lines[i + 1]))]
  {
    assert lines[..i + 2][..i + 1] == lines[..i + 1];
    assert lines[..i + 1][i] == lines[i];
    RunOpen(lines[..i + 1], rd);
  }

  /** A list line after a plain line, or after a line of the other kind, closes the open list and opens its own. */
  lemma {:induction false} KindChangeOpens(lines: seq<string>, rd: Reader, i: nat)
    requires i < |lines| && rd.kind(lines[i]).Item?
    requires i == 0 || rd.kind(lines[i - 1]) != rd.kind(lines[i])
    ensures Run(lines[..i + 1], rd).out ==
      Run(lines[..i], rd).out + CloseIf(Run(lines[..i], rd).open) +
      [OpenTag(rd.kind(lines[i]).ordered), Wrapped("li", rd.item(lines[i]))]
  {
    assert lines[..i + 1][..i] == lines[..i];
    if i > 0 {
      assert lines[..i][i - 1] == lines[i - 1];
      RunOpen(lines[..i], rd);
    }
  }

  // ---------------------------------------------------------------- the load conversion

  /** `/<div>(\s*•|\s*◦|\s*-\s*|\s*\*\s*|\s*\d+\.)\s*\/` becomes `<li>`. */
  function DivMarkerAt(t: string): Option<Hit<string>> {
    if !StartsWith(t, "<div>") then None
    else
      var i := SkipWs(t, 5);
      var j: Option<nat> :=
        if i < |t| && (t[i] == BULLET || t[i] == WHITE_BULLET) then Some(i + 1)
        else if i < |t| && (t[i] == '-' || t[i] == '*') then Some(SkipWs(t, i + 1))
        else
          var d := SkipDigits(t, i);
          if d > i && d < |t| && t[d] == '.' then Some(d + 1) else None;
      match j
      case None => None
      case Some(j) => Some(Hit(SkipWs(t, j), "<li>"))
  }

  /** `a\s*b` becomes `rep`. */
  function WsBetween(a: string, b: string, rep: string): Matcher<string> {
    (t: string) =>
      if |a| == 0 || !StartsWith(t, a) then None
      else
        var w := SkipWs(t, |a|);
        if StartsWith(t[w..], b) then Some(Hit(w + |b|, rep)) else None
  }

  /** The first index at or after `from` where `lit` occurs. */
  function FindLit(t: string, lit: string, from: nat): (r: Option<nat>)
    requires from <= |t|
    ensures r.Some? ==> from <= r.value <= |t| - |lit| && StartsWith(t[r.value..], lit)
    decreases |t| - from
  {
    if from + |lit| > |t| then None
    else if StartsWith(t[from..], lit) then Some(from)
    else FindLit(t, lit, from + 1)
  }

  /** `/(<li>[\s\S]*?<\/li>)/` becomes `<ul>$1</ul>`: an item up to the first close after it, wrapped. */
  function ItemToListAt(t: string): Option<Hit<string>> {
    if !StartsWith(t, "<li>") then None
    else
      match FindLit(t, "</li>", 4)
      case None => None
      case Some(k) => Some(Hit(k + 5, "<ul>" + t[..k + 5] + "</ul>"))
  }

  /** `/<ul|<ol/i.test(html)`. */
  predicate HasListI(html: string) {
    exists k :: 0 <= k < |html| && (AtI(html, k, "<ul") || AtI(html, k, "<ol"))
  }

  /** `restoreListsForEditor(html)` (src/frontend/editor.js:697-715). */
  function RestoreListsForEditor(html: string): string {
    if html == "" then ""
    else if HasListI(html) then html
    else
      var a := ReplaceAll(html, DivMarkerAt);
      var b := ReplaceAll(a, Lit("</div>", "</li>"));
      var c := ReplaceAll(b, WsBetween("</li>", "<li>", "</li><li>"));
      var d := ReplaceAll(c, WsBetween("</li>", "</li>", "</li>"));
      var e := ReplaceAll(d, ItemToListAt);
      var f := ReplaceAll(e, WsBetween("</ul>", "<ul>", ""));
      var g := ReplaceAll(f, WsBetween("</ul>", "</ul>", "</ul>"));
      ReplaceAll(g, WsBetween("</ol>", "</ol>", "</ol>"))
  }

  /** Empty markup stays empty, and markup with a list in any letter case is left as it is. */
  lemma {:induction false} RestoreKeepsLists(html: string)
    ensures html == "" ==> RestoreListsForEditor(html) == ""
    ensures HasListI(html) ==> RestoreListsForEditor(html) == html
  {
  }

  lemma {:induction false} RestoreMatchersLtOnly()
    ensures LtOnly(DivMarkerAt) && LtOnly(Lit("</div>", "</li>")) && LtOnly(ItemToListAt)
    ensures forall a, b, rep :: |a| > 0 && a[0] == '<' ==> LtOnly(WsBetween(a, b, rep))
  {
    forall t: string | DivMarkerAt(t).Some? && |t| > 0 ensures t[0] == '<' {
      assert t[..5] == "<div>";
    }
    forall t: string | Lit("</div>", "</li>")(t).Some? && |t| > 0 ensures t[0] == '<' {
      assert t[..6] == "</div>";
    }
    forall t: string | ItemToListAt(t).Some? && |t| > 0 ensures t[0] == '<' {
      assert t[..4] == "<li>";
    }
    forall a: string, b: string, rep: string | |a| > 0 && a[0] == '<' ensures LtOnly(WsBetween(a, b, rep)) {
      forall t: string | WsBetween(a, b, rep)(t).Some? && |t| > 0 ensures t[0] == '<' {
        assert t[..|a|] == a;
      }
    }
  }

  /** Text without any markup comes back from the load conversion unchanged. */
  lemma {:induction false} RestoreWithoutTags(html: string)
    requires forall i :: 0 <= i < |html| ==> html[i] != '<'
    ensures RestoreListsForEditor(html) == html
  {
    if html != "" && !HasListI(html) {
      RestoreMatchersLtOnly();
      NoLtUntouched(html, DivMarkerAt);
      NoLtUntouched(html, Lit("</div>", "</li>"));
      NoLtUntouched(html, WsBetween("</li>", "<li>", "</li><li>"));
      NoLtUntouched(html, WsBetween("</li>", "</li>", "</li>"));
      NoLtUntouched(html, ItemToListAt);
      NoLtUntouched(html, WsBetween("</ul>", "<ul>", ""));
      NoLtUntouched(html, WsBetween("</ul>", "</ul>", "</ul>"));
      NoLtUntouched(html, WsBetween("</ol>", "</ol>", "</ol>"));
    }
  }
}
