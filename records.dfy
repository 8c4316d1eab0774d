/**
 * The formatters that turn a structured section (characters, beats, bible
 * sections, timeline events) into plain text lines, and the routing of
 * `jsonSectionToText` (src/backend/exporter.js:648-829). Each formatter
 * parses the section, gives up with '' on a parse failure, a non-array or
 * an empty array, pushes one block of lines per record and joins the lines
 * with line breaks. Reading a property of a `null` record throws, which
 * aborts the export: the model returns `Err`.
 */
module Records {
  import opened Wrappers
  import opened Strings
  import opened Json
  import opened Sorting
  import Labels

  // ---------------------------------------------------------------- lines kept in order

  /** The lines `g` produces for the elements it does not skip, in order. */
  function Keep<T>(xs: seq<T>, g: T -> Option<string>): seq<string> {
    if xs == [] then []
    else Keep(xs[..|xs| - 1], g) + (if g(xs[|xs| - 1]).Some? then [g(xs[|xs| - 1]).value] else [])
  }

  /** The indices of the elements `g` does not skip. */
  function KeptIndices<T>(xs: seq<T>, g: T -> Option<string>): seq<nat> {
    if xs == [] then []
    else KeptIndices(xs[..|xs| - 1], g) + (if g(xs[|xs| - 1]).Some? then [|xs| - 1] else [])
  }

  /**
   * `Keep` yields exactly one line per element that produces one, in
   * element order: its k-th line comes from the k-th such element.
   */
  lemma {:induction false} KeepMeaning<T>(xs: seq<T>, g: T -> Option<string>)
    ensures var ks := KeptIndices(xs, g);
      && |Keep(xs, g)| == |ks|
      && (forall k :: 0 <= k < |ks| ==> ks[k] < |xs| && g(xs[ks[k]]).Some? && Keep(xs, g)[k] == g(xs[ks[k]]).value)
      && (forall k1, k2 :: 0 <= k1 < k2 < |ks| ==> ks[k1] < ks[k2])
      && (forall j :: 0 <= j < |xs| && g(xs[j]).Some? ==> j in ks)
  {
    if xs != [] {
      var init := xs[..|xs| - 1];
      KeepMeaning(init, g);
      var ks0 := KeptIndices(init, g);
      forall j | 0 <= j < |xs| && g(xs[j]).Some? ensures j in KeptIndices(xs, g) {
        if j < |init| {
          assert init[j] == xs[j];
        }
      }
      forall k | 0 <= k < |ks0| ensures init[ks0[k]] == xs[ks0[k]] { }
    }
  }

  // ---------------------------------------------------------------- one block per record

  /** The lines of a `Result`, or none for an error. */
  function LinesOf(r: Result<seq<string>>): seq<string> {
    if r.Ok? then r.value else []
  }

  function Concat(ls: seq<seq<string>>): seq<string> {
    if ls == [] then [] else Concat(ls[..|ls| - 1]) + ls[|ls| - 1]
  }

  /** Each record's lines, in order. */
  function BlockLines<T>(xs: seq<T>, block: (T, nat) -> Result<seq<string>>): (r: seq<seq<string>>)
    ensures |r| == |xs| && forall i :: 0 <= i < |xs| ==> r[i] == LinesOf(block(xs[i], i))
  {
    seq(|xs|, i requires 0 <= i < |xs| => LinesOf(block(xs[i], i)))
  }

  /** The blocks of all records, in order; the first record whose block throws aborts. */
  function Blocks<T>(xs: seq<T>, block: (T, nat) -> Result<seq<string>>): Result<seq<string>> {
    if xs == [] then Ok([])
    else
      var init := Blocks(xs[..|xs| - 1], block);
      if init.Err? then init
      else
        var last := block(xs[|xs| - 1], |xs| - 1);
        if last.Err? then Err(last.msg) else Ok(init.value + last.value)
  }

  /**
   * The blocks succeed exactly when every record's block does, and then
   * the lines are the records' blocks laid end to end in array order.
   */
  lemma {:induction false} BlocksMeaning<T>(xs: seq<T>, block: (T, nat) -> Result<seq<string>>)
    ensures Blocks(xs, block).Ok? <==> forall i :: 0 <= i < |xs| ==> block(xs[i], i).Ok?
    ensures Blocks(xs, block).Ok? ==>
      Blocks(xs, block).value == Concat(BlockLines(xs, block))
  {
    if xs != [] {
      var init := xs[..|xs| - 1];
      BlocksMeaning(init, block);
      assert BlockLines(xs, block)[..|xs| - 1] == BlockLines(init, block);
      if !block(xs[|xs| - 1], |xs| - 1).Ok? {
        assert !(forall i :: 0 <= i < |xs| ==> block(xs[i], i).Ok?);
      }
      if Blocks(init, block).Err? {
        var i :| 0 <= i < |init| && !block(init[i], i).Ok?;
        assert xs[i] == init[i];
      }
    }
  }

  /** The `forEach` that pushes each record's block, aborting on the first error. */
  method PushBlocks<T>(xs: seq<T>, block: (T, nat) -> Result<seq<string>>) returns (r: Result<seq<string>>)
    ensures r == Blocks(xs, block)
  {
    var lines: seq<string> := [];
    var i := 0;
    while i < |xs|
      invariant 0 <= i <= |xs|
      invariant Blocks(xs[..i], block) == Ok(lines)
    {
      assert xs[..i + 1][..i] == xs[..i];
      var b := block(xs[i], i);
      if b.Err? {
        BlocksErr(xs, block, i + 1);
        return Err(b.msg);
      }
      lines := lines + b.value;
      i := i + 1;
    }
    assert xs[..i] == xs;
    r := Ok(lines);
  }

  /** Once a prefix of the records fails, so do all of them. */
  lemma {:induction false} BlocksErr<T>(xs: seq<T>, block: (T, nat) -> Result<seq<string>>, n: nat)
    requires n <= |xs| && Blocks(xs[..n], block).Err?
    ensures Blocks(xs, block) == Err(Blocks(xs[..n], block).msg)
    decreases |xs| - n
  {
    if n < |xs| {
      assert xs[..n + 1][..n] == xs[..n];
      BlocksErr(xs, block, n + 1);
    } else {
      assert xs[..n] == xs;
    }
  }

  /** `arr.length` of a parsed section that is a non-empty array, or `None` for the '' cases. */
  function RecordsOf(parsed: Option<Json>): Option<seq<Json>> {
    if parsed.Some? && parsed.value.JArr? && parsed.value.items != [] then Some(parsed.value.items) else None
  }

  /** The text of a formatter: '' on the early returns, else its lines joined by line breaks. */
  function Text(parsed: Option<Json>, block: (Json, nat) -> Result<seq<string>>): Result<string> {
    var recs := RecordsOf(parsed);
    if recs.None? then Ok("")
    else
      var ls := Blocks(recs.value, block);
      if ls.Err? then Err(ls.msg) else Ok(Join(ls.value, "\n"))
  }

  /** A formatter's text exists exactly when every record's block does; it is then their lines in order, joined. */
  lemma {:induction false} TextMeaning(parsed: Option<Json>, block: (Json, nat) -> Result<seq<string>>)
    requires RecordsOf(parsed).Some?
    ensures var arr := RecordsOf(parsed).value;
      Text(parsed, block).Ok? <==> forall i :: 0 <= i < |arr| ==> block(arr[i], i).Ok?
    ensures var arr := RecordsOf(parsed).value;
      Text(parsed, block).Ok? ==>
        Text(parsed, block).value == Join(Concat(BlockLines(arr, block)), "\n")
  {
    var arr := RecordsOf(parsed).value;
    BlocksMeaning(arr, block);
    var ls := Blocks(arr, block);
    assert Text(parsed, block) == if ls.Err? then Err(ls.msg) else Ok(Join(ls.value, "\n"));
  }

  method FormatWith(parsed: Option<Json>, block: (Json, nat) -> Result<seq<string>>) returns (r: Result<string>)
    ensures r == Text(parsed, block)
  {
    var recs := RecordsOf(parsed);
    if recs.None? {
      return Ok("");
    }
    var ls := PushBlocks(recs.value, block);
    if ls.Err? {
      return Err(ls.msg);
    }
    r := Ok(Join(ls.value, "\n"));
  }

  // ---------------------------------------------------------------- labelled field lines

  /** `${f.key}`: a label, written "undefined" when the label set lacks it. */
  function Label(f: map<string, string>, key: string): string {
    if key in f then f[key] else "undefined"
  }

  /** `f.key` as a value: missing labels are `undefined`. */
  function LabelValue(f: map<string, string>, key: string): Value {
    if key in f then Some(JStr(f[key])) else None
  }

  /** A field of a record and what separates its label from its value. */
  datatype FieldSpec = FieldSpec(key: string, sep: string)

  /** The block header "\n=== <header> <i+1> ===". */
  function Header(header: string, i: nat): string {
    "\n=== " + header + " " + NatToString(i + 1) + " ==="
  }

  /** `Array.isArray(rec.customFields) ? rec.customFields : []`. */
  function CustomFields(rec: Json): seq<Json> {
    ArrayItems(OptProp(Some(rec), "customFields"))
  }

  /** `safe(cf?.title || f.custom).toUpperCase()`. */
  function CustomTitle(cf: Json, f: map<string, string>): string {
    ToUpper(Safe(Or(OptProp(Some(cf), "title"), LabelValue(f, "custom"))))
  }

  // ---------------------------------------------------------------- characters

  const CHARACTER_FIELDS: seq<FieldSpec> := [
    FieldSpec("name", ": "), FieldSpec("role", ": "), FieldSpec("ageAppearance", ": "),
    FieldSpec("background", ":\n"), FieldSpec("goal", ":\n"), FieldSpec("conflict", ":\n"),
    FieldSpec("arc", ":\n"), FieldSpec("relationships", ":\n"), FieldSpec("traits", ":\n"),
    FieldSpec("quote", ": "), FieldSpec("notes", ":\n")]

  /** A character's field line, pushed when the field is truthy; its value is `safe`. */
  function CharacterField(ch: Json, f: map<string, string>, spec: FieldSpec): Option<string> {
    var v := OptProp(Some(ch), spec.key);
    if Truthy(v) then Some(Label(f, spec.key) + spec.sep + Safe(v)) else None
  }

  /** `safe(cf?.value || '')`: a custom field's value. */
  function CustomValue(cf: Json): string {
    Safe(Or(OptProp(Some(cf), "value"), Some(JStr(""))))
  }

  /** A character's custom field: pushed, untrimmed, when its value is non-blank. */
  function CharacterCustom(cf: Json, f: map<string, string>): Option<string> {
    var v := CustomValue(cf);
    if Trim(v) != "" then Some(CustomTitle(cf, f) + ":\n" + v) else None
  }

  function CharacterFieldOf(ch: Json, f: map<string, string>): FieldSpec -> Option<string> {
    (spec: FieldSpec) => CharacterField(ch, f, spec)
  }

  function CharacterCustomOf(f: map<string, string>): Json -> Option<string> {
    (cf: Json) => CharacterCustom(cf, f)
  }

  function CharacterFieldLines(ch: Json, f: map<string, string>): seq<string> {
    Keep(CHARACTER_FIELDS, CharacterFieldOf(ch, f))
  }

  function CharacterCustomLines(ch: Json, f: map<string, string>): seq<string> {
    Keep(CustomFields(ch), CharacterCustomOf(f))
  }

  /** The block of character `i` (src/backend/exporter.js:659-677); `ch.name` throws on `null`. */
  function CharacterBlock(ch: Json, i: nat, f: map<string, string>): (r: Result<seq<string>>)
    ensures r.Ok? <==> ch != JNull
    ensures r.Ok? ==> |r.value| >= 1 && r.value[0] == Header(Label(f, "characterHeader"), i)
  {
    var name := Prop(ch, "name");
    if name.Err? then Err(name.msg)
    else Ok([Header(Label(f, "characterHeader"), i)] + CharacterFieldLines(ch, f) + CharacterCustomLines(ch, f))
  }

  function CharacterBlockOf(f: map<string, string>): (Json, nat) -> Result<seq<string>> {
    (ch: Json, i: nat) => CharacterBlock(ch, i, f)
  }

  function CharactersText(parsed: Option<Json>, f: map<string, string>): Result<string> {
    Text(parsed, CharacterBlockOf(f))
  }

  /** `formatCharactersJSON` (src/backend/exporter.js:652-680). */
  method FormatCharacters(parsed: Option<Json>, f: map<string, string>) returns (r: Result<string>)
    ensures RecordsOf(parsed).None? ==> r == Ok("")
    ensures r == CharactersText(parsed, f)
  {
    r := FormatWith(parsed, CharacterBlockOf(f));
  }

  /** One labelled line per truthy field, in the fixed field order. */
  lemma {:induction false} CharacterFieldsPresent(ch: Json, f: map<string, string>)
    ensures var ls := CharacterFieldLines(ch, f);
      var ks := KeptIndices(CHARACTER_FIELDS, CharacterFieldOf(ch, f));
      && |ls| == |ks|
      && (forall k1, k2 :: 0 <= k1 < k2 < |ks| ==> ks[k1] < ks[k2])
      && (forall j :: 0 <= j < |CHARACTER_FIELDS| ==> (j in ks <==> Truthy(OptProp(Some(ch), CHARACTER_FIELDS[j].key))))
      && (forall k :: 0 <= k < |ks| ==> (ks[k] < |CHARACTER_FIELDS| && ls[k] ==
            Label(f, CHARACTER_FIELDS[ks[k]].key) + CHARACTER_FIELDS[ks[k]].sep + Safe(OptProp(Some(ch), CHARACTER_FIELDS[ks[k]].key))))
  {
    var g := CharacterFieldOf(ch, f);
    KeepMeaning(CHARACTER_FIELDS, g);
    forall j | 0 <= j < |CHARACTER_FIELDS|
      ensures g(CHARACTER_FIELDS[j]) == CharacterField(ch, f, CHARACTER_FIELDS[j]) { }
  }

  /** One line per custom field whose value is non-blank, titled by its upper-cased title or the custom label. */
  lemma {:induction false} CharacterCustomsPresent(ch: Json, f: map<string, string>)
    ensures var ls := CharacterCustomLines(ch, f);
      var cfs := CustomFields(ch);
      var cs := KeptIndices(cfs, CharacterCustomOf(f));
      && |ls| == |cs|
      && (forall k1, k2 :: 0 <= k1 < k2 < |cs| ==> cs[k1] < cs[k2])
      && (forall j :: 0 <= j < |cfs| ==> (j in cs <==> Trim(CustomValue(cfs[j])) != ""))
      && (forall k :: 0 <= k < |cs| ==> cs[k] < |cfs| && ls[k] == CustomTitle(cfs[cs[k]], f) + ":\n" + CustomValue(cfs[cs[k]]))
  {
    var g := CharacterCustomOf(f);
    KeepMeaning(CustomFields(ch), g);
    forall j | 0 <= j < |CustomFields(ch)|
      ensures var cf := CustomFields(ch)[j];
        && (g(cf).Some? <==> Trim(CustomValue(cf)) != "")
        && (g(cf).Some? ==> g(cf).value == CustomTitle(cf, f) + ":\n" + CustomValue(cf))
    {
      var cf := CustomFields(ch)[j];
      assert g(cf) == CharacterCustom(cf, f);
    }
  }

  /**
   * The characters' text exists exactly when no record is `null`; it is
   * then the records' blocks in array order, the i-th headed by number i+1.
   */
  lemma {:induction false} CharactersInOrder(parsed: Option<Json>, f: map<string, string>)
    requires RecordsOf(parsed).Some?
    ensures var arr := RecordsOf(parsed).value;
      CharactersText(parsed, f).Ok? <==> forall i :: 0 <= i < |arr| ==> arr[i] != JNull
    ensures var arr := RecordsOf(parsed).value;
      CharactersText(parsed, f).Ok? ==>
        CharactersText(parsed, f).value == Join(Concat(seq(|arr|, i requires 0 <= i < |arr| => LinesOf(CharacterBlock(arr[i], i, f)))), "\n")
  {
    var arr := RecordsOf(parsed).value;
    TextMeaning(parsed, CharacterBlockOf(f));
    var a := BlockLines(arr, CharacterBlockOf(f));
    var b := seq(|arr|, i requires 0 <= i < |arr| => LinesOf(CharacterBlock(arr[i], i, f)));
    forall i | 0 <= i < |arr| ensures a[i] == b[i] {
      assert CharacterBlockOf(f)(arr[i], i) == CharacterBlock(arr[i], i, f);
    }
    assert a == b;
  }

  // ---------------------------------------------------------------- beats

  const BEAT_FIELDS: seq<FieldSpec> := [
    FieldSpec("title", ": "), FieldSpec("container", ": "), FieldSpec("summary", ":\n"),
    FieldSpec("objective", ": "), FieldSpec("obstacle", ": "), FieldSpec("outcome", ": "),
    FieldSpec("timePlace", ": "), FieldSpec("characters", ": "), FieldSpec("links", ": ")]

  /** `safe(beat?.key || '').trim()`. */
  function BeatValue(beat: Json, key: string): string {
    Trim(Safe(Or(OptProp(Some(beat), key), Some(JStr("")))))
  }

  /** A beat's field line, pushed when the trimmed value is non-empty. */
  function BeatField(beat: Json, f: map<string, string>, spec: FieldSpec): Option<string> {
    var v := BeatValue(beat, spec.key);
    if v != "" then Some(Label(f, spec.key) + spec.sep + v) else None
  }

  /** A beat's custom field: its trimmed value, pushed when non-empty. */
  function BeatCustom(cf: Json, f: map<string, string>): Option<string> {
    var v := Trim(CustomValue(cf));
    if v != "" then Some(CustomTitle(cf, f) + ":\n" + v) else None
  }

  function BeatFieldOf(beat: Json, f: map<string, string>): FieldSpec -> Option<string> {
    (spec: FieldSpec) => BeatField(beat, f, spec)
  }

  function BeatCustomOf(f: map<string, string>): Json -> Option<string> {
    (cf: Json) => BeatCustom(cf, f)
  }

  function BeatFieldLines(beat: Json, f: map<string, string>): seq<string> {
    Keep(BEAT_FIELDS, BeatFieldOf(beat, f))
  }

  function BeatCustomLines(beat: Json, f: map<string, string>): seq<string> {
    Keep(CustomFields(beat), BeatCustomOf(f))
  }

  /** The block of beat `i` (src/backend/exporter.js:789-819); `beat.customFields` throws on `null`. */
  function BeatBlock(beat: Json, i: nat, f: map<string, string>): (r: Result<seq<string>>)
    ensures r.Ok? <==> beat != JNull
    ensures r.Ok? ==> |r.value| >= 1 && r.value[0] == Header(Label(f, "beatHeader"), i)
  {
    var custom := Prop(beat, "customFields");
    if custom.Err? then Err(custom.msg)
    else Ok([Header(Label(f, "beatHeader"), i)] + BeatFieldLines(beat, f) + BeatCustomLines(beat, f))
  }

  function BeatBlockOf(f: map<string, string>): (Json, nat) -> Result<seq<string>> {
    (beat: Json, i: nat) => BeatBlock(beat, i, f)
  }

  function BeatsText(parsed: Option<Json>, f: map<string, string>): Result<string> {
    Text(parsed, BeatBlockOf(f))
  }

  /** `formatBeatsJSON` (src/backend/exporter.js:782-822). */
  method FormatBeats(parsed: Option<Json>, f: map<string, string>) returns (r: Result<string>)
    ensures RecordsOf(parsed).None? ==> r == Ok("")
    ensures r == BeatsText(parsed, f)
  {
    r := FormatWith(parsed, BeatBlockOf(f));
  }

  /** One labelled line per field whose trimmed value is non-empty, in the fixed field order. */
  lemma {:induction false} BeatFieldsPresent(beat: Json, f: map<string, string>)
    ensures var ls := BeatFieldLines(beat, f);
      var ks := KeptIndices(BEAT_FIELDS, BeatFieldOf(beat, f));
      && |ls| == |ks|
      && (forall k1, k2 :: 0 <= k1 < k2 < |ks| ==> ks[k1] < ks[k2])
      && (forall j :: 0 <= j < |BEAT_FIELDS| ==> (j in ks <==> BeatValue(beat, BEAT_FIELDS[j].key) != ""))
      && (forall k :: 0 <= k < |ks| ==> (ks[k] < |BEAT_FIELDS| && ls[k] ==
            Label(f, BEAT_FIELDS[ks[k]].key) + BEAT_FIELDS[ks[k]].sep + BeatValue(beat, BEAT_FIELDS[ks[k]].key)))
  {
    var g := BeatFieldOf(beat, f);
    KeepMeaning(BEAT_FIELDS, g);
    forall j | 0 <= j < |BEAT_FIELDS|
      ensures g(BEAT_FIELDS[j]) == BeatField(beat, f, BEAT_FIELDS[j]) { }
  }

  /** One line per custom field whose trimmed value is non-empty; the value is pushed trimmed. */
  lemma {:induction false} BeatCustomsPresent(beat: Json, f: map<string, string>)
    ensures var ls := BeatCustomLines(beat, f);
      var cfs := CustomFields(beat);
      var cs := KeptIndices(cfs, BeatCustomOf(f));
      && |ls| == |cs|
      && (forall k1, k2 :: 0 <= k1 < k2 < |cs| ==> cs[k1] < cs[k2])
      && (forall j :: 0 <= j < |cfs| ==> (j in cs <==> Trim(CustomValue(cfs[j])) != ""))
      && (forall k :: 0 <= k < |cs| ==> cs[k] < |cfs| && ls[k] == CustomTitle(cfs[cs[k]], f) + ":\n" + Trim(CustomValue(cfs[cs[k]])))
  {
    var g := BeatCustomOf(f);
    KeepMeaning(CustomFields(beat), g);
    forall j | 0 <= j < |CustomFields(beat)|
      ensures var cf := CustomFields(beat)[j];
        && (g(cf).Some? <==> Trim(CustomValue(cf)) != "")
        && (g(cf).Some? ==> g(cf).value == CustomTitle(cf, f) + ":\n" + Trim(CustomValue(cf)))
    {
      var cf := CustomFields(beat)[j];
      assert g(cf) == BeatCustom(cf, f);
    }
  }

  /** The beats' text exists exactly when no record is `null`; then it is the beat blocks in array order. */
  lemma {:induction false} BeatsInOrder(parsed: Option<Json>, f: map<string, string>)
    requires RecordsOf(parsed).Some?
    ensures var arr := RecordsOf(parsed).value;
      BeatsText(parsed, f).Ok? <==> forall i :: 0 <= i < |arr| ==> arr[i] != JNull
    ensures var arr := RecordsOf(parsed).value;
      BeatsText(parsed, f).Ok? ==>
        BeatsText(parsed, f).value == Join(Concat(seq(|arr|, i requires 0 <= i < |arr| => LinesOf(BeatBlock(arr[i], i, f)))), "\n")
  {
    var arr := RecordsOf(parsed).value;
    TextMeaning(parsed, BeatBlockOf(f));
    var a := BlockLines(arr, BeatBlockOf(f));
    var b := seq(|arr|, i requires 0 <= i < |arr| => LinesOf(BeatBlock(arr[i], i, f)));
    forall i | 0 <= i < |arr| ensures a[i] == b[i] {
      assert BeatBlockOf(f)(arr[i], i) == BeatBlock(arr[i], i, f);
    }
    assert a == b;
  }

  // ---------------------------------------------------------------- bible

  /**
   * The language the bible formatter reads its locale for: the labels'
   * language when it is 'it' or 'en', else the preferences' `language`
   * ('en' when it starts with "en"), else 'it'. `prefLanguage` is `None`
   * when the preferences file is missing or unreadable, or its language is
   * not a non-empty string.
   */
  function BibleLang(labelsLang: string, prefLanguage: Option<string>): (r: string)
    ensures r == "it" || r == "en"
    ensures ToLower(labelsLang) == "it" || ToLower(labelsLang) == "en" ==> r == ToLower(labelsLang)
  {
    var lang := ToLower(labelsLang);
    if lang == "it" || lang == "en" then lang
    else if prefLanguage.Some? && StartsWith(ToLower(prefLanguage.value), "en") then "en"
    else "it"
  }

  /** A locale entry whose key or text equals the title, ignoring case. */
  predicate Matches(entry: (string, string), title: string) {
    ToLower(entry.0) == ToLower(title) || ToLower(entry.1) == ToLower(title)
  }

  /** The index of the first locale entry whose key or text equals `title`, ignoring case. */
  function FindLabel(entries: seq<(string, string)>, title: string): (r: Option<nat>)
    ensures r.Some? ==> r.value < |entries| && Matches(entries[r.value], title)
    ensures r.Some? ==> forall j :: 0 <= j < r.value ==> !Matches(entries[j], title)
    ensures r.None? ==> forall j :: 0 <= j < |entries| ==> !Matches(entries[j], title)
  {
    if entries == [] then None
    else if Matches(entries[0], title) then Some(0)
    else
      var r := FindLabel(entries[1..], title);
      if r.None? then None else Some(r.value + 1)
  }

  /** The title after translation: the found entry's text, unless its key is the falsy ''. */
  function Translate(entries: seq<(string, string)>, title: string): (r: string)
    ensures (forall j :: 0 <= j < |entries| ==> !Matches(entries[j], title)) ==> r == title
    ensures forall j :: 0 <= j < |entries| && Matches(entries[j], title) && (forall j' :: 0 <= j' < j ==> !Matches(entries[j'], title)) ==>
      r == if entries[j].0 != "" then entries[j].1 else title
  {
    var k := FindLabel(entries, title);
    if k.Some? && entries[k.value].0 != "" then entries[k.value].1 else title
  }

  /** `safe(sec?.key || '').trim()`. */
  function SectionValue(sec: Json, key: string): string {
    Trim(Safe(Or(OptProp(Some(sec), key), Some(JStr("")))))
  }

  /** The lines of one bible section (src/backend/exporter.js:757-775); sections with neither title nor content are skipped. */
  function BibleBlock(sec: Json, entries: seq<(string, string)>): (r: seq<string>)
    ensures r == [] <==> SectionValue(sec, "title") == "" && SectionValue(sec, "content") == ""
    ensures r != [] ==> |r| == (if SectionValue(sec, "content") == "" then 1 else 2)
  {
    var title := SectionValue(sec, "title");
    var content := SectionValue(sec, "content");
    if title == "" && content == "" then []
    else ["\n=== " + ToUpper(Translate(entries, title)) + " ==="] + (if content != "" then [content] else [])
  }

  /**
   * The text of `formatBibleJSON` as in force, the second declaration
   * (src/backend/exporter.js:725-778). `locale(lang)` is the `editor.bible`
   * table of that language's locale file as (key, text) pairs in key order,
   * empty when the file is missing or unreadable.
   */
  function BibleText(parsed: Option<Json>, labelsLang: string, prefLanguage: Option<string>,
                     locale: string -> seq<(string, string)>): Result<string>
  {
    var entries := locale(BibleLang(labelsLang, prefLanguage));
    Text(parsed, (sec: Json, i: nat) => Ok(BibleBlock(sec, entries)))
  }

  method FormatBible(parsed: Option<Json>, labelsLang: string, prefLanguage: Option<string>,
                     locale: string -> seq<(string, string)>) returns (r: Result<string>)
    ensures RecordsOf(parsed).None? ==> r == Ok("")
    ensures r == BibleText(parsed, labelsLang, prefLanguage, locale)
  {
    var entries := locale(BibleLang(labelsLang, prefLanguage));
    r := FormatWith(parsed, (sec: Json, i: nat) => Ok(BibleBlock(sec, entries)));
  }

  // ---------------------------------------------------------------- timeline (not reached by the exports)

  /** `v ?? 0` for an event's number: numbers other than integers are not modelled, other values count as 0. */
  function NumberOr0(v: Value): int {
    if v.Some? && v.value.JNum? then v.value.n else 0
  }

  function OrderingKey(ev: Json): int { NumberOr0(OptProp(Some(ev), "ordering")) }
  function StackPosKey(ev: Json): int { NumberOr0(OptProp(Some(ev), "stackPos")) }

  /**
   * `arr.sort` with the comparator "ordering, then stackPos": a stable sort
   * by stackPos followed by a stable sort by ordering.
   */
  function SortEvents(arr: seq<Json>): seq<Json> {
    SortBy(SortBy(arr, StackPosKey), OrderingKey)
  }

  /** The timeline label: the table's own word for 'it' and 'en', else the caller's label. */
  function TimelineLabel(lang: string, f: map<string, string>): string {
    if lang == "it" then "Evento" else if lang == "en" then "Event" else Label(f, "timelineEvent")
  }

  /** The lines of event `i` (src/backend/exporter.js:716-721). */
  function TimelineBlock(ev: Json, i: nat, word: string): seq<string> {
    var title := Trim(Safe(Or(OptProp(Some(ev), "title"), Some(JStr("")))));
    var desc := Trim(Safe(Or(OptProp(Some(ev), "desc"), Some(JStr("")))));
    ["\n— " + word + " " + NatToString(i + 1) + (if title != "" then ": " + title else "")]
      + (if desc != "" then [desc] else [])
  }

  function TimelineText(parsed: Option<Json>, lang: string, f: map<string, string>): Result<string> {
    var recs := RecordsOf(parsed);
    if recs.None? then Ok("")
    else Text(Some(JArr(SortEvents(recs.value))), (ev: Json, i: nat) => Ok(TimelineBlock(ev, i, TimelineLabel(lang, f))))
  }

  /** `formatTimelineJSON` (src/backend/exporter.js:706-723). */
  method FormatTimeline(parsed: Option<Json>, lang: string, f: map<string, string>) returns (r: Result<string>)
    ensures RecordsOf(parsed).None? ==> r == Ok("")
    ensures r == TimelineText(parsed, lang, f)
  {
    var recs := RecordsOf(parsed);
    if recs.None? {
      return Ok("");
    }
    var sorted := SortEvents(recs.value);
    var word := TimelineLabel(lang, f);
    r := FormatWith(Some(JArr(sorted)), (ev: Json, i: nat) => Ok(TimelineBlock(ev, i, word)));
  }

  /**
   * The sorted events are the same events, ordered by ordering; events with
   * equal orderings keep their relative order from the stackPos sort.
   */
  lemma {:induction false} SortEventsOrder(arr: seq<Json>, v: int)
    ensures multiset(SortEvents(arr)) == multiset(arr)
    ensures SortedBy(SortEvents(arr), OrderingKey)
    ensures KeyFilter(SortEvents(arr), OrderingKey, v) == KeyFilter(SortBy(arr, StackPosKey), OrderingKey, v)
  {
    SortByStable(SortBy(arr, StackPosKey), OrderingKey, v);
  }

  // ---------------------------------------------------------------- routing

  /**
   * `jsonSectionToText`: characters, beats, timeline and bible sections by
   * their ids, '' for any other section.
   */
  function JsonSectionToText(id: string, parsed: Option<Json>, l: Labels.Labels, prefLanguage: Option<string>,
                             locale: string -> seq<(string, string)>): Result<string>
  {
    if id == "personaggi" then CharactersText(parsed, l.fields)
    else if id == "scaletta" then BeatsText(parsed, l.fields)
    else if id == "timeline" then TimelineText(parsed, l.lang, l.fields)
    else if id == "bibbia" then BibleText(parsed, l.lang, prefLanguage, locale)
    else Ok("")
  }
}
