/**
 * The helpers of the main process (src/main.js) behind the export commands
 * and the window: the file-name sanitiser and the date stamp of a suggested
 * file name, the labels handed to the exporter, the spell-checker
 * language, the zoom clamp and the `.pdf` suffix of the save dialog. The
 * clock, the dialog and the window are not modelled: their results are
 * parameters.
 */
module AppHelpers {
  import opened Wrappers
  import opened Strings
  import Labels
  import EditorText

  /* ---------- sanitizeFilename ---------- */

  /** The characters `/[<>:"/\\|?*\u0000-\u001F]/g` removes. */
  predicate Forbidden(c: char) {
    c == '<' || c == '>' || c == ':' || c == '"' || c == '/' || c == '\\' || c == '|' || c == '?' || c == '*'
    || c < '\U{0020}'
  }

  predicate NoForbidden(s: string) {
    forall i :: 0 <= i < |s| ==> !Forbidden(s[i])
  }

  /** `replace(/[<>:"/\\|?*\u0000-\u001F]/g, '')`. */
  function StripForbidden(s: string): (r: string)
    ensures NoForbidden(r)
    ensures NoForbidden(s) ==> r == s
  {
    if s == [] then []
    else (if Forbidden(s[0]) then [] else [s[0]]) + StripForbidden(s[1..])
  }

  /** Every white-space character is a plain space and no two of them are adjacent. */
  predicate SingleSpaced(s: string) {
    && (forall i :: 0 <= i < |s| ==> IsWs(s[i]) ==> s[i] == ' ')
    && (forall i :: 0 <= i < |s| - 1 ==> !(IsWs(s[i]) && IsWs(s[i + 1])))
  }

  predicate DotOrSpace(c: char) {
    c == '.' || c == ' '
  }

  /** `replace(/[. ]+$/, '')`: the run of dots and spaces at the end goes. */
  function DropTrailing(s: string): (r: string)
    ensures |r| <= |s| && r == s[..|r|]
    ensures r == [] || !DotOrSpace(r[|r| - 1])
    ensures forall k :: |r| <= k < |s| ==> DotOrSpace(s[k])
    decreases |s|
  {
    if s != [] && DotOrSpace(s[|s| - 1]) then DropTrailing(s[..|s| - 1]) else s
  }

  /** `sanitizeFilename(name)` (src/main.js:95-101). */
  function SanitizeFilename(name: string): string {
    Trim(DropTrailing(CollapseWs(StripForbidden(name), ' ')))
  }

  /** What a sanitised name looks like. */
  predicate Sanitized(r: string) {
    && NoForbidden(r)
    && SingleSpaced(r)
    && (r == [] || (!IsWs(r[0]) && !DotOrSpace(r[|r| - 1])))
  }

  /** The first character of a collapsed text. */
  lemma {:induction false} CollapseHead(s: string, c: char)
    ensures s == [] <==> CollapseWs(s, c) == []
    ensures s != [] ==> CollapseWs(s, c)[0] == if IsWs(s[0]) then c else s[0]
  {
  }

  /** Collapsing white space into spaces leaves single spaces and adds no forbidden character. */
  lemma {:induction false} CollapseSpaces(s: string)
    ensures SingleSpaced(CollapseWs(s, ' '))
    ensures NoForbidden(s) ==> NoForbidden(CollapseWs(s, ' '))
    decreases |s|
  {
    if s == [] {
    } else if IsWs(s[0]) {
      var t := TrimStart(s);
      TrimStartFacts(s);
      CollapseSpaces(t);
      CollapseHead(t, ' ');
      assert NoForbidden(s) ==> NoForbidden(t) by {
        forall k | 0 <= k < |t| ensures t[k] == s[|s| - |t| + k] {
        }
      }
    } else {
      CollapseSpaces(s[1..]);
      CollapseHead(s[1..], ' ');
    }
  }

  /** A slice keeps the character-wise properties. */
  lemma {:induction false} SliceSanitary(s: string, i: nat, j: nat)
    requires i <= j <= |s|
    requires NoForbidden(s) && SingleSpaced(s)
    ensures NoForbidden(s[i..j]) && SingleSpaced(s[i..j])
  {
    var t := s[i..j];
    forall k | 0 <= k < |t| ensures t[k] == s[i + k] {
    }
  }

  /** Whatever the input, the sanitised name has the shape of `Sanitized`. */
  lemma {:induction false} SanitizeShape(name: string)
    ensures Sanitized(SanitizeFilename(name))
  {
    var a := StripForbidden(name);
    var b := CollapseWs(a, ' ');
    CollapseSpaces(a);
    var c := DropTrailing(b);
    SliceSanitary(b, 0, |c|);
    TrimShaped(c);
  }

  /** The last step of the sanitiser: trimming a single-spaced text without a trailing dot or space. */
  lemma {:induction false} TrimShaped(c: string)
    requires NoForbidden(c) && SingleSpaced(c)
    requires c == [] || !DotOrSpace(c[|c| - 1])
    ensures Sanitized(Trim(c))
  {
    var t := TrimStart(c);
    TrimStartSuffix(c);
    if t != [] {
      assert t[|t| - 1] == c[|c| - 1];
    }
    assert TrimEnd(t) == t;
    SliceSanitary(c, |c| - |t|, |c|);
  }

  /** A single-spaced text that does not end in white space is left alone by the collapse. */
  lemma {:induction false} SpacedFixed(s: string)
    requires SingleSpaced(s)
    requires s == [] || !IsWs(s[|s| - 1])
    ensures CollapseWs(s, ' ') == s
    decreases |s|
  {
    if s != [] {
      var t := s[1..];
      assert SingleSpaced(t) by {
        forall k | 0 <= k < |t| ensures t[k] == s[k + 1] {
        }
      }
      assert t == [] || t[|t| - 1] == s[|s| - 1];
      if IsWs(s[0]) {
        assert TrimStart(s) == t;
      }
      SpacedFixed(t);
    }
  }

  /** A name of that shape is its own sanitised form. */
  lemma {:induction false} SanitizedFixed(r: string)
    requires Sanitized(r)
    ensures SanitizeFilename(r) == r
  {
    assert StripForbidden(r) == r;
    SpacedFixed(r);
    assert DropTrailing(r) == r;
    TrimNoop(r);
  }

  /** Sanitising is idempotent. */
  lemma {:induction false} SanitizeIdempotent(name: string)
    ensures SanitizeFilename(SanitizeFilename(name)) == SanitizeFilename(name)
  {
    SanitizeShape(name);
    SanitizedFixed(SanitizeFilename(name));
  }

  /** The names sanitising leaves alone are exactly those of that shape. */
  lemma {:induction false} SanitizeFixedIff(name: string)
    ensures SanitizeFilename(name) == name <==> Sanitized(name)
  {
    SanitizeShape(name);
    if Sanitized(name) {
      SanitizedFixed(name);
    }
  }

  /* ---------- isoStamp ---------- */

  /** The parts of a local date that `isoStamp` reads: `getFullYear`, `getMonth` (from 0), `getDate`, `getHours`, `getMinutes`. */
  datatype LocalTime = LocalTime(year: int, month0: nat, date: nat, hours: nat, minutes: nat)

  /** `String(n).padStart(2, '0')`. */
  function Pad2(n: nat): string {
    if n < 10 then "0" + NatToString(n) else NatToString(n)
  }

  /** `String(n)` of a year. */
  function YearText(y: int): string {
    if y < 0 then "-" + NatToString(-y) else NatToString(y)
  }

  /** `isoStamp(d)` (src/main.js:102-110). */
  function IsoStamp(t: LocalTime): string {
    YearText(t.year) + "-" + Pad2(t.month0 + 1) + "-" + Pad2(t.date) + " " + Pad2(t.hours) + "." + Pad2(t.minutes)
  }

  /** `s` is digits whose value is `v`. */
  predicate DigitsAre(s: string, v: nat) {
    (forall i :: 0 <= i < |s| ==> IsDigit(s[i])) && DigitsValue(s) == v
  }

  /** Below 100 the padded number is two digits reading back as the number. */
  lemma {:induction false} Pad2Digits(n: nat)
    requires n < 100
    ensures |Pad2(n)| == 2 && DigitsAre(Pad2(n), n)
  {
    DigitsValueOfNat(n);
    if n < 10 {
      var p := Pad2(n);
      assert p[..1] == "0";
      assert DigitsValue(p[..1]) == 0;
    } else {
      NatToStringLength(n, 2);
    }
  }

  /**
   * For a four-digit year the stamp is `YYYY-MM-DD HH.MM`: sixteen characters
   * whose digit groups read back as the year, the month counted from 1, the
   * day, the hour and the minute.
   */
  lemma {:induction false} IsoStampLayout(t: LocalTime)
    requires 1000 <= t.year <= 9999 && t.month0 < 12 && 1 <= t.date <= 31 && t.hours < 24 && t.minutes < 60
    ensures var r := IsoStamp(t);
      && |r| == 16 && r[4] == '-' && r[7] == '-' && r[10] == ' ' && r[13] == '.'
      && DigitsAre(r[..4], t.year) && DigitsAre(r[5..7], t.month0 + 1) && DigitsAre(r[8..10], t.date)
      && DigitsAre(r[11..13], t.hours) && DigitsAre(r[14..], t.minutes)
  {
    var y := YearText(t.year);
    NatToStringLength(t.year, 4);
    DigitsValueOfNat(t.year);
    Pad2Digits(t.month0 + 1);
    Pad2Digits(t.date);
    Pad2Digits(t.hours);
    Pad2Digits(t.minutes);
    var r := IsoStamp(t);
    assert r[..4] == y;
    assert r[5..7] == Pad2(t.month0 + 1);
    assert r[8..10] == Pad2(t.date);
    assert r[11..13] == Pad2(t.hours);
    assert r[14..] == Pad2(t.minutes);
  }

  /* ---------- languages ---------- */

  /** `normalizeLang(lang)` (src/main.js:76-80): the spell checker's language; '' stands for a missing or falsy argument. */
  function NormalizeLang(lang: string): string {
    if StartsWith(ToLower(lang), "it") then "it" else "en"
  }

  const SPELL_LANGS: map<string, seq<string>> := map["it" := ["it-IT"], "en" := ["en-US"]]

  /** The dictionaries `applySpellLang` asks for (src/main.js:82-84). */
  function SpellLanguages(lang: string): seq<string> {
    var key := NormalizeLang(lang);
    if key in SPELL_LANGS then SPELL_LANGS[key] else SPELL_LANGS["en"]
  }

  /** Italian dictionaries exactly for a language whose lower-cased name starts with "it", English ones otherwise. */
  lemma {:induction false} SpellLanguagesMeaning(lang: string)
    ensures StartsWith(ToLower(lang), "it") ==> SpellLanguages(lang) == ["it-IT"]
    ensures !StartsWith(ToLower(lang), "it") ==> SpellLanguages(lang) == ["en-US"]
  {
  }

  /** The language `buildExportLabels` picks: `(lang || 'it').toLowerCase().startsWith('en') ? 'en' : 'it'`. */
  function ExportLang(lang: string): string {
    var l := if lang == "" then "it" else lang;
    if StartsWith(ToLower(l), "en") then "en" else "it"
  }

  /** The export labels are English exactly when the lower-cased name starts with "en"; a missing name gives Italian. */
  lemma {:induction false} ExportLangMeaning(lang: string)
    ensures ExportLang(lang) == "en" <==> StartsWith(ToLower(lang), "en")
    ensures ExportLang(lang) == "en" || ExportLang(lang) == "it"
  {
    if lang == "" {
      assert !StartsWith(ToLower("it"), "en") by {
        assert ToLower("it")[0] == 'i';
      }
    }
  }

  /** No lower-cased name starts with both "it" and "en". */
  lemma {:induction false} PrefixesExclusive(s: string)
    ensures !(StartsWith(s, "it") && StartsWith(s, "en"))
  {
    if StartsWith(s, "it") {
      assert s[0] == "it"[0];
    }
  }

  /** For Italian and English names the two choices agree. */
  lemma {:induction false} LanguagesAgree(lang: string)
    requires StartsWith(ToLower(lang), "it") || StartsWith(ToLower(lang), "en")
    ensures NormalizeLang(lang) == ExportLang(lang)
  {
    ExportLangMeaning(lang);
    PrefixesExclusive(ToLower(lang));
  }

  /** For every other name, the missing one included, the spell checker is English and the export labels Italian. */
  lemma {:induction false} DefaultsDiffer(lang: string)
    requires !StartsWith(ToLower(lang), "it") && !StartsWith(ToLower(lang), "en")
    ensures NormalizeLang(lang) == "en" && ExportLang(lang) == "it"
  {
    ExportLangMeaning(lang);
  }

  /* ---------- buildExportLabels ---------- */

  /** The object `buildExportLabels` returns. */
  datatype ExportLabels = ExportLabels(
    lang: string,
    projectType: string,
    page: string,
    nonTextSectionsTitle: string,
    nonTextSectionsNote: string,
    sectionTitles: map<string, string>)

  const IT_SECTION_LABELS: map<string, string> := map[
    "scene" := "Stesura", "capitoli" := "Stesura",
    "concept" := "Concept", "soggetto" := "Soggetto", "trattamento" := "Trattamento",
    "scaletta" := "Scaletta", "bibbia" := "Bibbia", "personaggi" := "Personaggi",
    "timeline" := "Timeline", "note" := "Note", "outline" := "Outline",
    "soggetto_logline" := "Soggetto & logline",
    "didascalie" := "Didascalie globali", "premessa_sinossi" := "Premessa & sinossi"]

  const EN_SECTION_LABELS: map<string, string> := map[
    "scene" := "Draft", "capitoli" := "Draft",
    "concept" := "Concept", "soggetto" := "Story Idea", "trattamento" := "Treatment",
    "scaletta" := "Outline", "bibbia" := "Bible", "personaggi" := "Characters",
    "timeline" := "Timeline", "note" := "Notes", "outline" := "Outline",
    "soggetto_logline" := "Story & logline",
    "didascalie" := "Global stage directions", "premessa_sinossi" := "Premise & synopsis"]

  /** `buildExportLabels(lang, projectType)` (src/main.js:111-147). */
  function BuildExportLabels(lang: string, projectType: string): ExportLabels {
    var l := ExportLang(lang);
    var table := if l == "en" then EN_SECTION_LABELS else IT_SECTION_LABELS;
    var titles := if l == "en" && projectType == "libro" then table["scaletta" := "Chapter Breakdown"] else table;
    ExportLabels(
      l, projectType,
      if l == "en" then "Page" else "Pagina",
      if l == "en" then "SECTIONS NOT EXPORTED" else "SEZIONI NON ESPORTATE",
      if l == "en" then "These sections are not exported as text in this version:"
      else "Queste sezioni non sono esportabili come testo nella versione attuale:",
      titles)
  }

  /**
   * The labels are in the chosen language's table, page word included, for
   * the same fourteen sections in both languages; only an English book's
   * outline differs from its table, as 'Chapter Breakdown'.
   */
  lemma {:induction false} BuildExportLabelsMeaning(lang: string, projectType: string)
    ensures var r := BuildExportLabels(lang, projectType);
      var en := StartsWith(ToLower(lang), "en");
      var table := if en then EN_SECTION_LABELS else IT_SECTION_LABELS;
      && (r.lang == "en" <==> en) && (r.lang == "en" || r.lang == "it")
      && r.projectType == projectType
      && r.page == (if en then "Page" else "Pagina")
      && r.sectionTitles.Keys == IT_SECTION_LABELS.Keys
      && (forall k :: k in r.sectionTitles && k != "scaletta" ==> r.sectionTitles[k] == table[k])
      && r.sectionTitles["scaletta"] == (if en && projectType == "libro" then "Chapter Breakdown" else table["scaletta"])
  {
    ExportLangMeaning(lang);
  }

  /** The Italian table is the one the editor falls back to for its sidebar titles. */
  lemma {:induction false} ItalianLabelsMatchEditor()
    ensures IT_SECTION_LABELS == EditorText.SECTION_FALLBACKS
  {
  }

  /** The labels as the exporter receives them: an object without `fields`. */
  function ToLabelsIn(l: ExportLabels): Labels.LabelsIn {
    Labels.LabelsIn(Some(l.lang), Some(l.page), Some(l.sectionTitles), None, Some(l.projectType))
  }

  /**
   * The exporter's merge keeps every label the main process built: the
   * language, the page word and every section title, which cover the
   * exporter's own table, so none of its built-in titles shows through.
   */
  lemma {:induction false} ExporterKeepsMainLabels(lang: string, projectType: string)
    ensures var l := BuildExportLabels(lang, projectType);
      var m := Labels.MergeLabels(Some(ToLabelsIn(l)));
      m.lang == l.lang && m.page == l.page && m.sectionTitles == l.sectionTitles && m.projectType == projectType
  {
    var l := BuildExportLabels(lang, projectType);
    var m := Labels.MergeLabels(Some(ToLabelsIn(l)));
    var base := Labels.BaseLabels(l.lang);
    MainTitlesCover(lang, projectType);
    OverrideCovered(base.sectionTitles, l.sectionTitles);
    var merged := Labels.Labels(l.lang, l.page, l.sectionTitles, base.fields, projectType);
    MergeMainLabels(l);
    BookOutlineKept(lang, projectType);
  }

  /** The main process names every section of the exporter's tables. */
  lemma {:induction false} MainTitlesCover(lang: string, projectType: string)
    ensures var l := BuildExportLabels(lang, projectType);
      l.lang != "" && Labels.BaseLabels(l.lang).sectionTitles.Keys <= l.sectionTitles.Keys
  {
    ExportLangMeaning(lang);
  }

  /** Overriding with a map that has every key gives that map. */
  lemma {:induction false} OverrideCovered(a: map<string, string>, b: map<string, string>)
    requires a.Keys <= b.Keys
    ensures Labels.Override(a, b) == b
  {
  }

  /** The exporter starts from the table of the language it is given and then applies the type's overrides. */
  lemma {:induction false} MergeMainLabels(l: ExportLabels)
    requires l.lang != ""
    ensures var base := Labels.BaseLabels(l.lang);
      Labels.MergeLabels(Some(ToLabelsIn(l))) ==
        Labels.ApplyProjectTypeOverrides(
          Labels.Labels(l.lang, l.page, Labels.Override(base.sectionTitles, l.sectionTitles), base.fields, l.projectType),
          l.projectType)
  {
    assert Labels.MergeLang(Some(ToLabelsIn(l))) == l.lang;
  }

  /** The type's overrides change nothing in the labels of the main process. */
  lemma {:induction false} BookOutlineKept(lang: string, projectType: string)
    ensures var l := BuildExportLabels(lang, projectType);
      forall fields :: Labels.ApplyProjectTypeOverrides(Labels.Labels(l.lang, l.page, l.sectionTitles, fields, projectType), projectType)
        == Labels.Labels(l.lang, l.page, l.sectionTitles, fields, projectType)
  {
    var l := BuildExportLabels(lang, projectType);
    if l.lang == "en" && projectType == "libro" {
      assert l.sectionTitles["scaletta" := "Chapter Breakdown"] == l.sectionTitles;
    }
  }

  /* ---------- zoom ---------- */

  const ZOOM_MIN: real := 0.8
  const ZOOM_MAX: real := 2.0

  function Min(a: real, b: real): real {
    if a <= b then a else b
  }

  function Max(a: real, b: real): real {
    if a >= b then a else b
  }

  /** `clampZoom(z)` (src/main.js:40-44): the factor held to [0.8, 2.0], and unchanged inside it. */
  function ClampZoom(z: real): (r: real)
    ensures ZOOM_MIN <= r <= ZOOM_MAX
    ensures ZOOM_MIN <= z <= ZOOM_MAX ==> r == z
    ensures z < ZOOM_MIN ==> r == ZOOM_MIN
    ensures z > ZOOM_MAX ==> r == ZOOM_MAX
  {
    Max(ZOOM_MIN, Min(ZOOM_MAX, z))
  }

  /** Clamping twice is clamping once, and a larger factor never clamps to a smaller one. */
  lemma {:induction false} ClampZoomLaws(z: real, w: real)
    ensures ClampZoom(ClampZoom(z)) == ClampZoom(z)
    ensures z <= w ==> ClampZoom(z) <= ClampZoom(w)
  {
  }

  /* ---------- the save dialog ---------- */

  /** What the save dialog answers. `filePath` is '' when it gives none. */
  datatype SaveAnswer = SaveAnswer(canceled: bool, filePath: string)

  /** The path with `.pdf` appended unless it already ends with it (src/main.js:156). */
  function WithPdf(p: string): (r: string)
    ensures EndsWith(r, ".pdf")
    ensures StartsWith(r, p) && |r| <= |p| + 4
    ensures EndsWith(p, ".pdf") <==> r == p
  {
    if EndsWith(p, ".pdf") then p else p + ".pdf"
  }

  /** Adding the suffix twice is adding it once. */
  lemma {:induction false} WithPdfIdempotent(p: string)
    ensures WithPdf(WithPdf(p)) == WithPdf(p)
  {
  }

  /** What `promptSavePDF` returns (src/main.js:155-156): nothing for a cancelled or empty answer, else the path ending in `.pdf`. */
  function SavePath(answer: SaveAnswer): (r: Option<string>)
    ensures r.None? <==> answer.canceled || answer.filePath == ""
    ensures r.Some? ==> EndsWith(r.value, ".pdf") && StartsWith(r.value, answer.filePath)
    ensures r.Some? && EndsWith(answer.filePath, ".pdf") ==> r.value == answer.filePath
  {
    if answer.canceled || answer.filePath == "" then None else Some(WithPdf(answer.filePath))
  }
}
