/**
 * The editor's translation helpers (src/frontend/editor.js): `T`, which
 * asks the translation engine and falls back to a given text when the
 * engine echoes the key, and `getSectionLabel`, the sidebar title of a
 * section.
 */
module EditorText {
  import opened Wrappers
  import opened Strings
  import opened Json
  import opened I18n

  /** What the editor sees of `window.I18N`: its language and dictionary, or nothing when the engine is absent. */
  datatype Ui = Ui(lang: string, dict: Value)

  /** `T(k, fb)` of src/frontend/editor.js:16-21. */
  function T(ui: Option<Ui>, k: string, fb: string): string {
    match ui
    case None => fb
    case Some(u) =>
      var t := Translate(u.dict, k, None);
      if t == k then fb else t
  }

  /** `T` gives the dictionary's string at the key when there is one other than the key itself, and the fallback otherwise. */
  lemma {:induction false} TMeaning(ui: Option<Ui>, k: string, fb: string)
    ensures Translated(ui, k) ==> T(ui, k, fb) == Get(ui.value.dict, k).value.s
    ensures !Translated(ui, k) ==> T(ui, k, fb) == fb
  {
    if ui.Some? {
      TranslateEcho(ui.value.dict, k, None);
      InterpolateNoParams(if Get(ui.value.dict, k).Some? && Get(ui.value.dict, k).value.JStr? then Get(ui.value.dict, k).value.s else "", None);
    }
  }

  /** The engine is there and its dictionary holds a string other than the key at the key's path. */
  predicate Translated(ui: Option<Ui>, k: string) {
    ui.Some? && Get(ui.value.dict, k).Some? && Get(ui.value.dict, k).value.JStr? && Get(ui.value.dict, k).value.s != k
  }

  /** The Italian titles `getSectionLabel` falls back to. */
  const SECTION_FALLBACKS: map<string, string> := map[
    "scene" := "Stesura", "capitoli" := "Stesura",
    "concept" := "Concept", "soggetto" := "Soggetto", "trattamento" := "Trattamento",
    "scaletta" := "Scaletta", "bibbia" := "Bibbia", "personaggi" := "Personaggi",
    "timeline" := "Timeline", "note" := "Note",
    "outline" := "Outline", "soggetto_logline" := "Soggetto & logline",
    "didascalie" := "Didascalie globali", "premessa_sinossi" := "Premessa & sinossi"]

  /** `(window.I18N?.lang || 'it').toLowerCase()`. */
  function UiLang(ui: Option<Ui>): string {
    if ui.Some? && ui.value.lang != "" then ToLower(ui.value.lang) else "it"
  }

  /** The fallback title of a section: the table's entry, or the id with its first letter upper-cased. */
  function SectionFallback(section: string): string {
    if section in SECTION_FALLBACKS then SECTION_FALLBACKS[section] else Capitalize(section)
  }

  /** `getSectionLabel(section)` (src/frontend/editor.js:224-262). */
  function SectionLabel(ui: Option<Ui>, projectType: string, section: string): string {
    if section == "scaletta" && projectType == "libro" && StartsWith(UiLang(ui), "en") then
      T(ui, "editor.sectionTitles.scaletta_book", "Chapter Breakdown")
    else
      T(ui, "editor.sectionTitles." + section, SectionFallback(section))
  }

  /** Without the engine every section shows its Italian fallback title. */
  lemma {:induction false} LabelWithoutEngine(projectType: string, section: string)
    ensures SectionLabel(None, projectType, section) ==
      if section in SECTION_FALLBACKS then SECTION_FALLBACKS[section] else Capitalize(section)
  {
    assert UiLang(None) == "it";
    assert !StartsWith("it", "en") by {
      assert "it"[..2][0] == 'i';
    }
  }

  /** An English book's outline is 'Chapter Breakdown' unless the dictionary has its own title for it. */
  lemma {:induction false} EnglishBookOutline(lang: string, dict: Value)
    requires StartsWith(ToLower(lang), "en")
    requires !(Get(dict, "editor.sectionTitles.scaletta_book").Some? && Get(dict, "editor.sectionTitles.scaletta_book").value.JStr?)
    ensures SectionLabel(Some(Ui(lang, dict)), "libro", "scaletta") == "Chapter Breakdown"
  {
    TMeaning(Some(Ui(lang, dict)), "editor.sectionTitles.scaletta_book", "Chapter Breakdown");
  }

  /** Only a book's outline depends on the language: every other label is the same in every language. */
  lemma {:induction false} LabelIgnoresLanguage(l1: string, l2: string, dict: Value, projectType: string, section: string)
    requires !(section == "scaletta" && projectType == "libro")
    ensures SectionLabel(Some(Ui(l1, dict)), projectType, section) == SectionLabel(Some(Ui(l2, dict)), projectType, section)
  {
  }
}
