/**
 * The exporter's label tables and how a caller's labels are merged into
 * them (src/backend/exporter.js:18-149), the centred section title
 * (179-184), the page footers (189-204) and the choice between bundled
 * and built-in fonts (221-266).
 */
module Labels {
  import opened Wrappers
  import opened Strings
  import Inline

  /** A merged label set. `projectType` is '' when it is missing or falsy. */
  datatype Labels = Labels(
    lang: string,
    page: string,
    sectionTitles: map<string, string>,
    fields: map<string, string>,
    projectType: string)

  /** The labels a caller passes in; `None` is a property it does not set. */
  datatype LabelsIn = LabelsIn(
    lang: Option<string>,
    page: Option<string>,
    sectionTitles: Option<map<string, string>>,
    fields: Option<map<string, string>>,
    projectType: Option<string>)

  const IT_TITLES: map<string, string> := map[
    "scene" := "Stesura", "capitoli" := "Capitoli", "concept" := "Concept", "soggetto" := "Soggetto",
    "trattamento" := "Trattamento", "scaletta" := "Scaletta", "bibbia" := "Bibbia",
    "personaggi" := "Personaggi", "timeline" := "Timeline", "note" := "Note",
    "soggetto_logline" := "Soggetto & logline", "outline" := "Outline", "didascalie" := "Didascalie",
    "premessa_sinossi" := "Premessa & sinossi"]

  const EN_TITLES: map<string, string> := map[
    "scene" := "Draft", "capitoli" := "Chapters", "concept" := "Concept", "soggetto" := "Story",
    "trattamento" := "Treatment", "scaletta" := "Outline", "bibbia" := "Bible",
    "personaggi" := "Characters", "timeline" := "Timeline", "note" := "Notes",
    "soggetto_logline" := "Premise & Logline", "outline" := "Outline", "didascalie" := "Stage Directions",
    "premessa_sinossi" := "Premise & Synopsis"]

  const IT_FIELDS: map<string, string> := map[
    "characterHeader" := "Personaggio", "name" := "Nome", "role" := "Ruolo",
    "ageAppearance" := "Età / Aspetto", "background" := "Background", "goal" := "Obiettivo",
    "conflict" := "Conflitto", "arc" := "Evoluzione", "relationships" := "Relazioni",
    "traits" := "Tratti", "quote" := "Citazione", "notes" := "Note", "custom" := "Campo personalizzato",
    "beatHeader" := "Battuta", "title" := "Titolo", "container" := "Sequenza", "summary" := "Riassunto",
    "objective" := "Obiettivo", "obstacle" := "Ostacolo", "outcome" := "Esito",
    "timePlace" := "Tempo / Luogo", "characters" := "Personaggi", "links" := "Collegamenti",
    "timelineEvent" := "Evento", "section" := "Sezione"]

  const EN_FIELDS: map<string, string> := map[
    "characterHeader" := "Character", "name" := "Name", "role" := "Role",
    "ageAppearance" := "Age / Appearance", "background" := "Background", "goal" := "Goal",
    "conflict" := "Conflict", "arc" := "Arc", "relationships" := "Relationships",
    "traits" := "Traits", "quote" := "Quote", "notes" := "Notes", "custom" := "Custom Field",
    "beatHeader" := "Beat", "title" := "Title", "container" := "Sequence", "summary" := "Summary",
    "objective" := "Objective", "obstacle" := "Obstacle", "outcome" := "Outcome",
    "timePlace" := "Time / Place", "characters" := "Characters", "links" := "Links",
    "timelineEvent" := "Event", "section" := "Section"]

  /** `DEFAULT_LABELS[lang]`, or `None` for a language with no table. */
  function DefaultLabels(lang: string): Option<Labels> {
    if lang == "it" then Some(Labels("it", "Pagina", IT_TITLES, IT_FIELDS, ""))
    else if lang == "en" then Some(Labels("en", "Page", EN_TITLES, EN_FIELDS, ""))
    else None
  }

  /** `applyProjectTypeOverrides`: a truthy type is recorded, and English books call the outline "Chapter Breakdown". */
  function ApplyProjectTypeOverrides(target: Labels, projectType: string): (r: Labels)
    ensures projectType == "" ==> r == target
    ensures projectType != "" ==> r.projectType == projectType
    ensures r.lang == target.lang && r.page == target.page && r.fields == target.fields
    ensures r.sectionTitles.Keys == target.sectionTitles.Keys + (if target.lang == "en" && projectType == "libro" then {"scaletta"} else {})
    ensures forall k :: k in r.sectionTitles ==>
      r.sectionTitles[k] == (if k == "scaletta" && target.lang == "en" && projectType == "libro" then "Chapter Breakdown" else target.sectionTitles[k])
  {
    if projectType == "" then target
    else
      var t := target.(projectType := projectType);
      if t.lang == "en" && projectType == "libro" then t.(sectionTitles := t.sectionTitles["scaletta" := "Chapter Breakdown"])
      else t
  }

  /** `{...a, ...b}` on two string maps. */
  function Override(a: map<string, string>, b: map<string, string>): (r: map<string, string>)
    ensures r.Keys == a.Keys + b.Keys
    ensures forall k :: k in r ==> r[k] == if k in b then b[k] else a[k]
  {
    map k | k in a.Keys + b.Keys :: if k in b then b[k] else a[k]
  }

  function Get<T>(o: Option<T>, default: T): T {
    if o.Some? then o.value else default
  }

  /** `DEFAULT_LABELS[lang] || DEFAULT_LABELS.it`. */
  function BaseLabels(lang: string): (r: Labels)
    ensures r.lang == (if lang == "en" then "en" else "it")
    ensures r.sectionTitles == (if lang == "en" then EN_TITLES else IT_TITLES)
  {
    Get(DefaultLabels(lang), DefaultLabels("it").value)
  }

  /** The language whose table `mergeLabels` starts from: the caller's, when truthy, else Italian. */
  function MergeLang(labels: Option<LabelsIn>): string {
    if labels.Some? && labels.value.lang.Some? && labels.value.lang.value != "" then labels.value.lang.value else "it"
  }

  /** `mergeLabels`: the caller's properties over the table of its language (Italian when it has none). */
  function MergeLabels(labels: Option<LabelsIn>): Labels {
    var base := BaseLabels(MergeLang(labels));
    if labels.None? then base
    else
      var l := labels.value;
      var merged := Labels(
        Get(l.lang, base.lang),
        Get(l.page, base.page),
        Override(base.sectionTitles, Get(l.sectionTitles, map[])),
        Get(l.fields, base.fields),
        Get(l.projectType, ""));
      ApplyProjectTypeOverrides(merged, Get(l.projectType, ""))
  }

  /**
   * What the merge promises: titles of the language's table are kept unless
   * the caller sets them, and English books get "Chapter Breakdown".
   */
  lemma {:induction false} MergeLabelsMeaning(labels: Option<LabelsIn>)
    ensures var r := MergeLabels(labels);
      var table := BaseLabels(MergeLang(labels)).sectionTitles;
      var own := if labels.Some? then Get(labels.value.sectionTitles, map[]) else map[];
      var book := r.lang == "en" && r.projectType == "libro";
      && (labels.None? ==> r == BaseLabels("it"))
      && (r.lang == "it" || r.lang == "en" || (labels.Some? && labels.value.lang == Some(r.lang)))
      && (forall k :: k in table || k in own ==> k in r.sectionTitles)
      && (forall k :: k in r.sectionTitles ==>
            r.sectionTitles[k] == if k == "scaletta" && book then "Chapter Breakdown" else if k in own then own[k] else table[k])
  {
    if labels.Some? {
      var l := labels.value;
      var base := BaseLabels(MergeLang(labels));
      var merged := Labels(Get(l.lang, base.lang), Get(l.page, base.page),
        Override(base.sectionTitles, Get(l.sectionTitles, map[])), Get(l.fields, base.fields), Get(l.projectType, ""));
      assert MergeLabels(labels) == ApplyProjectTypeOverrides(merged, Get(l.projectType, ""));
    }
  }

  /** `sectionLabel`: the section's title, or its id with a capital first letter, upper-cased. */
  function SectionLabel(id: string, titles: map<string, string>): (r: string)
    ensures ToUpper(r) == r
    ensures r == "" <==> id == "" && (id !in titles || titles[id] == "")
    ensures (id !in titles || titles[id] == "") ==> r == ToUpper(id)
    ensures id in titles && titles[id] != "" ==> r == ToUpper(titles[id])
  {
    var raw := if id in titles && titles[id] != "" then titles[id] else Capitalize(id);
    UpperIdempotent(raw);
    ToUpper(raw)
  }

  /** `drawPageNumber`'s text: the page label, a space, the page number. */
  function FooterText(page: string, n: nat): string {
    page + " " + NatToString(n)
  }

  /** `numberAllPages`: the footer of every buffered page, in page order. */
  method NumberAllPages(page: string, count: nat) returns (footers: seq<string>)
    ensures |footers| == count
    ensures forall i :: 0 <= i < count ==> footers[i] == page + " " + NatToString(i + 1)
  {
    footers := [];
    var i := 0;
    while i < count
      invariant 0 <= i <= count
      invariant |footers| == i
      invariant forall j :: 0 <= j < i ==> footers[j] == page + " " + NatToString(j + 1)
    {
      footers := footers + [FooterText(page, i + 1)];
      i := i + 1;
    }
  }

  /** No two pages carry the same footer. */
  lemma {:induction false} FootersDistinct(page: string, i: nat, j: nat)
    requires FooterText(page, i) == FooterText(page, j)
    ensures i == j
  {
    var a, b := FooterText(page, i), FooterText(page, j);
    assert a[|page| + 1..] == NatToString(i);
    assert b[|page| + 1..] == NatToString(j);
    NatToStringInjective(i, j);
  }

  const FACES: set<string> := {
    "Mono", "Mono-Bold", "Mono-Oblique", "Mono-BoldOblique",
    "Serif", "Serif-Bold", "Serif-Italic", "Serif-BoldItalic"}

  /** The source `registerFonts` gives one face: a bundled file or a built-in face's name. */
  function FaceSource(face: string, monoRegularExists: bool, serifRegularExists: bool): string {
    if face == "Mono" then (if monoRegularExists then "CourierPrime-Regular.ttf" else "Courier")
    else if face == "Mono-Bold" then (if monoRegularExists then "CourierPrime-Bold.ttf" else "Courier-Bold")
    else if face == "Mono-Oblique" then (if monoRegularExists then "CourierPrime-Italic.ttf" else "Courier-Oblique")
    else if face == "Mono-BoldOblique" then (if monoRegularExists then "CourierPrime-BoldItalic.ttf" else "Courier-BoldOblique")
    else if face == "Serif" then (if serifRegularExists then "Lora-Regular.ttf" else "Times-Roman")
    else if face == "Serif-Bold" then (if serifRegularExists then "Lora-Bold.ttf" else "Times-Bold")
    else if face == "Serif-Italic" then (if serifRegularExists then "Lora-Italic.ttf" else "Times-Italic")
    else (if serifRegularExists then "Lora-BoldItalic.ttf" else "Times-BoldItalic")
  }

  /**
   * `registerFonts`: each family's four faces come from the bundled files
   * when that family's Regular file exists, else from pdfkit's built-in
   * Courier or Times faces.
   */
  function RegisterFonts(monoRegularExists: bool, serifRegularExists: bool): (r: map<string, string>)
    ensures r.Keys == FACES
  {
    map face | face in FACES :: FaceSource(face, monoRegularExists, serifRegularExists)
  }

  const MONO_FACES: set<string> := {"Mono", "Mono-Bold", "Mono-Oblique", "Mono-BoldOblique"}

  /** A bundled font file, as opposed to a face built into pdfkit. */
  predicate IsFile(source: string) { |source| >= 4 && source[|source| - 4..] == ".ttf" }

  /** Every face the renderers ask for is registered. */
  lemma {:induction false} FontsCoverFaces(monoRegularExists: bool, serifRegularExists: bool, b: bool, i: bool, prefix: string)
    ensures Inline.FontFor(b, i, prefix) in RegisterFonts(monoRegularExists, serifRegularExists)
  {
    assert Inline.FontFor(b, i, prefix) in FACES;
  }

  /**
   * Within a family the four faces are either all bundled files or all
   * built in: only the Regular file's existence is consulted.
   */
  lemma {:induction false} FamilyAllOrNothing(monoRegularExists: bool, serifRegularExists: bool, face: string)
    requires face in FACES
    ensures IsFile(RegisterFonts(monoRegularExists, serifRegularExists)[face])
      <==> if face in MONO_FACES then monoRegularExists else serifRegularExists
  {
    var s := FaceSource(face, monoRegularExists, serifRegularExists);
    assert IsFile(s) <==> s[|s| - 1] == 'f';
  }
}
