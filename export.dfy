/**
 * `exportProject` and `exportSectionPDF` (src/backend/exporter.js:918-1076):
 * which sections are exported, what each exported section draws, the page
 * shown when nothing was exported, the footers, the document information
 * and the output path. The file system, `JSON.parse`, text measurement,
 * the user's preferences and the project-type lookup reach the model as
 * values in an `Env`.
 */
module Export {
  import opened Wrappers
  import opened Strings
  import opened Json
  import opened Draw
  import Markup
  import Screenplay
  import RichText
  import Records
  import TimelineRender
  import Labels

  /**
   * What the export reads from outside: `JSON.parse` (`None` when it
   * throws), the width of a string in the current font, the preferred
   * language and the bible locale tables, and the project type
   * `getProjectType` reports (`None` when it throws).
   */
  datatype Env = Env(
    parse: string -> Option<Json>,
    measure: string -> real,
    prefLanguage: Option<string>,
    locale: string -> seq<(string, string)>,
    detectedType: Option<string>)

  /** A section id and the text of `<id>.txt`, `None` when the file does not exist. */
  datatype Section = Section(id: string, file: Option<string>)

  /** The document: where it is written, its information dictionary, what is drawn, the footers. */
  datatype Pdf = Pdf(path: string, title: string, subject: string, cmds: seq<Cmd>, footers: seq<string>)

  /** `/^\s*[\[{]/.test(raw)`. */
  predicate LooksJson(raw: string) {
    var t := TrimStart(raw);
    t != [] && (t[0] == '[' || t[0] == '{')
  }

  /** The text looks like JSON exactly when its first non-blank character opens an array or an object. */
  lemma {:induction false} LooksJsonMeaning(raw: string)
    ensures LooksJson(raw) <==> exists i :: 0 <= i < |raw| && AllWs(raw[..i]) && (raw[i] == '[' || raw[i] == '{')
  {
    var t := TrimStart(raw);
    var k := |raw| - |t|;
    TrimStartSuffix(raw);
    TrimStartFacts(raw);
    if LooksJson(raw) {
      assert raw[k] == t[0];
    }
    if i :| 0 <= i < |raw| && AllWs(raw[..i]) && (raw[i] == '[' || raw[i] == '{') {
      assert t != [] && t[0] == raw[i];
    }
  }

  /** `mergeLabels(labels)`, then the detected project type's overrides when the labels name no type. */
  function ExportLabels(labels: Option<Labels.LabelsIn>, detectedType: Option<string>): Labels.Labels {
    var l := Labels.MergeLabels(labels);
    if l.projectType == "" && detectedType.Some? then Labels.ApplyProjectTypeOverrides(l, detectedType.value) else l
  }

  /** A missing file, or a section other than `scene` that neither looks like JSON nor has any plain text, is not exported. */
  predicate Skipped(s: Section) {
    s.file.None?
    || (s.id != "scene" && !LooksJson(s.file.value) && Trim(Markup.HtmlToPlainText(s.file.value)) == "")
  }

  /** A new page, the section's title centred in bold, some space, the body font. */
  function Heading(id: string, l: Labels.Labels): seq<Cmd> {
    [NewPage,
     Line(Labels.SectionLabel(id, l.sectionTitles), LEFT, WIDTH, AlignCenter, "Mono-Bold", 18.0),
     MoveDown(0.8),
     SetFont("Mono", 12.0)]
  }

  predicate IsRecordSection(id: string) {
    id == "personaggi" || id == "scaletta" || id == "bibbia"
  }

  /** What the body of a section draws, chosen by its id and whether it looks like JSON. */
  function BodyCmds(id: string, raw: string, l: Labels.Labels, env: Env): Result<seq<Cmd>> {
    if id == "scene" then Ok(Screenplay.RenderScene(raw))
    else if LooksJson(raw) && id == "timeline" then TimelineRender.TimelineCmds(env.parse(raw), l.lang)
    else if LooksJson(raw) && IsRecordSection(id) then
      var text := Records.JsonSectionToText(id, env.parse(raw), l, env.prefLanguage, env.locale);
      if text.Err? then Err(text.msg)
      else if Trim(text.value) != "" then Ok([Line(text.value, LEFT, WIDTH, AlignLeft, "Mono", 12.0)])
      else Ok([])
    else Ok(RichText.RichTextPages(raw, "Serif", env.measure))
  }

  function SectionCmds(id: string, raw: string, l: Labels.Labels, env: Env): Result<seq<Cmd>> {
    var body := BodyCmds(id, raw, l, env);
    if body.Err? then Err(body.msg) else Ok(Heading(id, l) + body.value)
  }

  /** The body of one section, by the renderers' own methods. */
  method RenderBody(id: string, raw: string, l: Labels.Labels, env: Env) returns (r: Result<seq<Cmd>>)
    ensures r == BodyCmds(id, raw, l, env)
  {
    if id == "scene" {
      r := Ok(Screenplay.RenderScene(raw));
    } else if LooksJson(raw) && id == "timeline" {
      r := TimelineRender.RenderTimeline(env.parse(raw), l.lang);
    } else if LooksJson(raw) && IsRecordSection(id) {
      var text := Records.JsonSectionToText(id, env.parse(raw), l, env.prefLanguage, env.locale);
      if text.Err? {
        return Err(text.msg);
      }
      r := Ok(if Trim(text.value) != "" then [Line(text.value, LEFT, WIDTH, AlignLeft, "Mono", 12.0)] else []);
    } else {
      var cmds := RichText.RenderRichTextPages(raw, "Serif", env.measure);
      r := Ok(cmds);
    }
  }

  /** The number of sections that are exported. */
  function Exported(secs: seq<Section>): nat {
    if secs == [] then 0 else Exported(secs[..|secs| - 1]) + (if Skipped(secs[|secs| - 1]) then 0 else 1)
  }

  /** What the sections draw, in order, or the first section's error. */
  function SectionsCmds(secs: seq<Section>, l: Labels.Labels, env: Env): Result<seq<Cmd>> {
    if secs == [] then Ok([])
    else
      var init := SectionsCmds(secs[..|secs| - 1], l, env);
      var s := secs[|secs| - 1];
      if init.Err? || Skipped(s) then init
      else
        var c := SectionCmds(s.id, s.file.value, l, env);
        if c.Err? then Err(c.msg) else Ok(init.value + c.value)
  }

  /** The page drawn when no section was exported. */
  function NothingPage(lang: string): seq<Cmd> {
    [NewPage, Line(if lang == "en" then "No content to export." else "Nessun contenuto da esportare.", LEFT, WIDTH, AlignLeft, "Mono", 14.0)]
  }

  /** `exportPath || path.join(projectPath, name)`. */
  function OutPath(exportPath: string, projectPath: string, name: string): string {
    if exportPath != "" then exportPath else projectPath + "/" + name
  }

  /** `applyPdfInfo`'s title: the given one, or 'Scriptum Export' for ''. */
  function InfoTitle(title: string): string {
    if title != "" then title else "Scriptum Export"
  }

  /** The footers `numberAllPages` draws on a document of `pages` pages. */
  function Footers(page: string, pages: nat): (r: seq<string>)
    ensures |r| == pages && forall i :: 0 <= i < pages ==> r[i] == Labels.FooterText(page, i + 1)
  {
    seq(pages, i requires 0 <= i < pages => Labels.FooterText(page, i + 1))
  }

  /** `exportProject`. */
  function ProjectPdf(projectName: string, projectPath: string, secs: seq<Section>, format: string,
                      exportPath: string, labels: Option<Labels.LabelsIn>, env: Env): Result<Pdf>
  {
    if format != "pdf" then Err("Formato non supportato.")
    else
      var l := ExportLabels(labels, env.detectedType);
      var body := SectionsCmds(secs, l, env);
      if body.Err? then Err(body.msg)
      else
        var cmds := body.value + (if Exported(secs) == 0 then NothingPage(l.lang) else []);
        Ok(Pdf(OutPath(exportPath, projectPath, "export_" + projectName + "." + format),
               InfoTitle(projectName), "Scriptum Export", cmds, Footers(l.page, RichText.Breaks(cmds))))
  }

  lemma {:induction false} SectionsSnoc(secs: seq<Section>, i: nat, l: Labels.Labels, env: Env)
    requires i < |secs|
    ensures var prev := SectionsCmds(secs[..i], l, env);
      var s := secs[i];
      SectionsCmds(secs[..i + 1], l, env)
        == if prev.Err? || Skipped(s) then prev
           else (var c := SectionCmds(s.id, s.file.value, l, env); if c.Err? then Err(c.msg) else Ok(prev.value + c.value))
    ensures Exported(secs[..i + 1]) == Exported(secs[..i]) + (if Skipped(secs[i]) then 0 else 1)
  {
    assert secs[..i + 1][..i] == secs[..i];
  }

  /** The section loop of `exportProject`, with `wroteAnything`. */
  method ExportSections(secs: seq<Section>, l: Labels.Labels, env: Env) returns (r: Result<seq<Cmd>>, wroteAnything: bool)
    ensures r == SectionsCmds(secs, l, env)
    ensures r.Ok? ==> (wroteAnything <==> Exported(secs) > 0)
  {
    var cmds: seq<Cmd> := [];
    wroteAnything := false;
    var i := 0;
    while i < |secs|
      invariant 0 <= i <= |secs|
      invariant SectionsCmds(secs[..i], l, env) == Ok(cmds)
      invariant wroteAnything <==> Exported(secs[..i]) > 0
    {
      SectionsSnoc(secs, i, l, env);
      var s := secs[i];
      if Skipped(s) {
        i := i + 1;
        continue;
      }
      var body := RenderBody(s.id, s.file.value, l, env);
      if body.Err? {
        r := Err(body.msg);
        ErrStays(secs, i + 1, l, env);
        return;
      }
      cmds := cmds + (Heading(s.id, l) + body.value);
      wroteAnything := true;
      i := i + 1;
    }
    assert secs[..i] == secs;
    r := Ok(cmds);
  }

  /** Once a section fails, the export fails with its error whatever follows. */
  lemma {:induction false} ErrStays(secs: seq<Section>, i: nat, l: Labels.Labels, env: Env)
    requires i <= |secs| && SectionsCmds(secs[..i], l, env).Err?
    ensures SectionsCmds(secs, l, env) == SectionsCmds(secs[..i], l, env)
    decreases |secs| - i
  {
    if i < |secs| {
      SectionsSnoc(secs, i, l, env);
      ErrStays(secs, i + 1, l, env);
    } else {
      assert secs[..i] == secs;
    }
  }

  /** `exportProject`, step by step. */
  method ExportProject(projectName: string, projectPath: string, secs: seq<Section>, format: string,
                       exportPath: string, labels: Option<Labels.LabelsIn>, env: Env) returns (r: Result<Pdf>)
    ensures format != "pdf" ==> r.Err?
    ensures r == ProjectPdf(projectName, projectPath, secs, format, exportPath, labels, env)
  {
    if format != "pdf" {
      return Err("Formato non supportato.");
    }
    var l := ExportLabels(labels, env.detectedType);
    var path := OutPath(exportPath, projectPath, "export_" + projectName + "." + format);
    var body, wroteAnything := ExportSections(secs, l, env);
    if body.Err? {
      return Err(body.msg);
    }
    var cmds := body.value + (if wroteAnything then [] else NothingPage(l.lang));
    var footers := Labels.NumberAllPages(l.page, RichText.Breaks(cmds));
    assert footers == Footers(l.page, RichText.Breaks(cmds));
    r := Ok(Pdf(path, InfoTitle(projectName), "Scriptum Export", cmds, footers));
  }

  /** `exportSectionPDF`: the section without the skip rule and without the empty-export page. */
  function SectionPdf(projectName: string, projectPath: string, s: Section, exportPath: string,
                      labels: Option<Labels.LabelsIn>, env: Env): (r: Result<Pdf>)
    ensures s.file.None? ==> r == Err("La sezione \"" + s.id + "\" non esiste.")
    ensures r.Ok? ==> |r.value.footers| == RichText.Breaks(r.value.cmds) >= 1
  {
    var l := ExportLabels(labels, env.detectedType);
    if s.file.None? then Err("La sezione \"" + s.id + "\" non esiste.")
    else
      var c := SectionCmds(s.id, s.file.value, l, env);
      if c.Err? then Err(c.msg)
      else
        HeadingBreaks(s.id, l, BodyCmds(s.id, s.file.value, l, env).value);
        Ok(Pdf(OutPath(exportPath, projectPath, s.id + "_export.pdf"),
               InfoTitle(projectName + " — " + Labels.SectionLabel(s.id, l.sectionTitles)),
               "Scriptum Export (Section)", c.value, Footers(l.page, RichText.Breaks(c.value))))
  }

  // ---------------------------------------------------------------- properties

  lemma {:induction false} HeadingBreaks(id: string, l: Labels.Labels, body: seq<Cmd>)
    ensures RichText.Breaks(Heading(id, l) + body) == 1 + RichText.Breaks(body)
  {
    var h := Heading(id, l);
    assert h[1..] == [h[1], h[2], h[3]];
    BreakFirst(h, body);
  }

  /** Commands that open with the only page break among them add one break. */
  lemma {:induction false} BreakFirst(h: seq<Cmd>, body: seq<Cmd>)
    requires |h| > 0 && h[0].NewPage? && forall c :: c in h[1..] ==> !c.NewPage?
    ensures RichText.Breaks(h + body) == 1 + RichText.Breaks(body)
  {
    assert (h + body)[1..] == h[1..] + body;
    RichText.BreaksAppend(h[1..], body);
    RichText.NoBreaks(h[1..]);
  }

  /** Every exported section starts on a page of its own, and draws at least its four heading commands. */
  lemma {:induction false} SectionsPages(secs: seq<Section>, l: Labels.Labels, env: Env)
    requires SectionsCmds(secs, l, env).Ok?
    ensures RichText.Breaks(SectionsCmds(secs, l, env).value) >= Exported(secs)
    ensures |SectionsCmds(secs, l, env).value| >= 4 * Exported(secs)
  {
    if secs != [] {
      var init := secs[..|secs| - 1];
      var s := secs[|secs| - 1];
      SectionsPages(init, l, env);
      if !Skipped(s) {
        var body := BodyCmds(s.id, s.file.value, l, env);
        HeadingBreaks(s.id, l, body.value);
        RichText.BreaksAppend(SectionsCmds(init, l, env).value, Heading(s.id, l) + body.value);
      }
    }
  }

  /** A project export that succeeds has at least one page, and numbers every page from 1. */
  lemma {:induction false} ProjectFooters(projectName: string, projectPath: string, secs: seq<Section>, format: string,
                       exportPath: string, labels: Option<Labels.LabelsIn>, env: Env)
    requires ProjectPdf(projectName, projectPath, secs, format, exportPath, labels, env).Ok?
    ensures var pdf := ProjectPdf(projectName, projectPath, secs, format, exportPath, labels, env).value;
      var l := ExportLabels(labels, env.detectedType);
      && |pdf.footers| == RichText.Breaks(pdf.cmds) >= 1
      && (forall i :: 0 <= i < |pdf.footers| ==> pdf.footers[i] == l.page + " " + NatToString(i + 1))
  {
    var l := ExportLabels(labels, env.detectedType);
    var body := SectionsCmds(secs, l, env).value;
    SectionsPages(secs, l, env);
    var tail := if Exported(secs) == 0 then NothingPage(l.lang) else [];
    RichText.BreaksAppend(body, tail);
    if Exported(secs) == 0 {
      assert RichText.Breaks(NothingPage(l.lang)[1..][1..]) == 0;
    }
  }

  /**
   * The "nothing to export" page is drawn exactly when every section was
   * skipped, and then it is all that is drawn.
   */
  lemma {:induction false} NothingPageWhenAllSkipped(projectName: string, projectPath: string, secs: seq<Section>, format: string,
                                  exportPath: string, labels: Option<Labels.LabelsIn>, env: Env)
    requires ProjectPdf(projectName, projectPath, secs, format, exportPath, labels, env).Ok?
    ensures var pdf := ProjectPdf(projectName, projectPath, secs, format, exportPath, labels, env).value;
      var l := ExportLabels(labels, env.detectedType);
      pdf.cmds == NothingPage(l.lang) <==> forall i :: 0 <= i < |secs| ==> Skipped(secs[i])
  {
    var l := ExportLabels(labels, env.detectedType);
    SectionsPages(secs, l, env);
    AllSkipped(secs);
    if Exported(secs) == 0 {
      NoneExportedEmpty(secs, l, env);
      assert [] + NothingPage(l.lang) == NothingPage(l.lang);
    } else {
      var body := SectionsCmds(secs, l, env).value;
      assert body + [] == body;
    }
  }

  /** No section was exported exactly when every section was skipped. */
  lemma {:induction false} AllSkipped(secs: seq<Section>)
    ensures Exported(secs) == 0 <==> forall i :: 0 <= i < |secs| ==> Skipped(secs[i])
  {
    if secs != [] {
      var init := secs[..|secs| - 1];
      AllSkipped(init);
      if Exported(secs) == 0 {
        forall i | 0 <= i < |secs| ensures Skipped(secs[i]) {
          if i < |init| {
            assert init[i] == secs[i];
          }
        }
      }
    }
  }

  lemma {:induction false} NoneExportedEmpty(secs: seq<Section>, l: Labels.Labels, env: Env)
    requires Exported(secs) == 0
    ensures SectionsCmds(secs, l, env) == Ok([])
  {
    if secs != [] {
      NoneExportedEmpty(secs[..|secs| - 1], l, env);
    }
  }

  /**
   * Exporting one section on its own draws what the project export draws
   * for a project made of that section alone when that section is not
   * skipped; the two fail with the same error.
   */
  lemma {:induction false} SingleSectionAgrees(projectName: string, projectPath: string, s: Section,
                            exportPath: string, labels: Option<Labels.LabelsIn>, env: Env)
    requires !Skipped(s)
    ensures var one := SectionPdf(projectName, projectPath, s, exportPath, labels, env);
      var all := ProjectPdf(projectName, projectPath, [s], "pdf", exportPath, labels, env);
      && (one.Ok? <==> all.Ok?)
      && (one.Err? ==> one.msg == all.msg)
      && (one.Ok? ==> one.value.cmds == all.value.cmds && one.value.footers == all.value.footers)
  {
    var l := ExportLabels(labels, env.detectedType);
    OneSection(s, l, env);
  }

  /** A project of one section that is not skipped draws what the section draws, or fails with its error. */
  lemma {:induction false} OneSection(s: Section, l: Labels.Labels, env: Env)
    requires !Skipped(s)
    ensures Exported([s]) == 1
    ensures var c := SectionCmds(s.id, s.file.value, l, env);
      SectionsCmds([s], l, env) == if c.Err? then Err(c.msg) else Ok(c.value)
  {
    assert [s][..0] == [];
    var c := SectionCmds(s.id, s.file.value, l, env);
    if c.Ok? {
      assert [] + c.value == c.value;
    }
  }

}
