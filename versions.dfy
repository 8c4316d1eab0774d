/**
 * Project snapshots (src/backend/versionsManager.js). A snapshot is a JSON
 * file in the project's `.versions` folder named `<ts>.json` or
 * `<ts>__<slug>.json`, where `<ts>` is the creation time in milliseconds
 * and `<slug>` a file-name form of the snapshot's label. The folder is
 * modelled as a map from file names to snapshots, the project folder as a
 * map from file names to contents, and Unicode NFKD normalisation as a
 * function passed in.
 */
module Versions {
  import opened Wrappers
  import opened Strings
  import opened Sorting

  const SLUG_MAX := 60
  const NOT_FOUND := "Versione non trovata"

  /* ---------- slugify ---------- */

  /** The characters `replace(/[^\w\s-]/g, '')` keeps. */
  predicate KeptChar(c: char) {
    IsWordChar(c) || IsWs(c) || c == '-'
  }

  /** The characters a slug is made of. */
  predicate SlugChar(c: char) {
    ('a' <= c <= 'z') || IsDigit(c) || c == '_' || c == '-'
  }

  predicate IsSlug(s: string) {
    |s| <= SLUG_MAX && forall i :: 0 <= i < |s| ==> SlugChar(s[i])
  }

  /** `replace(/[^\w\s-]/g, '')`. */
  function KeepSlugChars(s: string): string {
    if s == [] then []
    else (if KeptChar(s[0]) then [s[0]] else []) + KeepSlugChars(s[1..])
  }

  /** The filter keeps only kept characters, and leaves a text of kept characters alone. */
  lemma {:induction false} KeepShape(s: string)
    ensures forall i :: 0 <= i < |KeepSlugChars(s)| ==> KeptChar(KeepSlugChars(s)[i])
    ensures (forall i :: 0 <= i < |s| ==> KeptChar(s[i])) ==> KeepSlugChars(s) == s
  {
    if s != [] {
      KeepShape(s[1..]);
    }
  }

  /** A character that may survive white-space conversion: a word character or a dash. */
  predicate DashOrWord(c: char) {
    IsWordChar(c) || c == '-'
  }

  /** `replace(/\s+/g, '-')`. */
  function DashRuns(s: string): string {
    CollapseWs(s, '-')
  }

  /** From kept characters the conversion makes only word characters and dashes. */
  lemma {:induction false} DashRunsWordOut(s: string)
    requires forall i :: 0 <= i < |s| ==> KeptChar(s[i])
    ensures forall i :: 0 <= i < |CollapseWs(s, '-')| ==> DashOrWord(CollapseWs(s, '-')[i])
    decreases |s|
  {
    if s == [] {
    } else if IsWs(s[0]) {
      var t := TrimStart(s);
      TrimStartFacts(s);
      DashRunsWordOut(t);
    } else {
      DashRunsWordOut(s[1..]);
    }
  }

  /** `slice(0, n)`. */
  function Take(s: string, n: nat): (r: string)
    ensures |r| <= n && |r| <= |s| && r == s[..|r|]
    ensures |s| <= n ==> r == s
  {
    if |s| <= n then s else s[..n]
  }

  /** `slugify(s)`: NFKD, strip the characters that are not word characters, white space or dashes, trim, turn white-space runs into dashes, keep 60 characters, lower-case. */
  function Slugify(nfkd: string -> string, s: string): string {
    ToLower(Take(DashRuns(Trim(KeepSlugChars(nfkd(s)))), SLUG_MAX))
  }

  /** A slug is at most 60 characters of `a`-`z`, `0`-`9`, `_` and `-`. */
  lemma {:induction false} SlugifyShape(nfkd: string -> string, s: string)
    ensures IsSlug(Slugify(nfkd, s))
  {
    var kept := KeepSlugChars(nfkd(s));
    KeepShape(nfkd(s));
    var trimmed := Trim(kept);
    TrimKept(kept);
    DashRunsWordOut(trimmed);
    var cut := Take(DashRuns(trimmed), SLUG_MAX);
    forall i | 0 <= i < |cut| ensures DashOrWord(cut[i]) {
      assert cut[i] == DashRuns(trimmed)[i];
    }
    LowerSlug(cut);
  }

  /** Trimming keeps only characters that were there. */
  lemma {:induction false} TrimKept(kept: string)
    requires forall i :: 0 <= i < |kept| ==> KeptChar(kept[i])
    ensures forall i :: 0 <= i < |Trim(kept)| ==> KeptChar(Trim(kept)[i])
  {
    var t := Trim(kept);
    var a := TrimPart(kept);
    forall i | 0 <= i < |t| ensures KeptChar(t[i]) {
      assert t[i] == kept[a + i];
    }
  }

  /** Lower-casing word characters and dashes gives slug characters. */
  lemma {:induction false} LowerSlug(cut: string)
    requires |cut| <= SLUG_MAX && forall i :: 0 <= i < |cut| ==> DashOrWord(cut[i])
    ensures IsSlug(ToLower(cut))
  {
    forall i | 0 <= i < |cut| ensures SlugChar(ToLower(cut)[i]) {
      assert ToLower(cut)[i] == LowerChar(cut[i]);
    }
  }

  /** Lower-casing leaves a slug alone. */
  lemma {:induction false} SlugLower(r: string)
    requires IsSlug(r)
    ensures ToLower(r) == r
  {
    forall i | 0 <= i < |r| ensures ToLower(r)[i] == r[i] {
      assert SlugChar(r[i]);
    }
  }

  /** A white-space run between two non-space characters becomes exactly one dash. */
  lemma {:induction false} DashRunsSplit(x: string, w: string, y: string)
    requires x == [] || !IsWs(x[|x| - 1])
    requires w != [] && AllWs(w)
    requires y == [] || !IsWs(y[0])
    ensures DashRuns(x + w + y) == DashRuns(x) + "-" + DashRuns(y)
  {
    CollapseWsSplit(x, w, y, '-');
  }

  /** A slug whose normalisation leaves it alone is its own slug. */
  lemma {:induction false} SlugifyIdempotent(nfkd: string -> string, s: string)
    requires nfkd(Slugify(nfkd, s)) == Slugify(nfkd, s)
    ensures Slugify(nfkd, Slugify(nfkd, s)) == Slugify(nfkd, s)
  {
    var r := Slugify(nfkd, s);
    SlugifyShape(nfkd, s);
    SlugFixed(r);
  }

  /** Every step of `slugify` after NFKD leaves a slug alone. */
  lemma {:induction false} SlugFixed(r: string)
    requires IsSlug(r)
    ensures ToLower(Take(DashRuns(Trim(KeepSlugChars(r))), SLUG_MAX)) == r
  {
    CleanTextKept(r);
    assert Take(r, SLUG_MAX) == r;
    SlugLower(r);
  }

  /* ---------- version ids ---------- */

  /** The file name for a time and a slug. */
  function VersionFile(ts: nat, slug: string): (r: string)
    ensures EndsWith(r, ".json")
  {
    if slug != [] then NatToString(ts) + "__" + slug + ".json" else NatToString(ts) + ".json"
  }

  /** `makeVersionId(ts, label)`. */
  function MakeVersionId(nfkd: string -> string, ts: nat, labelText: string): string {
    VersionFile(ts, Slugify(nfkd, labelText))
  }

  /** What `parseVersionId` gives: the timestamp (`null` as `None`) and the label. */
  datatype VersionName = VersionName(ts: Option<nat>, labelText: string)

  predicate AllDigits(s: string) {
    forall i :: 0 <= i < |s| ==> IsDigit(s[i])
  }

  predicate NoDot(s: string) {
    forall i :: 0 <= i < |s| ==> s[i] != '.'
  }

  /** `replace(/-/g, ' ')`. */
  function DashesToSpaces(s: string): (r: string)
    ensures |r| == |s|
    ensures forall i :: 0 <= i < |s| ==> r[i] == if s[i] == '-' then ' ' else s[i]
  {
    seq(|s|, i requires 0 <= i < |s| => if s[i] == '-' then ' ' else s[i])
  }

  /**
   * The regular expression `^(\d{13})(?:__([^.]+))?\.json$` matches `id`
   * with `x` as its second group (empty when the group does not take part).
   */
  predicate VersionMatch(id: string, x: string) {
    |id| >= 13 && AllDigits(id[..13])
    && ((x == [] && id == id[..13] + ".json") || (x != [] && NoDot(x) && id == id[..13] + "__" + x + ".json"))
  }

  /** `parseVersionId(id)`. */
  function ParseVersionId(id: string): VersionName {
    if |id| >= 18 && AllDigits(id[..13]) && id[|id| - 5..] == ".json" then
      var mid := id[13..|id| - 5];
      if mid == [] then VersionName(Some(DigitsValue(id[..13])), "")
      else if |mid| >= 3 && mid[..2] == "__" && NoDot(mid[2..]) then VersionName(Some(DigitsValue(id[..13])), DashesToSpaces(mid[2..]))
      else VersionName(None, "")
    else VersionName(None, "")
  }

  /**
   * `parseVersionId` finds a timestamp exactly when the pattern matches;
   * then the timestamp is the value of the 13 digits and the label the
   * second group with dashes turned into spaces; otherwise the label is
   * empty.
   */
  lemma {:induction false} ParseVersionIdMeaning(id: string)
    ensures ParseVersionId(id).ts.Some? <==> exists x :: VersionMatch(id, x)
    ensures forall x :: VersionMatch(id, x) ==> ParseVersionId(id) == VersionName(Some(DigitsValue(id[..13])), DashesToSpaces(x))
    ensures ParseVersionId(id).ts.None? ==> ParseVersionId(id).labelText == ""
  {
    if ParseVersionId(id).ts.Some? {
      var x := ParsedMatch(id);
    }
    forall x | VersionMatch(id, x) ensures ParseVersionId(id) == VersionName(Some(DigitsValue(id[..13])), DashesToSpaces(x)) {
      MatchParses(id, x);
    }
  }

  /** A name `parseVersionId` reads a time from matches the pattern. */
  lemma {:induction false} ParsedMatch(id: string) returns (x: string)
    requires ParseVersionId(id).ts.Some?
    ensures VersionMatch(id, x)
  {
    var d, mid := id[..13], id[13..|id| - 5];
    SliceJoin3(id, 13, |id| - 5);
    if mid == [] {
      x := [];
    } else {
      x := mid[2..];
      SliceJoin3(mid, 0, 2);
      assert mid[..0] == [];
      Assoc(d, "__", x);
    }
  }

  /** A name matching the pattern parses to its time and its label. */
  lemma {:induction false} MatchParses(id: string, x: string)
    requires VersionMatch(id, x)
    ensures ParseVersionId(id) == VersionName(Some(DigitsValue(id[..13])), DashesToSpaces(x))
  {
    MatchParts(id, x);
    if x != [] {
      var mid := id[13..|id| - 5];
      assert mid[..2] == "__" && mid[2..] == x;
    }
  }

  lemma {:induction false} MatchParts(id: string, x: string)
    requires VersionMatch(id, x)
    ensures |id| >= 18 && id[|id| - 5..] == ".json"
    ensures x == [] ==> id[13..|id| - 5] == []
    ensures x != [] ==> id[13..|id| - 5] == "__" + x
  {
    if x == [] {
      assert id[13..] == ".json";
    } else {
      var d := id[..13];
      assert id[|id| - 5..] == (d + "__" + x + ".json")[|id| - 5..];
      assert id[13..|id| - 5] == (d + "__" + x + ".json")[13..|id| - 5];
    }
  }

  /** For a 13-digit time the file name of a slug parses back to the time and the slug with spaces for dashes. */
  lemma {:induction false} ParseVersionFile(ts: nat, slug: string)
    requires Pow10(12) <= ts < Pow10(13)
    requires IsSlug(slug)
    ensures ParseVersionId(VersionFile(ts, slug)) == VersionName(Some(ts), DashesToSpaces(slug))
  {
    var stamp := NatToString(ts);
    var id := VersionFile(ts, slug);
    NatToStringLength(ts, 13);
    DigitsValueOfNat(ts);
    assert NoDot(slug);
    assert id[..13] == stamp;
    assert VersionMatch(id, slug);
    ParseVersionIdMeaning(id);
  }

  /**
   * For a 13-digit timestamp the id `makeVersionId` builds parses back to
   * the timestamp and to the slug with its dashes turned into spaces.
   */
  lemma {:induction false} ParseMade(nfkd: string -> string, ts: nat, labelText: string)
    requires Pow10(12) <= ts < Pow10(13)
    ensures ParseVersionId(MakeVersionId(nfkd, ts, labelText)) == VersionName(Some(ts), DashesToSpaces(Slugify(nfkd, labelText)))
  {
    SlugifyShape(nfkd, labelText);
    ParseVersionFile(ts, Slugify(nfkd, labelText));
  }

  /* ---------- listVersions ---------- */

  /** What `stat` reports of a file: its size in bytes and its modification time in milliseconds. */
  datatype Stat = Stat(size: nat, mtime: int)

  /** One entry of `listVersions`' result. */
  datatype VersionItem = VersionItem(id: string, createdAt: int, labelText: string, size: nat, sizeHuman: string)

  /** The name passes `/\.json$/i`. */
  predicate IsJsonName(f: string) {
    |f| >= 5 && forall i :: 0 <= i < 5 ==> EqI(f[|f| - 5 + i], ".json"[i])
  }

  /** `Math.max(1, Math.round(size / 1024))`. */
  function Kilobytes(size: nat): nat {
    if (size + 512) / 1024 < 1 then 1 else (size + 512) / 1024
  }

  /** The size is at least one kilobyte and otherwise the nearest whole number of kilobytes, halves rounded up. */
  lemma {:induction false} KilobytesMeaning(size: nat)
    ensures Kilobytes(size) >= 1
    ensures size < 512 ==> Kilobytes(size) == 1
    ensures size >= 512 ==> 1024 * Kilobytes(size) - 512 <= size < 1024 * Kilobytes(size) + 512
  {
  }

  function SizeHuman(size: nat): string {
    NatToString(Kilobytes(size)) + " KB"
  }

  /** The entry for file `f`: dated by the name's timestamp when it has a non-zero one, by the modification time otherwise. */
  function Row(f: string, st: Stat): VersionItem {
    var p := ParseVersionId(f);
    VersionItem(f, if p.ts.Some? && p.ts.value != 0 then p.ts.value else st.mtime, p.labelText, st.size, SizeHuman(st.size))
  }

  /** The entries the `for` loop of `listVersions` pushes for the folder entries `files`, in their order. */
  function ListedVersions(stats: map<string, Stat>, files: seq<string>): seq<VersionItem> {
    if files == [] then []
    else
      var f := files[|files| - 1];
      ListedVersions(stats, files[..|files| - 1])
      + (if IsJsonName(f) && f in stats then [Row(f, stats[f])] else [])
  }

  function NewestFirst(x: VersionItem): int { -x.createdAt }

  /** `listVersions()` for a folder whose `readdir` gives `files` and whose `stat` gives `stats`. */
  method ListVersions(stats: map<string, Stat>, files: seq<string>) returns (items: seq<VersionItem>)
    ensures items == SortBy(ListedVersions(stats, files), NewestFirst)
  {
    items := [];
    for i := 0 to |files|
      invariant items == ListedVersions(stats, files[..i])
    {
      var f := files[i];
      assert files[..i + 1][..i] == files[..i];
      if IsJsonName(f) && f in stats {
        var st := stats[f];
        var p := ParseVersionId(f);
        items := items + [VersionItem(f, if p.ts.Some? && p.ts.value != 0 then p.ts.value else st.mtime, p.labelText, st.size, SizeHuman(st.size))];
      }
    }
    assert files[..|files|] == files;
    items := SortBy(items, NewestFirst);
  }

  /** The entries are the `.json` names that `stat` answers for, each once per name, with the row built from the name and the stat. */
  lemma {:induction false} ListedVersionsMeaning(stats: map<string, Stat>, files: seq<string>, x: VersionItem)
    ensures x in ListedVersions(stats, files) <==>
      x.id in files && IsJsonName(x.id) && x.id in stats && x == Row(x.id, stats[x.id])
  {
    if files != [] {
      ListedVersionsMeaning(stats, files[..|files| - 1], x);
      assert files == files[..|files| - 1] + [files[|files| - 1]];
    }
  }

  /** The list is newest first and holds exactly the listed entries. */
  lemma {:induction false} VersionOrder(stats: map<string, Stat>, files: seq<string>)
    ensures forall i, j :: 0 <= i < j < |SortBy(ListedVersions(stats, files), NewestFirst)| ==>
      SortBy(ListedVersions(stats, files), NewestFirst)[i].createdAt >= SortBy(ListedVersions(stats, files), NewestFirst)[j].createdAt
    ensures forall x :: x in SortBy(ListedVersions(stats, files), NewestFirst) <==> x in ListedVersions(stats, files)
  {
    var l := ListedVersions(stats, files);
    var s := SortBy(l, NewestFirst);
    forall i, j | 0 <= i < j < |s| ensures s[i].createdAt >= s[j].createdAt {
      assert NewestFirst(s[i]) <= NewestFirst(s[j]);
    }
    forall x ensures x in s <==> x in l {
      assert x in s <==> x in multiset(s);
      assert x in l <==> x in multiset(l);
    }
  }

  /** A name that does not follow the pattern is dated by its modification time and has no label. */
  lemma {:induction false} UnmatchedUsesMtime(f: string, st: Stat)
    requires forall x :: !VersionMatch(f, x)
    ensures Row(f, st).createdAt == st.mtime && Row(f, st).labelText == ""
  {
    ParseVersionIdMeaning(f);
  }

  /* ---------- sections, createVersion and restoreVersion ---------- */

  /** A snapshot file: its label, its creation time (0 when absent) and the section texts. */
  datatype Snapshot = Snapshot(labelText: string, createdAt: nat, sections: map<string, string>)

  /** The section names of the project folder's `.txt` files. */
  function SectionNames(files: map<string, string>): set<string> {
    set n | n in files && EndsWith(n, ".txt") :: n[..|n| - 4]
  }

  /** `readAllSections`: every `.txt` file of the project folder, by section name. */
  function ReadAllSections(files: map<string, string>): map<string, string> {
    map s | s in SectionNames(files) && s + ".txt" in files :: files[s + ".txt"]
  }

  /** The section a file name holds, if it is a `.txt` name. */
  function SectionOf(n: string): Option<string> {
    if EndsWith(n, ".txt") then Some(n[..|n| - 4]) else None
  }

  /** `writeAllSections`: each section written to its `.txt` file, other files left as they are. */
  function WriteAllSections(files: map<string, string>, sections: map<string, string>): map<string, string> {
    map n | n in files.Keys + (set s | s in sections :: s + ".txt") ::
      if SectionOf(n).Some? && SectionOf(n).value in sections then sections[SectionOf(n).value]
      else if n in files then files[n] else ""
  }

  /** Restoring a snapshot of the folder's own sections gives the folder back unchanged. */
  lemma {:induction false} RestoreOwnSnapshot(files: map<string, string>)
    ensures WriteAllSections(files, ReadAllSections(files)) == files
  {
    var r := ReadAllSections(files);
    var w := WriteAllSections(files, r);
    forall n | n in w ensures n in files && w[n] == files[n] {
      if SectionOf(n).Some? && SectionOf(n).value in r {
        var s := SectionOf(n).value;
        assert n == s + ".txt";
      }
    }
  }

  /** After a restore, reading the sections gives the restored texts, and sections the snapshot lacks keep their files. */
  lemma {:induction false} ReadAfterWrite(files: map<string, string>, sections: map<string, string>)
    ensures forall s :: s in sections ==>
      (s in ReadAllSections(WriteAllSections(files, sections)) && ReadAllSections(WriteAllSections(files, sections))[s] == sections[s])
    ensures forall s :: s in ReadAllSections(files) && s !in sections ==>
      s in ReadAllSections(WriteAllSections(files, sections)) && ReadAllSections(WriteAllSections(files, sections))[s] == ReadAllSections(files)[s]
  {
    forall s | s in sections
      ensures s in ReadAllSections(WriteAllSections(files, sections)) && ReadAllSections(WriteAllSections(files, sections))[s] == sections[s]
    {
      WrittenReads(files, sections, s);
    }
    forall s | s in ReadAllSections(files) && s !in sections
      ensures s in ReadAllSections(WriteAllSections(files, sections)) && ReadAllSections(WriteAllSections(files, sections))[s] == ReadAllSections(files)[s]
    {
      UnwrittenReads(files, sections, s);
    }
  }

  /** A section of the snapshot reads back as written. */
  lemma {:induction false} WrittenReads(files: map<string, string>, sections: map<string, string>, s: string)
    requires s in sections
    ensures s in ReadAllSections(WriteAllSections(files, sections)) && ReadAllSections(WriteAllSections(files, sections))[s] == sections[s]
  {
    var w := WriteAllSections(files, sections);
    var n := s + ".txt";
    assert n[..|n| - 4] == s;
    assert SectionOf(n) == Some(s);
    assert n in w && w[n] == sections[s];
    assert s in SectionNames(w);
  }

  /** A section the snapshot lacks keeps its text. */
  lemma {:induction false} UnwrittenReads(files: map<string, string>, sections: map<string, string>, s: string)
    requires s in ReadAllSections(files) && s !in sections
    ensures s in ReadAllSections(WriteAllSections(files, sections)) && ReadAllSections(WriteAllSections(files, sections))[s] == ReadAllSections(files)[s]
  {
    var w := WriteAllSections(files, sections);
    var n := s + ".txt";
    assert n[..|n| - 4] == s;
    assert SectionOf(n) == Some(s);
    assert n in files && n in w && w[n] == files[n];
    assert s in SectionNames(w);
  }

  /**
   * `restoreVersion(projectId, versionId)`: the project folder with the
   * snapshot's sections written back; a missing snapshot is an error. Every
   * section of the snapshot then reads back as stored, and sections the
   * snapshot lacks keep their text.
   */
  function RestoreVersion(versions: map<string, Snapshot>, files: map<string, string>, versionId: string): (r: Result<map<string, string>>)
    ensures r.Err? <==> versionId !in versions
    ensures r.Ok? ==> forall s :: s in versions[versionId].sections ==>
      s in ReadAllSections(r.value) && ReadAllSections(r.value)[s] == versions[versionId].sections[s]
    ensures r.Ok? ==> forall s :: s in ReadAllSections(files) && s !in versions[versionId].sections ==>
      s in ReadAllSections(r.value) && ReadAllSections(r.value)[s] == ReadAllSections(files)[s]
  {
    if versionId !in versions then Err(NOT_FOUND)
    else
      ReadAfterWrite(files, versions[versionId].sections);
      Ok(WriteAllSections(files, versions[versionId].sections))
  }

  /** `deleteVersion(projectId, versionId)`: the file goes, if it was there. */
  function DeleteVersion(versions: map<string, Snapshot>, versionId: string): map<string, Snapshot> {
    versions - {versionId}
  }

  /** What `createVersion` returns. */
  datatype Created = Created(id: string, createdAt: nat, labelText: string, versions: map<string, Snapshot>)

  /** `createVersion(projectId, label)` at time `now`: the snapshot of every section under the id made from the time and the label. */
  function CreateVersion(nfkd: string -> string, versions: map<string, Snapshot>, files: map<string, string>, labelText: string, now: nat): (r: Created)
    ensures r.versions.Keys == versions.Keys + {MakeVersionId(nfkd, now, labelText)}
  {
    var id := MakeVersionId(nfkd, now, labelText);
    Created(id, now, labelText, versions[id := Snapshot(labelText, now, ReadAllSections(files))])
  }

  /** Restoring the snapshot just taken leaves the project's sections as they were. */
  lemma {:induction false} RestoreCreated(nfkd: string -> string, versions: map<string, Snapshot>, files: map<string, string>, labelText: string, now: nat)
    ensures var c := CreateVersion(nfkd, versions, files, labelText, now);
      RestoreVersion(c.versions, files, c.id) == Ok(files)
  {
    RestoreOwnSnapshot(files);
  }

  /** Deleting the snapshot just taken, under a fresh id, gives the old list back. */
  lemma {:induction false} DeleteCreated(nfkd: string -> string, versions: map<string, Snapshot>, files: map<string, string>, labelText: string, now: nat)
    requires MakeVersionId(nfkd, now, labelText) !in versions
    ensures var c := CreateVersion(nfkd, versions, files, labelText, now);
      DeleteVersion(c.versions, c.id) == versions
  {
  }

  /** A snapshot taken at a 13-digit time is listed under that time and the slug of its label. */
  lemma {:induction false} CreatedIsListed(nfkd: string -> string, versions: map<string, Snapshot>, files: map<string, string>, labelText: string, now: nat, st: Stat)
    requires Pow10(12) <= now < Pow10(13)
    ensures Row(CreateVersion(nfkd, versions, files, labelText, now).id, st).createdAt == now
    ensures Row(CreateVersion(nfkd, versions, files, labelText, now).id, st).labelText == DashesToSpaces(Slugify(nfkd, labelText))
    ensures IsJsonName(CreateVersion(nfkd, versions, files, labelText, now).id)
  {
    ParseMade(nfkd, now, labelText);
    var id := MakeVersionId(nfkd, now, labelText);
    assert id[|id| - 5..] == ".json";
  }

  /* ---------- renameVersion ---------- */

  /** `ts || data.createdAt || Date.now()`. */
  function BaseTime(ts: Option<nat>, createdAt: nat, now: nat): nat {
    if ts.Some? && ts.value != 0 then ts.value else if createdAt != 0 then createdAt else now
  }

  /**
   * The collision loop of `renameVersion`: starting from `first`, while the
   * current name is taken, try `cand(2)`, `cand(3)`, … It ends only if some
   * candidate is free, which its caller must show.
   */
  method FirstFree(taken: set<string>, first: string, cand: nat -> string) returns (id: string)
    requires first in taken ==> exists k: nat :: k >= 2 && cand(k) !in taken
    ensures id !in taken
    ensures first !in taken ==> id == first
    ensures first in taken ==> exists n: nat :: n >= 2 && id == cand(n) && forall j: nat :: 2 <= j < n ==> cand(j) in taken
  {
    id := first;
    if id in taken {
      ghost var k: nat :| k >= 2 && cand(k) !in taken;
      var i: nat := 2;
      while id in taken
        invariant 2 <= i <= k + 1
        invariant i == 2 ==> id == first
        invariant i > 2 ==> id == cand(i - 1)
        invariant forall j: nat :: 2 <= j < i - 1 ==> cand(j) in taken
        invariant id in taken ==> forall j: nat :: 2 <= j < i ==> cand(j) in taken
        decreases k + 1 - i
      {
        id := cand(i);
        i := i + 1;
      }
    }
  }

  /** The candidate `renameVersion` tries at step `i`: the id of the label with `-i` appended. */
  function Candidate(nfkd: string -> string, base: nat, newLabel: string, i: nat): string {
    MakeVersionId(nfkd, base, newLabel + "-" + NatToString(i))
  }

  /** The candidate with the counter after the cut slug, so that it survives the 60-character limit. */
  function FixedCandidate(nfkd: string -> string, base: nat, newLabel: string, i: nat): string {
    NatToString(base) + "__" + Slugify(nfkd, newLabel) + "-" + NatToString(i) + ".json"
  }

  /** What `renameVersion` returns, with the folder after the rename. */
  datatype Renamed = Renamed(id: string, labelText: string, versions: map<string, Snapshot>)

  /**
   * `renameVersion(versionId, newLabel)` as written, at time `now`: when the
   * plain target id is taken, it needs some candidate to be free to finish.
   */
  method RenameVersionAsWritten(nfkd: string -> string, versions: map<string, Snapshot>, versionId: string, newLabel: string, now: nat)
    returns (r: Result<Renamed>)
    requires versionId in versions ==>
      var base := BaseTime(ParseVersionId(versionId).ts, versions[versionId].createdAt, now);
      MakeVersionId(nfkd, base, newLabel) in versions ==>
      exists k: nat :: k >= 2 && Candidate(nfkd, base, newLabel, k) !in versions
    ensures versionId !in versions ==> r == Err(NOT_FOUND)
    ensures versionId in versions ==>
      (r.Ok? && r.value.id !in versions && r.value.labelText == newLabel
       && r.value.versions == (versions - {versionId})[r.value.id := versions[versionId].(labelText := newLabel)])
    ensures versionId in versions ==>
      var base := BaseTime(ParseVersionId(versionId).ts, versions[versionId].createdAt, now);
      (MakeVersionId(nfkd, base, newLabel) !in versions ==> r.value.id == MakeVersionId(nfkd, base, newLabel))
      && (MakeVersionId(nfkd, base, newLabel) in versions ==>
        exists n: nat :: n >= 2 && r.value.id == Candidate(nfkd, base, newLabel, n)
          && forall j: nat :: 2 <= j < n ==> Candidate(nfkd, base, newLabel, j) in versions)
  {
    if versionId !in versions {
      return Err(NOT_FOUND);
    }
    var data := versions[versionId];
    var base := BaseTime(ParseVersionId(versionId).ts, data.createdAt, now);
    var cand := (i: nat) => Candidate(nfkd, base, newLabel, i);
    var first := MakeVersionId(nfkd, base, newLabel);
    if first in versions {
      ghost var k: nat :| k >= 2 && Candidate(nfkd, base, newLabel, k) !in versions;
      assert cand(k) !in versions.Keys;
    }
    var targetId := FirstFree(versions.Keys, first, cand);
    if first in versions {
      ghost var n: nat :| n >= 2 && targetId == cand(n) && forall j: nat :: 2 <= j < n ==> cand(j) in versions.Keys;
      assert targetId == Candidate(nfkd, base, newLabel, n);
      assert forall j: nat :: 2 <= j < n ==> Candidate(nfkd, base, newLabel, j) in versions by {
        forall j: nat | 2 <= j < n ensures Candidate(nfkd, base, newLabel, j) in versions {
          assert cand(j) in versions.Keys;
        }
      }
    }
    r := Ok(Renamed(targetId, newLabel, (versions - {versionId})[targetId := data.(labelText := newLabel)]));
  }

  /** The 60-letter label of the counterexample. */
  const LONG_LABEL: string := seq(60, _ => 'a')

  /** Normalisation leaves ASCII text alone, as NFKD does. */
  ghost predicate AsciiFixed(nfkd: string -> string) {
    forall t :: (forall i :: 0 <= i < |t| ==> t[i] < '\U{0080}') ==> nfkd(t) == t
  }

  /**
   * With a 60-letter label every candidate is the same id, since the `-i`
   * falls past the cut: once that id is taken, no candidate is free and
   * the loop of `renameVersion` never ends.
   */
  lemma {:induction false} RenameLoopStuck(nfkd: string -> string, base: nat, taken: set<string>)
    requires AsciiFixed(nfkd)
    requires MakeVersionId(nfkd, base, LONG_LABEL) in taken
    ensures forall i: nat :: Candidate(nfkd, base, LONG_LABEL, i) == MakeVersionId(nfkd, base, LONG_LABEL)
    ensures !exists k: nat :: k >= 2 && Candidate(nfkd, base, LONG_LABEL, k) !in taken
  {
    LongSlug(nfkd, LONG_LABEL);
    forall i: nat ensures Candidate(nfkd, base, LONG_LABEL, i) == MakeVersionId(nfkd, base, LONG_LABEL) {
      var t := LONG_LABEL + "-" + NatToString(i);
      LongText(i);
      LongSlug(nfkd, t);
    }
  }

  /** The candidate label of step `i` starts with the long label and is made of letters, digits and dashes. */
  lemma {:induction false} LongText(i: nat)
    ensures |LONG_LABEL + "-" + NatToString(i)| >= 60 && (LONG_LABEL + "-" + NatToString(i))[..60] == LONG_LABEL
    ensures forall k :: 0 <= k < |LONG_LABEL + "-" + NatToString(i)| ==> SlugChar((LONG_LABEL + "-" + NatToString(i))[k])
  {
    var t := LONG_LABEL + "-" + NatToString(i);
    forall k | 0 <= k < |t| ensures SlugChar(t[k]) {
      if k >= 61 {
        assert t[k] == NatToString(i)[k - 61];
      }
    }
  }

  lemma {:induction false} SlugCharClean(c: char)
    requires SlugChar(c)
    ensures KeptChar(c) && !IsWs(c)
  {
  }

  /** Character filtering, trimming and dash conversion leave lower-case letters, digits and dashes alone. */
  lemma {:induction false} CleanTextKept(t: string)
    requires forall i :: 0 <= i < |t| ==> SlugChar(t[i])
    ensures DashRuns(Trim(KeepSlugChars(t))) == t
  {
    SlugTextClean(t);
    KeepShape(t);
    TrimNoop(t);
    CollapseWsNoWs(t, '-');
  }

  lemma {:induction false} SlugTextClean(t: string)
    requires forall i :: 0 <= i < |t| ==> SlugChar(t[i])
    ensures forall i :: 0 <= i < |t| ==> KeptChar(t[i]) && !IsWs(t[i])
  {
    forall i | 0 <= i < |t| ensures KeptChar(t[i]) && !IsWs(t[i]) {
      SlugCharClean(t[i]);
    }
  }

  /** The slug of an ASCII text made of letters, digits and dashes that starts with the long label is the long label. */
  lemma {:induction false} LongSlug(nfkd: string -> string, t: string)
    requires AsciiFixed(nfkd)
    requires |t| >= 60 && t[..60] == LONG_LABEL
    requires forall i :: 0 <= i < |t| ==> SlugChar(t[i])
    ensures Slugify(nfkd, t) == LONG_LABEL
  {
    AsciiSlug(nfkd, t);
    SlugOfClean(nfkd, t);
    LongLabelLower();
  }

  /** Normalisation that fixes ASCII fixes a text of slug characters. */
  lemma {:induction false} AsciiSlug(nfkd: string -> string, t: string)
    requires AsciiFixed(nfkd)
    requires forall i :: 0 <= i < |t| ==> SlugChar(t[i])
    ensures nfkd(t) == t
  {
    assert forall i :: 0 <= i < |t| ==> t[i] < '\U{0080}';
  }

  lemma {:induction false} LongLabelLower()
    ensures ToLower(LONG_LABEL) == LONG_LABEL
  {
    SlugLower(LONG_LABEL);
  }

  /** A text of slug characters that normalisation leaves alone is only cut and lower-cased. */
  lemma {:induction false} SlugOfClean(nfkd: string -> string, t: string)
    requires nfkd(t) == t
    requires forall i :: 0 <= i < |t| ==> SlugChar(t[i])
    ensures Slugify(nfkd, t) == ToLower(Take(t, SLUG_MAX))
  {
    CleanTextKept(t);
  }

  lemma {:induction false} AffixCancel(a: string, x: string, y: string, c: string)
    requires a + x + c == a + y + c
    ensures x == y
  {
    var s := a + x + c;
    assert x == s[|a|..|s| - |c|];
    assert y == (a + y + c)[|a|..|s| - |c|];
  }

  /** Distinct counters give distinct corrected candidates. */
  lemma {:induction false} FixedCandidateInjective(nfkd: string -> string, base: nat, newLabel: string, a: nat, b: nat)
    requires FixedCandidate(nfkd, base, newLabel, a) == FixedCandidate(nfkd, base, newLabel, b)
    ensures a == b
  {
    var pre := NatToString(base) + "__" + Slugify(nfkd, newLabel) + "-";
    assert FixedCandidate(nfkd, base, newLabel, a) == pre + NatToString(a) + ".json";
    assert FixedCandidate(nfkd, base, newLabel, b) == pre + NatToString(b) + ".json";
    AffixCancel(pre, NatToString(a), NatToString(b), ".json");
    NatToStringInjective(a, b);
  }

  /** An injective sequence of names over `[from, from + n)` has `n` different names. */
  lemma {:induction false} ImageCount(cand: nat -> string, from: nat, n: nat)
    requires forall a: nat, b: nat :: cand(a) == cand(b) ==> a == b
    ensures |set j: nat | from <= j < from + n :: cand(j)| == n
  {
    if n > 0 {
      var s := set j: nat | from <= j < from + n - 1 :: cand(j);
      assert (set j: nat | from <= j < from + n :: cand(j)) == s + {cand(from + n - 1)};
      ImageCount(cand, from, n - 1);
    }
  }

  /** A finite folder cannot hold every one of infinitely many different names. */
  lemma {:induction false} SomeFree(cand: nat -> string, taken: set<string>)
    requires forall a: nat, b: nat :: cand(a) == cand(b) ==> a == b
    ensures exists k: nat :: k >= 2 && cand(k) !in taken
  {
    var s := set j: nat | 2 <= j < 2 + |taken| + 1 :: cand(j);
    ImageCount(cand, 2, |taken| + 1);
    if forall k: nat :: k >= 2 ==> cand(k) in taken {
      assert s <= taken;
      assert |s| <= |taken| by { SubsetCard(s, taken); }
      assert false;
    }
  }

  lemma {:induction false} SubsetCard(a: set<string>, b: set<string>)
    requires a <= b
    ensures |a| <= |b|
  {
    assert b == a + (b - a);
  }

  /**
   * `renameVersion` with the counter placed after the cut: it always ends,
   * on the first free name — the plain target, or else the first free
   * candidate from 2 on — and moves the snapshot there with the new label.
   */
  method RenameVersion(nfkd: string -> string, versions: map<string, Snapshot>, versionId: string, newLabel: string, now: nat)
    returns (r: Result<Renamed>)
    ensures versionId !in versions ==> r == Err(NOT_FOUND)
    ensures versionId in versions ==>
      (r.Ok? && r.value.id !in versions && r.value.labelText == newLabel
       && r.value.versions == (versions - {versionId})[r.value.id := versions[versionId].(labelText := newLabel)])
    ensures versionId in versions ==>
      var base := BaseTime(ParseVersionId(versionId).ts, versions[versionId].createdAt, now);
      (MakeVersionId(nfkd, base, newLabel) !in versions ==> r.value.id == MakeVersionId(nfkd, base, newLabel))
      && (MakeVersionId(nfkd, base, newLabel) in versions ==>
        exists n: nat :: n >= 2 && r.value.id == FixedCandidate(nfkd, base, newLabel, n)
          && forall j: nat :: 2 <= j < n ==> FixedCandidate(nfkd, base, newLabel, j) in versions)
  {
    if versionId !in versions {
      return Err(NOT_FOUND);
    }
    var data := versions[versionId];
    var base := BaseTime(ParseVersionId(versionId).ts, data.createdAt, now);
    var cand := (i: nat) => FixedCandidate(nfkd, base, newLabel, i);
    forall a: nat, b: nat | cand(a) == cand(b) ensures a == b {
      FixedCandidateInjective(nfkd, base, newLabel, a, b);
    }
    SomeFree(cand, versions.Keys);
    var first := MakeVersionId(nfkd, base, newLabel);
    var targetId := FirstFree(versions.Keys, first, cand);
    if first in versions {
      ghost var n: nat :| n >= 2 && targetId == cand(n) && forall j: nat :: 2 <= j < n ==> cand(j) in versions.Keys;
      assert targetId == FixedCandidate(nfkd, base, newLabel, n);
      assert forall j: nat :: 2 <= j < n ==> FixedCandidate(nfkd, base, newLabel, j) in versions by {
        forall j: nat | 2 <= j < n ensures FixedCandidate(nfkd, base, newLabel, j) in versions {
          assert cand(j) in versions.Keys;
        }
      }
    }
    r := Ok(Renamed(targetId, newLabel, (versions - {versionId})[targetId := data.(labelText := newLabel)]));
  }
}
