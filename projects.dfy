/**
 * The project store of src/backend/projectManager.js. A project lives in a
 * folder `<name>__<type>` under the projects directory, with a
 * `project.type` file and one `.txt` file per section of its type; older
 * ("legacy") folders carry only the name. The directory is modelled as a
 * map from entry names to entries, and every operation that touches it is
 * a function from the old directory to the outcome.
 */
module Projects {
  import opened Wrappers
  import opened Strings
  import opened Sorting

  /** The sidebar sections of each project type, in sidebar order. */
  const SECTIONS_BY_TYPE: map<string, seq<string>> := map[
    "sceneggiatura" := ["concept", "soggetto", "trattamento", "scaletta", "bibbia", "personaggi",
                        "scene", "storyboard", "spoglio", "timeline", "note"],
    "libro" := ["soggetto_logline", "outline", "scaletta", "capitoli", "personaggi", "bibbia",
                "timeline", "note", "revisioni"],
    "teatro" := ["premessa_sinossi", "scaletta", "scene", "personaggi", "bibbia", "didascalie",
                 "timeline", "note_prova", "revisioni"]]

  const DEFAULT_TYPE := "sceneggiatura"
  const TYPE_FILE := "project.type"
  const DUPLICATE := "Esiste già un progetto con questo nome e questo tipo."
  const MISSING := "Progetto di origine inesistente"

  /** `isValidType`: the type is one of the table's own keys. */
  predicate IsValidType(t: string) {
    t in SECTIONS_BY_TYPE
  }

  /** Exactly the three known types are valid, and each of them has the outline section. */
  lemma {:induction false} ValidTypes(t: string)
    ensures IsValidType(t) <==> t == "sceneggiatura" || t == "libro" || t == "teatro"
    ensures IsValidType(t) ==> "scaletta" in SECTIONS_BY_TYPE[t]
  {
    if IsValidType(t) {
      assert SECTIONS_BY_TYPE[t][3] == "scaletta" || SECTIONS_BY_TYPE[t][2] == "scaletta" || SECTIONS_BY_TYPE[t][1] == "scaletta";
    }
  }

  /** Every valid type is a non-empty run of ASCII letters, so it can end a composed id. */
  lemma {:induction false} TypeIsWord(t: string)
    requires IsValidType(t)
    ensures t != [] && AllLetters(t)
  {
    ValidTypes(t);
  }

  /** The type `createProject` uses: the given one when valid, the screenplay type otherwise. */
  function NormalizeType(t: string): (r: string)
    ensures IsValidType(r)
    ensures IsValidType(t) ==> r == t
    ensures !IsValidType(t) ==> r == DEFAULT_TYPE
  {
    if IsValidType(t) then t else DEFAULT_TYPE
  }

  /** `normalizeName`, for a name given as text. */
  function NormalizeName(n: string): string {
    Trim(n)
  }

  /** `composeId(displayName, type)`. */
  function ComposeId(displayName: string, t: string): string {
    NormalizeName(displayName) + "__" + t
  }

  predicate AllLetters(s: string) {
    forall i :: 0 <= i < |s| ==> IsAsciiLetter(s[i])
  }

  predicate NoLineTerminator(s: string) {
    forall i :: 0 <= i < |s| ==> !IsLineTerminator(s[i])
  }

  /** Where the run of ASCII letters that ends `s` begins. */
  function LetterRunStart(s: string): (l: nat)
    ensures l <= |s| && AllLetters(s[l..])
    ensures l == 0 || !IsAsciiLetter(s[l - 1])
  {
    if s == [] || !IsAsciiLetter(s[|s| - 1]) then |s|
    else
      var l := LetterRunStart(s[..|s| - 1]);
      assert s[l..] == s[..|s| - 1][l..] + [s[|s| - 1]];
      l
  }

  /**
   * The regular expression `^(.*)__([a-z]+)$` with the `i` flag matches
   * `id` with its first group ending at `p`: no line terminator before
   * `p`, then `__`, then at least one ASCII letter and nothing else.
   */
  predicate SplitsAt(id: string, p: nat) {
    p + 2 < |id| && NoLineTerminator(id[..p]) && id[p..p + 2] == "__" && AllLetters(id[p + 2..])
  }

  /** The result of `parseId`: the display name and, for a suffixed id, the type. */
  datatype Parsed = Parsed(displayName: string, projectType: Option<string>)

  /** `parseId(id)`. */
  function ParseId(id: string): Parsed {
    var l := LetterRunStart(id);
    if 2 <= l < |id| && id[l - 2..l] == "__" && NoLineTerminator(id[..l - 2]) then
      Parsed(id[..l - 2], Some(id[l..]))
    else
      Parsed(id, None)
  }

  /** A match can only end its first group two characters before the trailing letter run. */
  lemma {:induction false} SplitUnique(id: string, p: nat)
    requires SplitsAt(id, p)
    ensures p + 2 == LetterRunStart(id)
  {
    var l := LetterRunStart(id);
    assert forall i :: p + 2 <= i < |id| ==> IsAsciiLetter(id[i]) by {
      forall i | p + 2 <= i < |id| ensures IsAsciiLetter(id[i]) {
        assert id[i] == id[p + 2..][i - (p + 2)];
      }
    }
    assert forall i :: l <= i < |id| ==> IsAsciiLetter(id[i]) by {
      forall i | l <= i < |id| ensures IsAsciiLetter(id[i]) {
        assert id[i] == id[l..][i - l];
      }
    }
    assert id[p + 1] == id[p..p + 2][1] == '_';
  }

  /**
   * `parseId` finds a type exactly when the regular expression matches, and
   * then the display name is the text before the match's `__` and the type
   * the rest.
   */
  lemma {:induction false} ParseIdMeaning(id: string)
    ensures ParseId(id).projectType.Some? <==> exists p :: SplitsAt(id, p)
    ensures forall p: nat :: SplitsAt(id, p) ==> ParseId(id) == Parsed(id[..p], Some(id[p + 2..]))
    ensures ParseId(id).projectType.None? ==> ParseId(id).displayName == id
  {
    var l := LetterRunStart(id);
    if ParseId(id).projectType.Some? {
      assert SplitsAt(id, l - 2);
    }
    forall p: nat | SplitsAt(id, p) ensures ParseId(id) == Parsed(id[..p], Some(id[p + 2..])) {
      SplitUnique(id, p);
    }
  }

  /** A composed id parses back to the trimmed name and the type. */
  lemma {:induction false} ParseComposed(displayName: string, t: string)
    requires t != [] && AllLetters(t)
    requires NoLineTerminator(NormalizeName(displayName))
    ensures ParseId(ComposeId(displayName, t)) == Parsed(NormalizeName(displayName), Some(t))
  {
    var n := NormalizeName(displayName);
    var id := ComposeId(displayName, t);
    Parts3(n, "__", t);
    assert SplitsAt(id, |n|);
    ParseIdMeaning(id);
  }

  /** The name `listProjects` shows: the parsed name for a suffixed id, the id itself otherwise. */
  function DisplayName(id: string): string {
    var parsed := ParseId(id);
    if parsed.projectType.Some? then parsed.displayName else id
  }

  /** The shown name is always `parseId`'s display name, and for a composed id the trimmed name. */
  lemma {:induction false} DisplayNameMeaning(id: string)
    ensures DisplayName(id) == ParseId(id).displayName
    ensures (forall p: nat :: !SplitsAt(id, p)) ==> DisplayName(id) == id
  {
    ParseIdMeaning(id);
  }

  /** An entry of the projects directory: a plain file, or a folder with its files and modification time. */
  datatype Entry = File(content: string) | Dir(files: map<string, string>, mtime: int)

  /** The projects directory, by entry name. */
  type Store = map<string, Entry>

  /** The content of the folder's `project.type` file, when the folder and the file exist. */
  function TypeFileOf(store: Store, id: string): Option<string> {
    if id in store && store[id].Dir? && TYPE_FILE in store[id].files then Some(store[id].files[TYPE_FILE]) else None
  }

  /** `getProjectType(id)`. */
  function ProjectType(store: Store, id: string): (r: string)
    ensures IsValidType(r)
    ensures TypeFileOf(store, id).Some? && IsValidType(Trim(TypeFileOf(store, id).value)) ==> r == Trim(TypeFileOf(store, id).value)
    ensures !(TypeFileOf(store, id).Some? && IsValidType(Trim(TypeFileOf(store, id).value))) ==> r == DEFAULT_TYPE
  {
    match TypeFileOf(store, id)
    case None => DEFAULT_TYPE
    case Some(raw) => if IsValidType(Trim(raw)) then Trim(raw) else DEFAULT_TYPE
  }

  /**
   * The check `createProject` and `renameProject` make before writing: a
   * folder with the composed id exists, or a legacy folder named as the
   * trimmed name holds a type file whose trimmed content is the type.
   */
  predicate Taken(store: Store, displayName: string, t: string) {
    ComposeId(displayName, t) in store
    || (TypeFileOf(store, NormalizeName(displayName)).Some? && Trim(TypeFileOf(store, NormalizeName(displayName)).value) == t)
  }

  /** The file names of a type's sections. */
  function SectionFiles(t: string): set<string> {
    if t in SECTIONS_BY_TYPE then set s | s in SECTIONS_BY_TYPE[t] :: s + ".txt" else {}
  }

  /** The old outline file is renamed to the new name when only the old one exists. */
  function Migrated(files: map<string, string>): map<string, string> {
    if "struttura.txt" in files && "scaletta.txt" !in files then
      (files - {"struttura.txt"})["scaletta.txt" := files["struttura.txt"]]
    else files
  }

  /** `ensureProjectSections`: the migration, then an empty file for every missing section file. */
  function EnsureSections(files: map<string, string>, t: string): map<string, string> {
    var m := Migrated(files);
    map f | f in m.Keys + SectionFiles(t) :: if f in m then m[f] else ""
  }

  /**
   * After `ensureProjectSections` every section file exists; a file that
   * was there keeps its content, except that the old outline file gives its
   * content to the new one; no other file appears.
   */
  lemma {:induction false} EnsureSectionsMeaning(files: map<string, string>, t: string)
    ensures SectionFiles(t) <= EnsureSections(files, t).Keys
    ensures forall f :: f in files && f != "struttura.txt" ==> f in EnsureSections(files, t) && EnsureSections(files, t)[f] == files[f]
    ensures "struttura.txt" in files && "scaletta.txt" !in files ==>
      "struttura.txt" !in EnsureSections(files, t) && EnsureSections(files, t)["scaletta.txt"] == files["struttura.txt"]
    ensures forall f :: f in EnsureSections(files, t) && f !in files ==> f in SectionFiles(t) || f == "scaletta.txt"
    ensures forall f :: f in EnsureSections(files, t) && f !in files && f != "scaletta.txt" ==> EnsureSections(files, t)[f] == ""
  {
    NoOldOutlineSection(t);
  }

  /** No section file has the old outline file's name. */
  lemma {:induction false} NoOldOutlineSection(t: string)
    ensures "struttura.txt" !in SectionFiles(t)
  {
    if t in SECTIONS_BY_TYPE {
      forall s | s in SECTIONS_BY_TYPE[t] ensures s + ".txt" != "struttura.txt" {
        SuffixCancel(s, "struttura", ".txt");
      }
    }
  }

  lemma {:induction false} SuffixCancel(a: string, b: string, x: string)
    ensures a + x == b + x ==> a == b
  {
    if a + x == b + x {
      assert a == (a + x)[..|a|];
      assert b == (b + x)[..|b|];
    }
  }

  /** Running `ensureProjectSections` twice does what running it once does. */
  lemma {:induction false} EnsureSectionsIdempotent(files: map<string, string>, t: string)
    ensures EnsureSections(EnsureSections(files, t), t) == EnsureSections(files, t)
  {
    var e := EnsureSections(files, t);
    EnsureSectionsMeaning(files, t);
    NoOldOutlineSection(t);
    assert Migrated(e) == e by {
      if "struttura.txt" in e {
        assert "struttura.txt" in Migrated(files);
        assert "scaletta.txt" in e;
      }
    }
  }

  /** What a successful create or rename hands back: the new id and the new directory. */
  datatype Outcome = Outcome(id: string, store: Store)

  /** `createProject(displayName, type)`; `now` is the new folder's modification time. */
  function CreateProject(store: Store, displayName: string, t: string, now: int): Result<Outcome> {
    var nt := NormalizeType(t);
    var id := ComposeId(displayName, nt);
    if Taken(store, displayName, nt) then Err(DUPLICATE)
    else Ok(Outcome(id, store[id := Dir(EnsureSections(map[TYPE_FILE := nt], nt), now)]))
  }

  /**
   * `createProject` refuses exactly when the name and the normalised type
   * are taken; otherwise it adds one folder, with the composed id, whose
   * type reads back as the normalised type and which holds every section
   * file, and leaves every other entry alone.
   */
  lemma {:induction false} CreateMeaning(store: Store, displayName: string, t: string, now: int)
    ensures CreateProject(store, displayName, t, now).Err? <==> Taken(store, displayName, NormalizeType(t))
    ensures CreateProject(store, displayName, t, now).Ok? ==>
      var o := CreateProject(store, displayName, t, now).value;
      && o.id == ComposeId(displayName, NormalizeType(t))
      && o.id !in store && o.store.Keys == store.Keys + {o.id}
      && (forall k :: k in store ==> o.store[k] == store[k])
      && ProjectType(o.store, o.id) == NormalizeType(t)
      && SectionFiles(NormalizeType(t)) <= o.store[o.id].files.Keys
  {
    var nt := NormalizeType(t);
    var id := ComposeId(displayName, nt);
    if !Taken(store, displayName, nt) {
      var folder := Dir(EnsureSections(map[TYPE_FILE := nt], nt), now);
      NewFolder(nt, now);
      var o := Outcome(id, store[id := folder]);
      assert CreateProject(store, displayName, t, now) == Ok(o);
      assert id !in store;
      AddFolder(store, id, folder, nt);
      MapAdd(store, id, folder);
      assert o.store[o.id] == folder;
    }
  }

  /** Adding a new key to a map adds that key alone and keeps every other entry. */
  lemma {:induction false} MapAdd<K, V>(m: map<K, V>, k: K, v: V)
    requires k !in m
    ensures m[k := v].Keys == m.Keys + {k}
    ensures forall j :: j in m ==> m[k := v][j] == m[j]
  {
    forall j | j in m ensures m[k := v][j] == m[j] {
      assert j != k;
    }
  }

  /** Adding a folder whose type file holds a valid, trimmed type: the store gains that id, and its type reads back. */
  lemma {:induction false} AddFolder(store: Store, id: string, folder: Entry, nt: string)
    requires id !in store
    requires folder.Dir? && TYPE_FILE in folder.files && folder.files[TYPE_FILE] == nt
    requires IsValidType(nt) && Trim(nt) == nt
    ensures ProjectType(store[id := folder], id) == nt
  {
    var s2 := store[id := folder];
    assert s2[id] == folder;
    assert TypeFileOf(s2, id) == Some(nt);
    assert Trim(TypeFileOf(s2, id).value) == nt;
  }

  /** The folder `createProject` writes: its type file holds the type, and every section file is there. */
  lemma {:induction false} NewFolder(nt: string, now: int)
    requires IsValidType(nt)
    ensures var d := Dir(EnsureSections(map[TYPE_FILE := nt], nt), now);
      && TYPE_FILE in d.files && d.files[TYPE_FILE] == nt && Trim(nt) == nt
      && SectionFiles(nt) <= d.files.Keys
  {
    TypeTrimmed(nt);
    var files := map[TYPE_FILE := nt];
    EnsureSectionsMeaning(files, nt);
    assert TYPE_FILE in files && TYPE_FILE != "struttura.txt";
  }

  /** A valid type has no surrounding white space. */
  lemma {:induction false} TypeTrimmed(t: string)
    requires IsValidType(t)
    ensures Trim(t) == t
  {
    ValidTypes(t);
    if t == "sceneggiatura" {
      TrimNoop("sceneggiatura");
    } else if t == "libro" {
      TrimNoop("libro");
    } else {
      TrimNoop("teatro");
    }
  }

  /** `deleteProject(projectId)`: the folder goes, if it was there. */
  function DeleteProject(store: Store, id: string): Store {
    store - {id}
  }

  /** Deleting a project just created gives the old folder back. */
  lemma {:induction false} DeleteCreated(store: Store, displayName: string, t: string, now: int)
    requires CreateProject(store, displayName, t, now).Ok?
    ensures var o := CreateProject(store, displayName, t, now).value;
      DeleteProject(o.store, o.id) == store
  {
    CreateMeaning(store, displayName, t, now);
  }

  /** Creating the same project a second time is refused. */
  lemma {:induction false} CreateTwiceRefused(store: Store, displayName: string, t: string, now: int, later: int)
    requires CreateProject(store, displayName, t, now).Ok?
    ensures CreateProject(CreateProject(store, displayName, t, now).value.store, displayName, t, later).Err?
  {
    CreateMeaning(store, displayName, t, now);
  }

  /** `renameProject(oldId, newDisplayName)`: the folder keeps its type and moves to the new id. */
  function RenameProject(store: Store, oldId: string, newDisplayName: string): Result<Outcome> {
    if oldId !in store then Err(MISSING)
    else
      var t := ProjectType(store, oldId);
      var id := ComposeId(newDisplayName, t);
      if Taken(store, newDisplayName, t) then Err(DUPLICATE)
      else Ok(Outcome(id, (store - {oldId})[id := store[oldId]]))
  }

  /**
   * `renameProject` refuses a missing folder, and otherwise refuses exactly
   * when the new name is taken for the folder's type; on success the old
   * entry is gone, the new id holds it unchanged (so its type too), and
   * nothing else changes.
   */
  lemma {:induction false} RenameMeaning(store: Store, oldId: string, newDisplayName: string)
    ensures oldId !in store ==> RenameProject(store, oldId, newDisplayName) == Err(MISSING)
    ensures oldId in store ==>
      (RenameProject(store, oldId, newDisplayName).Err? <==> Taken(store, newDisplayName, ProjectType(store, oldId)))
    ensures RenameProject(store, oldId, newDisplayName).Ok? ==>
      var o := RenameProject(store, oldId, newDisplayName).value;
      && o.id == ComposeId(newDisplayName, ProjectType(store, oldId))
      && o.id != oldId && oldId !in o.store
      && o.store.Keys == store.Keys - {oldId} + {o.id}
      && o.store[o.id] == store[oldId]
      && ProjectType(o.store, o.id) == ProjectType(store, oldId)
      && (forall k :: k in store && k != oldId ==> o.store[k] == store[k])
  {
  }

  /** A rename in place (to the folder's own name and type) is always refused. */
  lemma {:induction false} RenameToSelfRefused(store: Store, displayName: string, t: string)
    requires ComposeId(displayName, t) in store && ProjectType(store, ComposeId(displayName, t)) == t
    ensures RenameProject(store, ComposeId(displayName, t), displayName).Err?
  {
  }

  /** One row of `listProjects` before the modification time is dropped. */
  datatype Item = Item(id: string, name: string, projectType: string, mtime: int)

  /** One row of `listProjects`' result. */
  datatype Project = Project(id: string, name: string, projectType: string)

  /** The rows the `for` loop of `listProjects` pushes for the directory entries `names`, in their order. */
  function Listed(store: Store, names: seq<string>): seq<Item> {
    if names == [] then []
    else
      var n := names[|names| - 1];
      Listed(store, names[..|names| - 1])
      + (if n in store && store[n].Dir? then [Item(n, DisplayName(n), ProjectType(store, n), store[n].mtime)] else [])
  }

  function NewestFirst(x: Item): int { -x.mtime }

  function Public(x: Item): Project { Project(x.id, x.name, x.projectType) }

  /** `listProjects()` for the directory `store` whose entries `readdir` returns as `names`. */
  method ListProjects(store: Store, names: seq<string>) returns (r: seq<Project>)
    ensures r == seq(|Listed(store, names)|, (k: nat) requires k < |Listed(store, names)| =>
      Public(SortBy(Listed(store, names), NewestFirst)[k]))
  {
    var projects: seq<Item> := [];
    for i := 0 to |names|
      invariant projects == Listed(store, names[..i])
    {
      var id := names[i];
      assert names[..i + 1][..i] == names[..i];
      if id in store && store[id].Dir? {
        var t := ProjectType(store, id);
        var parsed := ParseId(id);
        var displayName := if parsed.projectType.Some? then parsed.displayName else id;
        projects := projects + [Item(id, displayName, t, store[id].mtime)];
      }
    }
    assert names[..|names|] == names;
    var sorted := SortBy(projects, NewestFirst);
    r := [];
    for k := 0 to |sorted|
      invariant |r| == k && forall j :: 0 <= j < k ==> r[j] == Public(sorted[j])
    {
      r := r + [Public(sorted[k])];
    }
  }

  /**
   * The rows are the entries that are folders, each once per entry, with
   * the display name and the type read from the folder.
   */
  lemma {:induction false} ListedMeaning(store: Store, names: seq<string>, x: Item)
    ensures x in Listed(store, names) <==>
      x.id in names && x.id in store && store[x.id].Dir?
      && x == Item(x.id, DisplayName(x.id), ProjectType(store, x.id), store[x.id].mtime)
  {
    if names != [] {
      ListedMeaning(store, names[..|names| - 1], x);
      assert names == names[..|names| - 1] + [names[|names| - 1]];
    }
  }

  /** Distinct directory entries give distinct rows. */
  lemma {:induction false} ListedDistinct(store: Store, names: seq<string>)
    requires Distinct(names)
    ensures Distinct(Listed(store, names))
  {
    if names != [] {
      var init := names[..|names| - 1];
      assert Distinct(init) by {
        forall i, j | 0 <= i < j < |init| ensures init[i] != init[j] { assert init[i] == names[i] && init[j] == names[j]; }
      }
      ListedDistinct(store, init);
      var n := names[|names| - 1];
      var l := Listed(store, init);
      if n in store && store[n].Dir? {
        forall i | 0 <= i < |l| ensures l[i].id != n {
          ListedMeaning(store, init, l[i]);
        }
      }
    }
  }

  /**
   * `listProjects` shows every folder among the entries and nothing else,
   * newest first, and a folder created by `createProject` under a name with
   * no line break inside is shown with its trimmed name.
   */
  lemma {:induction false} ListOrder(store: Store, names: seq<string>)
    ensures forall i, j :: 0 <= i < j < |SortBy(Listed(store, names), NewestFirst)| ==>
      SortBy(Listed(store, names), NewestFirst)[i].mtime >= SortBy(Listed(store, names), NewestFirst)[j].mtime
    ensures forall x :: x in SortBy(Listed(store, names), NewestFirst) <==> x in Listed(store, names)
  {
    var l := Listed(store, names);
    var s := SortBy(l, NewestFirst);
    forall i, j | 0 <= i < j < |s| ensures s[i].mtime >= s[j].mtime {
      assert NewestFirst(s[i]) <= NewestFirst(s[j]);
    }
    forall x ensures x in s <==> x in l {
      assert x in s <==> x in multiset(s);
      assert x in l <==> x in multiset(l);
    }
  }

  /** Folders with the same modification time keep `readdir`'s order. */
  lemma {:induction false} ListTiesKeepOrder(store: Store, names: seq<string>, mtime: int)
    ensures KeyFilter(SortBy(Listed(store, names), NewestFirst), NewestFirst, -mtime)
         == KeyFilter(Listed(store, names), NewestFirst, -mtime)
  {
    SortByStable(Listed(store, names), NewestFirst, -mtime);
  }

  /** After a successful create, the listing holds the new folder under its trimmed name and its type. */
  lemma {:induction false} CreatedIsListed(store: Store, displayName: string, t: string, now: int, names: seq<string>)
    requires CreateProject(store, displayName, t, now).Ok?
    requires ComposeId(displayName, NormalizeType(t)) in names
    requires NoLineTerminator(NormalizeName(displayName))
    ensures Item(ComposeId(displayName, NormalizeType(t)), NormalizeName(displayName), NormalizeType(t), now)
      in Listed(CreateProject(store, displayName, t, now).value.store, names)
  {
    var nt := NormalizeType(t);
    var id := ComposeId(displayName, nt);
    var o := CreateProject(store, displayName, t, now).value;
    CreateMeaning(store, displayName, t, now);
    assert o.store[id].Dir? && o.store[id].mtime == now;
    assert ProjectType(o.store, id) == nt;
    assert DisplayName(id) == NormalizeName(displayName) by {
      TypeIsWord(nt);
      ParseComposed(displayName, nt);
    }
    ListedMeaning(o.store, names, Item(id, NormalizeName(displayName), nt, now));
  }
}
