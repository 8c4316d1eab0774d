/**
 * The story bible of the editor (src/frontend/editor.js): its twenty
 * default sections and `ensureBibleDefaults`, which rebuilds the list so
 * that the defaults come first, in their fixed order, carrying over what
 * the stored sections held, followed by every other stored section once.
 * The old 'meta' section is dropped, its content moving into an empty
 * 'title'.
 */
module BibleEdit {
  import opened Wrappers
  import opened Sorting

  /** One section of the bible. */
  datatype Section = Section(id: string, title: string, content: string, collapsed: bool)

  /** The ids of `bibleDefaults()`, in order. */
  const DEFAULT_IDS: seq<string> := [
    "title", "author", "pitch", "premise", "synopsisShort", "synopsisLong", "themes", "toneStyle",
    "worldOverview", "worldRules", "locations", "timePeriod", "structureNotes", "motifs", "props",
    "references", "production", "glossary", "bibliography", "openQuestions"]

  lemma {:induction false} DefaultIdsDistinct()
    ensures |DEFAULT_IDS| == 20 && Distinct(DEFAULT_IDS) && "meta" !in DEFAULT_IDS
  {
  }

  /** Some section has the id. */
  predicate HasId(secs: seq<Section>, id: string) {
    exists k :: 0 <= k < |secs| && secs[k].id == id
  }

  /** `new Map(bibleData.map(s => [s.id, s])).get(id)`: the last section with the id, which the map keeps. */
  function LastWithId(secs: seq<Section>, id: string): (r: Option<Section>)
    ensures r.None? <==> !HasId(secs, id)
    ensures r.Some? ==> (r.value.id == id &&
      exists k :: 0 <= k < |secs| && secs[k] == r.value && (forall m :: k < m < |secs| ==> secs[m].id != id))
  {
    if secs == [] then None
    else
      var n := |secs| - 1;
      if secs[n].id == id then Some(secs[n])
      else
        var r := LastWithId(secs[..n], id);
        assert forall k :: 0 <= k < n ==> secs[..n][k] == secs[k];
        r
  }

  /** `x?.content || ''` for a section that may be missing. */
  function ContentOf(s: Option<Section>): string {
    if s.Some? then s.value.content else ""
  }

  /** `x?.collapsed || false` for a section that may be missing. */
  function CollapsedOf(s: Option<Section>): bool {
    s.Some? && s.value.collapsed
  }

  /**
   * The default section `id` with its translated title: the content and
   * collapsed flag of the stored section with that id; an empty 'title'
   * takes the content of a stored 'meta'.
   */
  function DefaultSection(secs: seq<Section>, id: string, title: string): Section {
    var cur := LastWithId(secs, id);
    var content :=
      if id == "title" && ContentOf(cur) == "" then ContentOf(LastWithId(secs, "meta"))
      else ContentOf(cur);
    Section(id, title, content, CollapsedOf(cur))
  }

  /** `defs.map(...)`: the defaults in order; `titleOf` is the translation lookup `T` gives each title. */
  function Defaults(secs: seq<Section>, titleOf: string -> string): (r: seq<Section>)
    ensures |r| == |DEFAULT_IDS|
  {
    seq(|DEFAULT_IDS|, i requires 0 <= i < |DEFAULT_IDS| => DefaultSection(secs, DEFAULT_IDS[i], titleOf(DEFAULT_IDS[i])))
  }

  /** A stored section the merge keeps after the defaults, when its id is not taken yet. */
  predicate Kept(s: Section) {
    s.id != "meta" && s.id !in DEFAULT_IDS
  }

  /** The `forEach` over the stored sections: the first section with each id that is neither a default nor 'meta'. */
  function Extras(secs: seq<Section>): (r: seq<Section>)
  {
    if secs == [] then []
    else
      var n := |secs| - 1;
      var e := Extras(secs[..n]);
      if Kept(secs[n]) && !HasId(e, secs[n].id) then e + [secs[n]] else e
  }

  /** `ensureBibleDefaults()`: the defaults, then the extras. */
  function Ensured(secs: seq<Section>, titleOf: string -> string): seq<Section> {
    Defaults(secs, titleOf) + Extras(secs)
  }

  // ---------------------------------------------------------------- properties

  predicate UniqueIds(secs: seq<Section>) {
    forall i, j :: 0 <= i < |secs| && 0 <= j < |secs| && secs[i].id == secs[j].id ==> i == j
  }

  /**
   * The extras are stored sections that are kept, with distinct ids; each is
   * the first stored section with its id, and every kept id appears.
   */
  lemma {:induction false} ExtrasMeaning(secs: seq<Section>)
    ensures UniqueIds(Extras(secs))
    ensures forall k :: 0 <= k < |Extras(secs)| ==> Kept(Extras(secs)[k]) && Extras(secs)[k] in secs
    ensures forall k :: 0 <= k < |Extras(secs)| ==> FirstWithId(secs, Extras(secs)[k].id) == Some(Extras(secs)[k])
    ensures forall s :: s in secs && Kept(s) ==> HasId(Extras(secs), s.id)
  {
    if secs != [] {
      var n := |secs| - 1;
      var init := secs[..n];
      ExtrasMeaning(init);
      assert secs == init + [secs[n]];
      if Kept(secs[n]) && !HasId(Extras(init), secs[n].id) {
        ExtrasPushed(init, Extras(init), secs[n]);
      } else {
        ExtrasKept(init, Extras(init), secs[n]);
      }
    }
  }

  /** What `ExtrasMeaning` states, as one predicate of the list and its extras. */
  predicate ExtrasFacts(secs: seq<Section>, e: seq<Section>) {
    UniqueIds(e)
    && (forall k :: 0 <= k < |e| ==> Kept(e[k]) && e[k] in secs)
    && (forall k :: 0 <= k < |e| ==> FirstWithId(secs, e[k].id) == Some(e[k]))
    && (forall s :: s in secs && Kept(s) ==> HasId(e, s.id))
  }

  /** A new kept id is appended, and the facts carry over. */
  lemma {:induction false} ExtrasPushed(init: seq<Section>, e: seq<Section>, x: Section)
    requires ExtrasFacts(init, e)
    requires Kept(x) && !HasId(e, x.id)
    ensures ExtrasFacts(init + [x], e + [x])
  {
    PushedUnique(e, x);
    PushedFirst(init, e, x);
    PushedCovers(init, e, x);
  }

  lemma {:induction false} PushedUnique(e: seq<Section>, x: Section)
    requires UniqueIds(e) && !HasId(e, x.id)
    ensures UniqueIds(e + [x])
  {
    var r := e + [x];
    assert forall i :: 0 <= i < |e| ==> r[i] == e[i] && e[i].id != x.id;
    assert r[|e|] == x;
  }

  lemma {:induction false} PushedFirst(init: seq<Section>, e: seq<Section>, x: Section)
    requires forall k :: 0 <= k < |e| ==> FirstWithId(init, e[k].id) == Some(e[k])
    requires forall s :: s in init && Kept(s) ==> HasId(e, s.id)
    requires Kept(x) && !HasId(e, x.id)
    ensures forall k :: 0 <= k < |e + [x]| ==> FirstWithId(init + [x], (e + [x])[k].id) == Some((e + [x])[k])
  {
    var r := e + [x];
    forall k | 0 <= k < |r| ensures FirstWithId(init + [x], r[k].id) == Some(r[k]) {
      if k < |e| {
        assert r[k] == e[k];
        FirstWithIdSnoc(init, x, e[k].id);
      } else {
        assert r[k] == x;
        FirstWithIdSnoc(init, x, x.id);
        assert !HasId(init, x.id);
      }
    }
  }

  lemma {:induction false} PushedCovers(init: seq<Section>, e: seq<Section>, x: Section)
    requires forall k :: 0 <= k < |e| ==> Kept(e[k]) && e[k] in init
    requires forall s :: s in init && Kept(s) ==> HasId(e, s.id)
    requires Kept(x)
    ensures forall k :: 0 <= k < |e + [x]| ==> Kept((e + [x])[k]) && (e + [x])[k] in init + [x]
    ensures forall s :: s in init + [x] && Kept(s) ==> HasId(e + [x], s.id)
  {
    var secs := init + [x];
    var r := e + [x];
    forall k | 0 <= k < |r| ensures Kept(r[k]) && r[k] in secs {
      if k < |e| { assert r[k] == e[k] && e[k] in init; } else { assert r[k] == x; }
    }
    forall s | s in secs && Kept(s) ensures HasId(r, s.id) {
      if s in init {
        var k :| 0 <= k < |e| && e[k].id == s.id;
        assert r[k] == e[k];
      } else {
        assert s == x && r[|e|] == x;
      }
    }
  }

  /** A section that adds nothing leaves the extras and their facts as they were. */
  lemma {:induction false} ExtrasKept(init: seq<Section>, e: seq<Section>, x: Section)
    requires ExtrasFacts(init, e)
    requires !(Kept(x) && !HasId(e, x.id))
    ensures ExtrasFacts(init + [x], e)
  {
    var secs := init + [x];
    forall k | 0 <= k < |e| ensures FirstWithId(secs, e[k].id) == Some(e[k]) {
      FirstWithIdSnoc(init, x, e[k].id);
    }
    forall s | s in secs && Kept(s) ensures HasId(e, s.id) {
      if s !in init {
        assert s == x;
      }
    }
  }

  /**
   * `xs` sits at the increasing positions `idx` of `secs`, each at the first
   * position holding its id.
   */
  predicate FirstPositions(secs: seq<Section>, xs: seq<Section>, idx: seq<nat>) {
    |idx| == |xs|
    && (forall i :: 0 <= i < |idx| ==> idx[i] < |secs| && secs[idx[i]] == xs[i])
    && (forall i :: 0 <= i < |idx| ==> forall k :: 0 <= k < idx[i] ==> secs[k].id != xs[i].id)
    && (forall i, j :: 0 <= i < j < |idx| ==> idx[i] < idx[j])
  }

  /** The extras keep their stored order: each is the first stored section with its id, at increasing positions. */
  lemma {:induction false} ExtrasInOrder(secs: seq<Section>) returns (idx: seq<nat>)
    ensures FirstPositions(secs, Extras(secs), idx)
  {
    if secs == [] {
      idx := [];
    } else {
      var n := |secs| - 1;
      var init := secs[..n];
      var idx0 := ExtrasInOrder(init);
      var e := Extras(init);
      assert secs == init + [secs[n]];
      if Kept(secs[n]) && !HasId(e, secs[n].id) {
        FirstOfItsId(init, secs[n]);
        FirstPositionsPush(init, secs[n], e, idx0);
        idx := idx0 + [n];
      } else {
        FirstPositionsSnoc(init, secs[n], e, idx0);
        idx := idx0;
      }
    }
  }

  /** After the twenty defaults, the merged list holds the other stored sections in their stored order. */
  lemma {:induction false} EnsuredOrder(secs: seq<Section>, titleOf: string -> string) returns (idx: seq<nat>)
    ensures |Ensured(secs, titleOf)| >= 20
    ensures FirstPositions(secs, Ensured(secs, titleOf)[20..], idx)
  {
    idx := ExtrasInOrder(secs);
    var d := Defaults(secs, titleOf);
    assert (d + Extras(secs))[|d|..] == Extras(secs);
  }

  lemma {:induction false} FirstPositionsSnoc(init: seq<Section>, x: Section, xs: seq<Section>, idx: seq<nat>)
    requires FirstPositions(init, xs, idx)
    ensures FirstPositions(init + [x], xs, idx)
  {
    var secs := init + [x];
    forall i | 0 <= i < |idx| ensures secs[idx[i]] == xs[i] && forall k :: 0 <= k < idx[i] ==> secs[k].id != xs[i].id {
      assert secs[idx[i]] == init[idx[i]];
      forall k | 0 <= k < idx[i] ensures secs[k].id != xs[i].id {
        assert secs[k] == init[k];
      }
    }
  }

  lemma {:induction false} FirstPositionsPush(init: seq<Section>, x: Section, xs: seq<Section>, idx: seq<nat>)
    requires FirstPositions(init, xs, idx)
    requires forall k :: 0 <= k < |init| ==> init[k].id != x.id
    ensures FirstPositions(init + [x], xs + [x], idx + [|init|])
  {
    FirstPositionsSnoc(init, x, xs, idx);
    var secs := init + [x];
    var ys := xs + [x];
    var jdx := idx + [|init|];
    forall i | 0 <= i < |jdx| ensures jdx[i] < |secs| && secs[jdx[i]] == ys[i] && forall k :: 0 <= k < jdx[i] ==> secs[k].id != ys[i].id {
      if i < |idx| {
        assert jdx[i] == idx[i] && ys[i] == xs[i];
      } else {
        forall k | 0 <= k < jdx[i] ensures secs[k].id != ys[i].id {
          assert secs[k] == init[k];
        }
      }
    }
  }

  /** A kept section whose id is not among the extras so far has no earlier section with its id. */
  lemma {:induction false} FirstOfItsId(init: seq<Section>, s: Section)
    requires Kept(s) && !HasId(Extras(init), s.id)
    ensures forall k :: 0 <= k < |init| ==> init[k].id != s.id
  {
    ExtrasMeaning(init);
    forall k | 0 <= k < |init| ensures init[k].id != s.id {
      assert init[k] in init;
    }
  }

  /** The first section with the id. */
  function FirstWithId(secs: seq<Section>, id: string): (r: Option<Section>)
    ensures r.None? <==> !HasId(secs, id)
    ensures r.Some? ==> r.value.id == id && r.value in secs
  {
    if secs == [] then None
    else if secs[0].id == id then Some(secs[0])
    else
      var r := FirstWithId(secs[1..], id);
      assert forall k :: 0 <= k < |secs| - 1 ==> secs[1..][k] == secs[k + 1];
      r
  }

  lemma {:induction false} FirstWithIdSnoc(secs: seq<Section>, s: Section, id: string)
    ensures FirstWithId(secs + [s], id) == if HasId(secs, id) then FirstWithId(secs, id) else if s.id == id then Some(s) else None
  {
    if secs != [] {
      assert (secs + [s])[1..] == secs[1..] + [s];
      FirstWithIdSnoc(secs[1..], s, id);
      assert HasId(secs, id) <==> secs[0].id == id || HasId(secs[1..], id);
    } else {
      assert (secs + [s])[0] == s;
    }
  }

  /**
   * The merged list opens with the twenty defaults in order, holds every id
   * once, has no 'meta', and keeps every other stored id.
   */
  lemma {:induction false} EnsuredShape(secs: seq<Section>, titleOf: string -> string)
    ensures var r := Ensured(secs, titleOf);
      |r| >= 20 && UniqueIds(r) && !HasId(r, "meta") &&
      (forall i :: 0 <= i < 20 ==> r[i].id == DEFAULT_IDS[i] && r[i].title == titleOf(DEFAULT_IDS[i])) &&
      (forall s :: s in secs && s.id != "meta" ==> HasId(r, s.id))
  {
    DefaultIdsDistinct();
    ExtrasMeaning(secs);
    var d, e := Defaults(secs, titleOf), Extras(secs);
    var r := d + e;
    forall i, j | 0 <= i < |r| && 0 <= j < |r| && r[i].id == r[j].id ensures i == j {
      if i >= 20 && j >= 20 {
        assert r[i] == e[i - 20] && r[j] == e[j - 20];
      }
    }
    forall k | 0 <= k < |r| ensures r[k].id != "meta" {
      if k >= 20 {
        assert r[k] == e[k - 20];
      }
    }
    forall s | s in secs && s.id != "meta" ensures HasId(r, s.id) {
      if s.id in DEFAULT_IDS {
        var i :| 0 <= i < 20 && DEFAULT_IDS[i] == s.id;
        assert r[i].id == s.id;
      } else {
        var k :| 0 <= k < |e| && e[k].id == s.id;
        assert r[20 + k] == e[k];
      }
    }
  }

  /** Every default other than 'title' carries the content and collapsed flag of the last stored section with its id. */
  lemma {:induction false} EnsuredCarries(secs: seq<Section>, titleOf: string -> string, i: nat)
    requires i < 20
    ensures var r, cur := Ensured(secs, titleOf), LastWithId(secs, DEFAULT_IDS[i]);
      r[i].collapsed == (cur.Some? && cur.value.collapsed) &&
      (DEFAULT_IDS[i] != "title" ==> r[i].content == (if cur.Some? then cur.value.content else "")) &&
      (DEFAULT_IDS[i] == "title" && cur.Some? && cur.value.content != "" ==> r[i].content == cur.value.content) &&
      (DEFAULT_IDS[i] == "title" && (cur.None? || cur.value.content == "") ==>
        r[i].content == ContentOf(LastWithId(secs, "meta")))
  {
  }

  // ---------------------------------------------------------------- idempotence

  /** A list with distinct kept ids is its own list of extras. */
  lemma {:induction false} ExtrasOfKept(secs: seq<Section>)
    requires UniqueIds(secs) && forall k :: 0 <= k < |secs| ==> Kept(secs[k])
    ensures Extras(secs) == secs
  {
    if secs != [] {
      var n := |secs| - 1;
      var init := secs[..n];
      ExtrasOfKept(init);
      assert init + [secs[n]] == secs;
    }
  }

  /** The defaults contribute no extras: the extras of a merged list are its own extras. */
  lemma {:induction false} ExtrasSkipsDefaults(d: seq<Section>, e: seq<Section>)
    requires forall k :: 0 <= k < |d| ==> !Kept(d[k])
    ensures Extras(d + e) == Extras(e)
    decreases |e|
  {
    if e == [] {
      assert d + e == d;
      ExtrasNone(d);
    } else {
      var n := |e| - 1;
      var init := e[..n];
      ExtrasSkipsDefaults(d, init);
      assert d + e == (d + init) + [e[n]];
      assert e == init + [e[n]];
      ExtrasSnocEq(d + init, init, e[n]);
    }
  }

  /** Lists with the same extras keep the same extras after one more section. */
  lemma {:induction false} ExtrasSnocEq(a: seq<Section>, b: seq<Section>, x: Section)
    requires Extras(a) == Extras(b)
    ensures Extras(a + [x]) == Extras(b + [x])
  {
    assert (a + [x])[..|a|] == a;
    assert (b + [x])[..|b|] == b;
  }


  lemma {:induction false} ExtrasNone(d: seq<Section>)
    requires forall k :: 0 <= k < |d| ==> !Kept(d[k])
    ensures Extras(d) == []
  {
    if d != [] {
      ExtrasNone(d[..|d| - 1]);
    }
  }

  /** Merging twice gives what merging once gives. */
  lemma {:induction false} EnsuredIdempotent(secs: seq<Section>, titleOf: string -> string)
    ensures Ensured(Ensured(secs, titleOf), titleOf) == Ensured(secs, titleOf)
  {
    var r := Ensured(secs, titleOf);
    var d, e := Defaults(secs, titleOf), Extras(secs);
    EnsuredShape(secs, titleOf);
    ExtrasMeaning(secs);
    DefaultIdsDistinct();
    // The defaults of the merged list are the merged defaults.
    forall i | 0 <= i < 20 ensures Defaults(r, titleOf)[i] == d[i] {
      var id := DEFAULT_IDS[i];
      assert r[i].id == id;
      LastUnique(r, i);
      assert !HasId(r, "meta");
      assert LastWithId(r, "meta") == None;
    }
    assert Defaults(r, titleOf) == d;
    // The extras of the merged list are the extras.
    forall k | 0 <= k < |d| ensures !Kept(d[k]) {
      assert d[k].id == DEFAULT_IDS[k];
    }
    ExtrasSkipsDefaults(d, e);
    ExtrasOfKept(e);
  }

  /** In a list with distinct ids, the last section with the id of the one at `i` is that one. */
  lemma {:induction false} LastUnique(secs: seq<Section>, i: nat)
    requires UniqueIds(secs) && i < |secs|
    ensures LastWithId(secs, secs[i].id) == Some(secs[i])
  {
    var r := LastWithId(secs, secs[i].id);
    assert HasId(secs, secs[i].id);
    var k :| 0 <= k < |secs| && secs[k] == r.value && r.value.id == secs[i].id;
  }

  // ---------------------------------------------------------------- the bible

  /** The editor's `bibleData`. */
  class Bible {
    var sections: seq<Section>

    constructor (sections: seq<Section>)
      ensures this.sections == sections
    {
      this.sections := sections;
    }

    /** `ensureBibleDefaults()` (src/frontend/editor.js:3037-3071). */
    method EnsureDefaults(titleOf: string -> string)
      modifies this
      ensures sections == Ensured(old(sections), titleOf)
    {
      var defs := Defaults(sections, titleOf);
      var merged := defs;
      DefaultIdsDistinct();
      var i := 0;
      while i < |sections|
        invariant 0 <= i <= |sections| && sections == old(sections)
        invariant merged == defs + Extras(sections[..i])
      {
        var s := sections[i];
        assert sections[..i + 1] == sections[..i] + [s];
        if s.id != "meta" && s.id !in DEFAULT_IDS && !HasId(merged, s.id) {
          NotInDefaults(defs, Extras(sections[..i]), s.id);
          merged := merged + [s];
        } else if Kept(s) {
          NotInDefaults(defs, Extras(sections[..i]), s.id);
        }
        i := i + 1;
      }
      assert sections[..i] == sections;
      sections := merged;
    }
  }

  /** A kept id is in the merged list exactly when it is among the extras. */
  lemma {:induction false} NotInDefaults(defs: seq<Section>, e: seq<Section>, id: string)
    requires forall k :: 0 <= k < |defs| ==> defs[k].id in DEFAULT_IDS
    requires id !in DEFAULT_IDS
    ensures HasId(defs + e, id) <==> HasId(e, id)
  {
    if HasId(defs + e, id) {
      var k :| 0 <= k < |defs + e| && (defs + e)[k].id == id;
      if k >= |defs| {
        assert e[k - |defs|].id == id;
      }
    }
    if HasId(e, id) {
      var k :| 0 <= k < |e| && e[k].id == id;
      assert (defs + e)[|defs| + k] == e[k];
    }
  }
}
