/**
 * The editor's outline of beats (src/frontend/editor.js): a new beat goes
 * after every existing one, `normalizeBeatsOrdering` renumbers the beats
 * 10, 20, 30, ... in their current order, and the up and down buttons of a
 * beat card trade its place with its neighbour in that order.
 */
module Outline {
  import opened Sorting

  /** A beat card; its text fields sit in `fields` by name. */
  datatype Beat = Beat(id: string, ordering: int, fields: map<string, string>, collapsed: bool)

  /** The text fields a new beat starts with, all empty. */
  const BEAT_FIELDS: seq<string> := ["title", "summary", "objective", "obstacle", "outcome", "timePlace", "characters", "links", "container"]

  function Orderings(beats: seq<Beat>): (r: seq<int>)
    ensures |r| == |beats| && forall j :: 0 <= j < |beats| ==> r[j] == beats[j].ordering
  {
    seq(|beats|, j requires 0 <= j < |beats| => beats[j].ordering)
  }

  /** `newBeat()`, with the id it draws at random given as `id`. */
  function NewBeat(beats: seq<Beat>, id: string): (b: Beat)
    ensures b.ordering >= 10 && forall j :: 0 <= j < |beats| ==> beats[j].ordering < b.ordering
    ensures b.id == id && !b.collapsed
    ensures forall f :: f in b.fields <==> f in BEAT_FIELDS
    ensures forall f :: f in b.fields ==> b.fields[f] == ""
  {
    Beat(id, MaxOrZero(Orderings(beats)) + 10, map f | f in BEAT_FIELDS :: "", false)
  }

  // ---------------------------------------------------------------- renumbering

  /** The ordering of the beat at an index. */
  function OrderKey(beats: seq<Beat>): nat -> int {
    (j: nat) => if j < |beats| then beats[j].ordering else 0
  }

  /** `[...beatsData].sort((a, b) => (a.ordering ?? 0) - (b.ordering ?? 0))`, as indices. */
  function SortedOrder(beats: seq<Beat>): (r: seq<nat>)
    ensures |r| == |beats| && Distinct(r)
    ensures forall p :: 0 <= p < |r| ==> r[p] < |beats|
  {
    var r := SortBy(Range(|beats|), OrderKey(beats));
    SortedDistinct(Range(|beats|), OrderKey(beats));
    assert forall p :: 0 <= p < |r| ==> r[p] in r;
    r
  }

  /** The ordering the renumbering gives the beat at place `p` of the sorted list. */
  function Slot(p: nat): int {
    10 * (p + 1)
  }

  /** The place of the beat at index `j` in the sorted list. */
  function Rank(beats: seq<Beat>, j: nat): (p: nat)
    requires j < |beats|
    ensures p < |beats| && SortedOrder(beats)[p] == j
  {
    InSortedOrder(beats, j);
    PosOf(SortedOrder(beats), j)
  }

  /** `normalizeBeatsOrdering()`: each beat gets the slot of its place in the sorted list. */
  function Renumbered(beats: seq<Beat>): (r: seq<Beat>)
    ensures |r| == |beats|
  {
    seq(|beats|, j requires 0 <= j < |beats| => beats[j].(ordering := Slot(Rank(beats, j))))
  }

  /** The sorted list holds every index. */
  lemma {:induction false} InSortedOrder(beats: seq<Beat>, j: nat)
    requires j < |beats|
    ensures j in SortedOrder(beats)
  {
    SortedDistinct(Range(|beats|), OrderKey(beats));
    assert Range(|beats|)[j] == j;
  }

  /**
   * Renumbering gives the beats the distinct orderings 10, 20, ..., 10 n,
   * the one at place p of the sorted list getting 10 (p + 1), and changes
   * nothing but the orderings.
   */
  lemma {:induction false} RenumberedValues(beats: seq<Beat>)
    ensures forall p :: 0 <= p < |beats| ==> Renumbered(beats)[SortedOrder(beats)[p]].ordering == Slot(p)
    ensures forall j :: 0 <= j < |beats| ==>
      Renumbered(beats)[j].ordering % 10 == 0 && 10 <= Renumbered(beats)[j].ordering <= 10 * |beats|
    ensures forall j :: 0 <= j < |beats| ==> Renumbered(beats)[j] == beats[j].(ordering := Renumbered(beats)[j].ordering)
  {
    var s := SortedOrder(beats);
    forall p | 0 <= p < |beats| ensures Renumbered(beats)[s[p]].ordering == Slot(p) {
      RenumberedSlot(beats, p);
    }
    forall j | 0 <= j < |beats|
      ensures Renumbered(beats)[j].ordering % 10 == 0 && 10 <= Renumbered(beats)[j].ordering <= 10 * |beats|
      ensures Renumbered(beats)[j] == beats[j].(ordering := Renumbered(beats)[j].ordering)
    {
    }
  }

  lemma {:induction false} RenumberedSlot(beats: seq<Beat>, p: nat)
    requires p < |beats|
    ensures Renumbered(beats)[SortedOrder(beats)[p]].ordering == Slot(p)
  {
    var s := SortedOrder(beats);
    
    DistinctPos(s, p);
  }

  /** No two beats share an ordering after renumbering. */
  lemma {:induction false} RenumberedDistinct(beats: seq<Beat>)
    ensures forall i, j :: 0 <= i < |beats| && 0 <= j < |beats| && i != j ==>
      Renumbered(beats)[i].ordering != Renumbered(beats)[j].ordering
  {
    forall i, j | 0 <= i < |beats| && 0 <= j < |beats| && i != j
      ensures Renumbered(beats)[i].ordering != Renumbered(beats)[j].ordering
    {
    }
  }

  /** Renumbering keeps the old order: a smaller ordering stays smaller, and equal ones follow array order. */
  lemma {:induction false} RenumberedOrder(beats: seq<Beat>, i: nat, j: nat)
    requires i < |beats| && j < |beats|
    requires beats[i].ordering < beats[j].ordering || (beats[i].ordering == beats[j].ordering && i < j)
    ensures Renumbered(beats)[i].ordering < Renumbered(beats)[j].ordering
  {
    var s := SortedOrder(beats);
    InSortedOrder(beats, i);
    InSortedOrder(beats, j);
    if beats[i].ordering < beats[j].ordering {
      SortedPosOrder(s, OrderKey(beats), i, j);
    } else {
      assert Range(|beats|)[i] == i && Range(|beats|)[j] == j;
      assert Before(Range(|beats|), i, j);
      SortedTies(Range(|beats|), OrderKey(beats), i, j);
    }
  }

  // ---------------------------------------------------------------- moving a beat

  /** `ordered.findIndex(x => x.id === id)` over the sorted list `s`. */
  function FindInOrder(beats: seq<Beat>, s: seq<nat>, id: string): (r: int)
    requires forall p :: 0 <= p < |s| ==> s[p] < |beats|
    ensures -1 <= r < |s|
    ensures r >= 0 ==> beats[s[r]].id == id && forall p :: 0 <= p < r ==> beats[s[p]].id != id
    ensures r == -1 ==> forall p :: 0 <= p < |s| ==> beats[s[p]].id != id
  {
    if s == [] then -1
    else if beats[s[0]].id == id then 0
    else
      var r := FindInOrder(beats, s[1..], id);
      if r == -1 then -1 else r + 1
  }

  /** The orderings of the beats at `a` and `b` exchanged. */
  function SwapOrderings(beats: seq<Beat>, a: nat, b: nat): (r: seq<Beat>)
    requires a < |beats| && b < |beats|
    ensures |r| == |beats|
  {
    beats[a := beats[a].(ordering := beats[b].ordering)][b := beats[b].(ordering := beats[a].ordering)]
  }

  /**
   * The up (`up`) or down button of the card of beat `b`: the beat trades
   * orderings with the one before (after) it in the sorted list, then all
   * are renumbered; a beat already first (last) stays put.
   */
  function Moved(beats: seq<Beat>, b: nat, up: bool, readOnly: bool): (r: seq<Beat>)
    requires b < |beats|
    ensures |r| == |beats|
  {
    var s := SortedOrder(beats);
    var pos := FindInOrder(beats, s, beats[b].id);
    if readOnly then beats
    else if up && pos <= 0 then beats
    else if !up && (pos == -1 || pos >= |s| - 1) then beats
    else
      var k := if up then s[pos - 1] else s[pos + 1];
      Renumbered(SwapOrderings(beats, b, k))
  }

  /** Keys that tell the beats apart. */
  predicate DistinctOrderings(beats: seq<Beat>) {
    forall i, j :: 0 <= i < |beats| && 0 <= j < |beats| && i != j ==> beats[i].ordering != beats[j].ordering
  }

  predicate UniqueIds(beats: seq<Beat>) {
    forall i, j :: 0 <= i < |beats| && 0 <= j < |beats| && beats[i].id == beats[j].id ==> i == j
  }

  /** The sorted list with the entries at `p` and `p + 1` exchanged. */
  function SwapAt(s: seq<nat>, p: nat): (r: seq<nat>)
    requires p + 1 < |s|
  {
    s[p := s[p + 1]][p + 1 := s[p]]
  }

  lemma {:induction false} SwapAtMultiset(s: seq<nat>, p: nat)
    requires p + 1 < |s|
    ensures multiset(SwapAt(s, p)) == multiset(s)
  {
    var pre, post := s[..p], s[p + 2..];
    assert s == pre + [s[p], s[p + 1]] + post;
    assert SwapAt(s, p) == pre + [s[p + 1], s[p]] + post;
    assert multiset([s[p], s[p + 1]]) == multiset([s[p + 1], s[p]]);
  }

  /**
   * With distinct orderings, exchanging the orderings of two neighbours in
   * the sorted list exchanges them in the sorted list and nothing else.
   */
  lemma {:induction false} SwapSorted(beats: seq<Beat>, p: nat)
    requires DistinctOrderings(beats) && p + 1 < |beats|
    ensures SortedOrder(SwapOrderings(beats, SortedOrder(beats)[p], SortedOrder(beats)[p + 1])) == SwapAt(SortedOrder(beats), p)
  {
    var s := SortedOrder(beats);
    var a, b := s[p], s[p + 1];
    var sw := SwapOrderings(beats, a, b);
    var t := SwapAt(s, p);
    var key, key2 := OrderKey(beats), OrderKey(sw);
    assert SortedBy(s, key);
    SwapKeys(beats, a, b);
    SwapAtSorted(s, p, key, key2);
    SwapAtMultiset(s, p);
    assert multiset(SortedOrder(sw)) == multiset(Range(|sw|)) == multiset(s);
    forall x, y | x in SortedOrder(sw) && y in SortedOrder(sw) && key2(x) == key2(y) ensures x == y {
    }
    SortedUnique(SortedOrder(sw), t, key2);
  }

  lemma {:induction false} SwapKeys(beats: seq<Beat>, a: nat, b: nat)
    requires a < |beats| && b < |beats| && a != b && DistinctOrderings(beats)
    ensures OrderKey(SwapOrderings(beats, a, b))(a) == OrderKey(beats)(b)
    ensures OrderKey(SwapOrderings(beats, a, b))(b) == OrderKey(beats)(a)
    ensures forall j: nat :: j != a && j != b ==> OrderKey(SwapOrderings(beats, a, b))(j) == OrderKey(beats)(j)
    ensures forall x: nat, y: nat :: x < |beats| && y < |beats| && x != y ==>
      OrderKey(SwapOrderings(beats, a, b))(x) != OrderKey(SwapOrderings(beats, a, b))(y)
  {
  }

  /** Exchanging neighbours in a sorted list, together with their keys, keeps it sorted. */
  lemma {:induction false} SwapAtSorted(s: seq<nat>, p: nat, key: nat -> int, key2: nat -> int)
    requires p + 1 < |s| && SortedBy(s, key) && Distinct(s)
    requires key2(s[p]) == key(s[p + 1]) && key2(s[p + 1]) == key(s[p])
    requires forall j: nat :: j != s[p] && j != s[p + 1] ==> key2(j) == key(j)
    ensures SortedBy(SwapAt(s, p), key2)
  {
    var t := SwapAt(s, p);
    forall i, j | 0 <= i < j < |t| ensures key2(t[i]) <= key2(t[j]) {
      if i == p && j == p + 1 {
      } else if i == p {
        assert key(s[p + 1]) <= key(s[j]);
      } else if i == p + 1 {
        assert key(s[p]) <= key(s[j]);
      } else if j == p {
        assert key(s[i]) <= key(s[p + 1]);
      } else if j == p + 1 {
        assert key(s[i]) <= key(s[p]);
      } else {
        assert key(s[i]) <= key(s[j]);
      }
    }
  }

  /**
   * With distinct orderings and ids, the up button moves the beat one place
   * earlier in the renumbered order and the one before it one place later;
   * every other beat keeps its place. The down button is its mirror image.
   */
  lemma {:induction false} MovedUpPlaces(beats: seq<Beat>, b: nat)
    requires b < |beats| && DistinctOrderings(beats) && UniqueIds(beats)
    requires Rank(beats, b) > 0
    ensures var s, p := SortedOrder(beats), Rank(beats, b);
      var r := Moved(beats, b, true, false);
      r[b].ordering == Slot(p - 1) && r[s[p - 1]].ordering == Slot(p) &&
      forall q :: 0 <= q < |beats| && q != p && q != p - 1 ==> r[s[q]].ordering == Slot(q)
  {
    var s := SortedOrder(beats);
    var p := Rank(beats, b);
    assert FindInOrder(beats, s, beats[b].id) == p;
    SwapPlaces(beats, p - 1);
  }

  lemma {:induction false} MovedDownPlaces(beats: seq<Beat>, b: nat)
    requires b < |beats| && DistinctOrderings(beats) && UniqueIds(beats)
    requires Rank(beats, b) < |beats| - 1
    ensures var s, p := SortedOrder(beats), Rank(beats, b);
      var r := Moved(beats, b, false, false);
      r[b].ordering == Slot(p + 1) && r[s[p + 1]].ordering == Slot(p) &&
      forall q :: 0 <= q < |beats| && q != p && q != p + 1 ==> r[s[q]].ordering == Slot(q)
  {
    var s := SortedOrder(beats);
    var p := Rank(beats, b);
    assert FindInOrder(beats, s, beats[b].id) == p;
    SwapPlaces(beats, p);
    assert SwapOrderings(beats, b, s[p + 1]) == SwapOrderings(beats, s[p], s[p + 1]);
  }

  /** Exchanging the orderings of the neighbours at places `p` and `p + 1` and renumbering exchanges their slots. */
  lemma {:induction false} SwapPlaces(beats: seq<Beat>, p: nat)
    requires DistinctOrderings(beats) && p + 1 < |beats|
    ensures var s := SortedOrder(beats);
      var r := Renumbered(SwapOrderings(beats, s[p], s[p + 1]));
      SwapOrderings(beats, s[p + 1], s[p]) == SwapOrderings(beats, s[p], s[p + 1]) &&
      r[s[p]].ordering == Slot(p + 1) && r[s[p + 1]].ordering == Slot(p) &&
      forall q :: 0 <= q < |beats| && q != p && q != p + 1 ==> r[s[q]].ordering == Slot(q)
  {
    var s := SortedOrder(beats);
    var sw := SwapOrderings(beats, s[p], s[p + 1]);
    SwapOrderingsSym(beats, s[p], s[p + 1]);
    SwapSorted(beats, p);
    RenumberedSlots(sw);
    SwapAtPlaces(s, p);
  }

  /** Exchanging the orderings of two different beats does not depend on the order the two are named in. */
  lemma {:induction false} SwapOrderingsSym(beats: seq<Beat>, a: nat, b: nat)
    requires a < |beats| && b < |beats| && a != b
    ensures SwapOrderings(beats, b, a) == SwapOrderings(beats, a, b)
  {
  }

  /** Every beat's renumbered ordering is the slot of its place in the sorted list. */
  lemma {:induction false} RenumberedSlots(beats: seq<Beat>)
    ensures forall q :: 0 <= q < |beats| ==> Renumbered(beats)[SortedOrder(beats)[q]].ordering == Slot(q)
  {
    forall q | 0 <= q < |beats| ensures Renumbered(beats)[SortedOrder(beats)[q]].ordering == Slot(q) {
      RenumberedSlot(beats, q);
    }
  }

  /** Where the entries of the sorted list are after the exchange at `p`. */
  lemma {:induction false} SwapAtPlaces(s: seq<nat>, p: nat)
    requires p + 1 < |s|
    ensures SwapAt(s, p)[p] == s[p + 1] && SwapAt(s, p)[p + 1] == s[p]
    ensures forall q :: 0 <= q < |s| && q != p && q != p + 1 ==> SwapAt(s, p)[q] == s[q]
  {
  }

  // ---------------------------------------------------------------- the outline

  /** The editor's `beatsData`. */
  class BeatList {
    var beats: seq<Beat>

    constructor (beats: seq<Beat>)
      ensures this.beats == beats
    {
      this.beats := beats;
    }

    /** `normalizeBeatsOrdering()` (src/frontend/editor.js:2967-2971). */
    method NormalizeBeatsOrdering()
      modifies this
      ensures beats == Renumbered(old(beats))
    {
      var before := beats;
      var sorted := SortedOrder(before);
      var o := 10;
      var i := 0;
      while i < |sorted|
        invariant 0 <= i <= |sorted| && o == Slot(i) && beats == RenumberedUpTo(before, sorted, i)
      {
        RenumberedStep(before, sorted, i);
        beats := beats[sorted[i] := beats[sorted[i]].(ordering := o)];
        o := o + 10;
        i := i + 1;
      }
      RenumberedAll(before);
    }

    /** The up and down buttons of the card of beat `b` (src/frontend/editor.js:2754-2788). */
    method Move(b: nat, up: bool, readOnly: bool)
      requires b < |beats|
      modifies this
      ensures beats == Moved(old(beats), b, up, readOnly)
    {
      if readOnly {
        return;
      }
      var swapped, changed := SwapWithNeighbour(beats, b, up);
      if !changed {
        return;
      }
      beats := swapped;
      NormalizeBeatsOrdering();
    }
  }

  /**
   * The first half of a button press: find the beat's place in the sorted
   * list and trade orderings with its neighbour there, unless it is already
   * at that end.
   */
  method SwapWithNeighbour(beats: seq<Beat>, b: nat, up: bool) returns (r: seq<Beat>, changed: bool)
    requires b < |beats|
    ensures !changed ==> r == beats && Moved(beats, b, up, false) == beats
    ensures changed ==> Moved(beats, b, up, false) == Renumbered(r)
  {
    var ordered := SortedOrder(beats);
    var pos := FindInOrder(beats, ordered, beats[b].id);
    if (up && pos <= 0) || (!up && (pos == -1 || pos >= |ordered| - 1)) {
      MovedStays(beats, b, up, ordered, pos);
      return beats, false;
    }
    var k := if up then ordered[pos - 1] else ordered[pos + 1];
    r := SwapOrderings(beats, b, k);
    MovedSwaps(beats, b, up, ordered, pos);
    changed := true;
  }

  /** An enabled button at the end it points to moves nothing. */
  lemma {:induction false} MovedStays(beats: seq<Beat>, b: nat, up: bool, s: seq<nat>, pos: int)
    requires b < |beats| && s == SortedOrder(beats) && pos == FindInOrder(beats, s, beats[b].id)
    requires (up && pos <= 0) || (!up && (pos == -1 || pos >= |s| - 1))
    ensures Moved(beats, b, up, false) == beats
  {
  }

  /** Otherwise the beat trades orderings with its neighbour in the sorted list and all are renumbered. */
  lemma {:induction false} MovedSwaps(beats: seq<Beat>, b: nat, up: bool, s: seq<nat>, pos: int)
    requires b < |beats| && s == SortedOrder(beats) && pos == FindInOrder(beats, s, beats[b].id)
    requires up ==> pos > 0
    requires !up ==> 0 <= pos < |s| - 1
    ensures Moved(beats, b, up, false) == Renumbered(SwapOrderings(beats, b, if up then s[pos - 1] else s[pos + 1]))
  {
  }

  /** The beats after the `forEach` of the renumbering has handled the first `i` entries of the sorted list `s`. */
  ghost function RenumberedUpTo(beats: seq<Beat>, s: seq<nat>, i: nat): seq<Beat>
    requires forall k :: 0 <= k < |s| ==> s[k] < |beats|
  {
    seq(|beats|, j requires 0 <= j < |beats| => if j in s && PosOf(s, j) < i then beats[j].(ordering := Slot(PosOf(s, j))) else beats[j])
  }

  lemma {:induction false} RenumberedStep(beats: seq<Beat>, s: seq<nat>, i: nat)
    requires Distinct(s) && i < |s| && forall k :: 0 <= k < |s| ==> s[k] < |beats|
    ensures RenumberedUpTo(beats, s, i + 1) == RenumberedUpTo(beats, s, i)[s[i] := beats[s[i]].(ordering := Slot(i))]
  {
    DistinctPos(s, i);
  }

  lemma {:induction false} RenumberedAll(beats: seq<Beat>)
    ensures RenumberedUpTo(beats, SortedOrder(beats), |SortedOrder(beats)|) == Renumbered(beats)
  {
  }
}
