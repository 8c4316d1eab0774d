/**
 * The editor's timeline board (src/frontend/editor.js): events laid out in
 * columns by `ordering` and stacked inside a column by `stackPos`, the two
 * renumberings `normalizeOrderings` and `restack`, the drop handler that
 * moves a dragged card beside or above/below another one, and the button
 * that adds an event at the end.
 */
module TimelineBoard {
  import opened Wrappers
  import opened Sorting

  /** One timeline event as the editor keeps it in `timelineData`. */
  datatype TEv = TEv(id: string, title: string, desc: string, ordering: int, colorId: string, stackPos: int)

  // ---------------------------------------------------------------- columns

  /** The orderings, in array order. */
  function Ords(evs: seq<TEv>): (r: seq<int>)
    ensures |r| == |evs| && forall j :: 0 <= j < |evs| ==> r[j] == evs[j].ordering
  {
    seq(|evs|, j requires 0 <= j < |evs| => evs[j].ordering)
  }

  /** The distinct orderings in ascending order: the columns of the board. */
  function Keys(evs: seq<TEv>): (r: seq<int>)
    ensures Increasing(r)
    ensures forall j :: 0 <= j < |evs| ==> evs[j].ordering in r
    ensures forall x :: x in r ==> exists j :: 0 <= j < |evs| && evs[j].ordering == x
  {
    var os := Ords(evs);
    var r := SortedKeys(os);
    assert forall j :: 0 <= j < |evs| ==> os[j] in os;
    r
  }

  /** Where `x` stands in an increasing list. */
  function IndexOf(r: seq<int>, x: int): (i: nat)
    requires x in r
    ensures i < |r| && r[i] == x
  {
    if r[0] == x then 0 else 1 + IndexOf(r[1..], x)
  }

  lemma {:induction false} IndexOfIncreasing(r: seq<int>, x: int, y: int)
    requires Increasing(r) && x in r && y in r
    ensures IndexOf(r, x) < IndexOf(r, y) <==> x < y
    ensures IndexOf(r, x) == IndexOf(r, y) <==> x == y
  {
  }

  /** The ordering `normalizeOrderings` gives the column at index `g`: 10, 20, 30, ... */
  function Column(g: nat): int {
    10 * (g + 1)
  }

  /**
   * `normalizeOrderings()`: the events grouped by ordering and the groups,
   * in ascending order of ordering, numbered by `Column`.
   */
  function Normalized(evs: seq<TEv>): (r: seq<TEv>)
    ensures |r| == |evs|
  {
    var keys := Keys(evs);
    seq(|evs|, j requires 0 <= j < |evs| => evs[j].(ordering := Column(IndexOf(keys, evs[j].ordering))))
  }

  /** Normalizing keeps the columns' order and which events share a column, and changes nothing else. */
  lemma {:induction false} NormalizedOrder(evs: seq<TEv>)
    ensures forall i, j :: 0 <= i < |evs| && 0 <= j < |evs| ==>
      (Normalized(evs)[i].ordering < Normalized(evs)[j].ordering <==> evs[i].ordering < evs[j].ordering)
    ensures forall i, j :: 0 <= i < |evs| && 0 <= j < |evs| ==>
      (Normalized(evs)[i].ordering == Normalized(evs)[j].ordering <==> evs[i].ordering == evs[j].ordering)
    ensures forall j :: 0 <= j < |evs| ==> Normalized(evs)[j] == evs[j].(ordering := Normalized(evs)[j].ordering)
  {
    var keys := Keys(evs);
    forall i, j | 0 <= i < |evs| && 0 <= j < |evs|
      ensures Normalized(evs)[i].ordering < Normalized(evs)[j].ordering <==> evs[i].ordering < evs[j].ordering
      ensures Normalized(evs)[i].ordering == Normalized(evs)[j].ordering <==> evs[i].ordering == evs[j].ordering
    {
      IndexOfIncreasing(keys, evs[i].ordering, evs[j].ordering);
    }
  }

  /**
   * The new orderings are 10, 20, ..., ten times the number of columns: the
   * events of the column at index `g` are exactly the ones that get `Column(g)`.
   */
  lemma {:induction false} NormalizedValues(evs: seq<TEv>)
    ensures forall j :: 0 <= j < |evs| ==>
      Normalized(evs)[j].ordering % 10 == 0 && 10 <= Normalized(evs)[j].ordering <= 10 * |Keys(evs)|
    ensures forall g, j :: 0 <= g < |Keys(evs)| && 0 <= j < |evs| ==>
      (Normalized(evs)[j].ordering == Column(g) <==> evs[j].ordering == Keys(evs)[g])
  {
    var keys := Keys(evs);
    forall g, j | 0 <= g < |keys| && 0 <= j < |evs|
      ensures Normalized(evs)[j].ordering == Column(g) <==> evs[j].ordering == keys[g]
    {
      IndexOfAt(keys, g);
      IndexOfIncreasing(keys, keys[g], evs[j].ordering);
    }
  }

  lemma {:induction false} IndexOfAt(r: seq<int>, g: nat)
    requires Increasing(r) && g < |r|
    ensures IndexOf(r, r[g]) == g
  {
    var i := IndexOf(r, r[g]);
    assert r[i] == r[g];
  }

  // ---------------------------------------------------------------- stacks

  /** The previous `stackPos` of the event at an index. */
  function StackKey(evs: seq<TEv>): nat -> int {
    (j: nat) => if j < |evs| then evs[j].stackPos else 0
  }

  /** `timelineData.filter(e => e.ordering === o)`, as indices in array order. */
  function GroupIdx(evs: seq<TEv>, o: int): (r: seq<nat>)
    ensures forall k :: 0 <= k < |r| ==> r[k] < |evs| && evs[r[k]].ordering == o
    ensures forall j :: 0 <= j < |evs| && evs[j].ordering == o ==> j in r
    ensures forall a, b :: 0 <= a < b < |r| ==> r[a] < r[b]
  {
    if evs == [] then []
    else
      var n := |evs| - 1;
      var init := GroupIdx(evs[..n], o);
      init + (if evs[n].ordering == o then [n] else [])
  }

  /** The group sorted by its previous `stackPos`, ties in array order. */
  function StackOrder(evs: seq<TEv>, o: int): seq<nat> {
    SortBy(GroupIdx(evs, o), StackKey(evs))
  }

  /** `restack(o)`: the events of column `o` get stack positions 0, 1, 2, ... in the order of their old ones. */
  function Restacked(evs: seq<TEv>, o: int): (r: seq<TEv>)
    ensures |r| == |evs|
  {
    var s := StackOrder(evs, o);
    seq(|evs|, j requires 0 <= j < |evs| => if j in s then evs[j].(stackPos := PosOf(s, j)) else evs[j])
  }

  /** The sorted group lists each index of the column exactly once. */
  lemma {:induction false} StackOrderFacts(evs: seq<TEv>, o: int)
    ensures Distinct(StackOrder(evs, o)) && |StackOrder(evs, o)| == |GroupIdx(evs, o)|
    ensures forall j: nat :: j in StackOrder(evs, o) <==> j < |evs| && evs[j].ordering == o
    ensures forall k :: 0 <= k < |StackOrder(evs, o)| ==> StackOrder(evs, o)[k] < |evs|
  {
    var g, s := GroupIdx(evs, o), StackOrder(evs, o);
    SortedDistinct(g, StackKey(evs));
    forall k | 0 <= k < |s| ensures s[k] < |evs| {
      assert s[k] in s;
    }
  }

  lemma {:induction false} StackOrderIndices(evs: seq<TEv>, o: int)
    ensures Distinct(StackOrder(evs, o))
    ensures forall k :: 0 <= k < |StackOrder(evs, o)| ==> StackOrder(evs, o)[k] < |evs|
  {
    StackOrderFacts(evs, o);
  }

  lemma {:induction false} StackOrderMember(evs: seq<TEv>, o: int, c: nat)
    requires c in StackOrder(evs, o)
    ensures c < |evs| && evs[c].ordering == o
  {
    StackOrderFacts(evs, o);
  }

  lemma {:induction false} RestackedAt(evs: seq<TEv>, o: int, j: nat)
    requires j < |evs|
    ensures evs[j].ordering == o ==> j in StackOrder(evs, o) && Restacked(evs, o)[j] == evs[j].(stackPos := PosOf(StackOrder(evs, o), j))
    ensures evs[j].ordering != o ==> Restacked(evs, o)[j] == evs[j]
  {
    StackOrderFacts(evs, o);
  }

  /** Restacking touches only the stack positions of column `o`. */
  lemma {:induction false} RestackedFrame(evs: seq<TEv>, o: int)
    ensures forall j :: 0 <= j < |evs| ==> Restacked(evs, o)[j] == evs[j].(stackPos := Restacked(evs, o)[j].stackPos)
    ensures forall j :: 0 <= j < |evs| && evs[j].ordering != o ==> Restacked(evs, o)[j] == evs[j]
  {
    forall j | 0 <= j < |evs|
      ensures Restacked(evs, o)[j] == evs[j].(stackPos := Restacked(evs, o)[j].stackPos)
      ensures evs[j].ordering != o ==> Restacked(evs, o)[j] == evs[j]
    {
      RestackedAt(evs, o, j);
    }
  }

  /**
   * The column's k events get the positions 0 .. k-1, each once: the event
   * at place p of the sorted column gets position p; a smaller old position
   * stays smaller (`RestackedOrder`), and events that shared an old position
   * are stacked in array order (`RestackedTies`).
   */
  lemma {:induction false} RestackedPositions(evs: seq<TEv>, o: int)
    ensures |StackOrder(evs, o)| == |GroupIdx(evs, o)|
    ensures forall p :: 0 <= p < |StackOrder(evs, o)| ==>
      StackOrder(evs, o)[p] < |evs| && Restacked(evs, o)[StackOrder(evs, o)[p]].stackPos == p
    ensures forall j :: 0 <= j < |evs| && evs[j].ordering == o ==> 0 <= Restacked(evs, o)[j].stackPos < |GroupIdx(evs, o)|
    ensures forall i, j :: 0 <= i < |evs| && 0 <= j < |evs| && i != j && evs[i].ordering == o && evs[j].ordering == o ==>
      Restacked(evs, o)[i].stackPos != Restacked(evs, o)[j].stackPos
  {
    var s := StackOrder(evs, o);
    StackOrderFacts(evs, o);
    forall p | 0 <= p < |s| ensures Restacked(evs, o)[s[p]].stackPos == p {
      RestackedAt(evs, o, s[p]);
      DistinctPos(s, p);
    }
    forall j | 0 <= j < |evs| && evs[j].ordering == o ensures 0 <= Restacked(evs, o)[j].stackPos < |GroupIdx(evs, o)| {
      RestackedAt(evs, o, j);
    }
    forall i, j | 0 <= i < |evs| && 0 <= j < |evs| && i != j && evs[i].ordering == o && evs[j].ordering == o
      ensures Restacked(evs, o)[i].stackPos != Restacked(evs, o)[j].stackPos
    {
      RestackedAt(evs, o, i);
      RestackedAt(evs, o, j);
    }
  }

  /** Column `o` is stacked: its k events sit on distinct positions among 0 .. k-1. */
  predicate Stacks(evs: seq<TEv>, o: int) {
    (forall j :: 0 <= j < |evs| && evs[j].ordering == o ==> 0 <= evs[j].stackPos < |GroupIdx(evs, o)|) &&
    (forall i, j :: 0 <= i < |evs| && 0 <= j < |evs| && i != j && evs[i].ordering == o && evs[j].ordering == o ==>
      evs[i].stackPos != evs[j].stackPos)
  }

  /** A column's members depend only on the orderings. */
  lemma {:induction false} GroupIdxOrderings(a: seq<TEv>, b: seq<TEv>, o: int)
    requires |a| == |b| && forall j :: 0 <= j < |a| ==> a[j].ordering == b[j].ordering
    ensures GroupIdx(a, o) == GroupIdx(b, o)
  {
    if a != [] {
      GroupIdxOrderings(a[..|a| - 1], b[..|b| - 1], o);
    }
  }

  /** Restacking a column leaves it stacked, and leaves any other stacked column stacked. */
  lemma {:induction false} RestackedStacks(evs: seq<TEv>, o: int, o2: int)
    requires o2 == o || Stacks(evs, o2)
    ensures Stacks(Restacked(evs, o), o2)
  {
    var r := Restacked(evs, o);
    GroupIdxOrderings(r, evs, o2);
    RestackedFrame(evs, o);
    if o2 == o {
      RestackedPositions(evs, o);
    } else {
      forall j | 0 <= j < |evs| && r[j].ordering == o2 ensures r[j] == evs[j] {
        RestackedAt(evs, o, j);
      }
    }
  }

  lemma {:induction false} RestackedOrder(evs: seq<TEv>, o: int, i: nat, j: nat)
    requires i < |evs| && j < |evs| && evs[i].ordering == o && evs[j].ordering == o
    requires evs[i].stackPos < evs[j].stackPos
    ensures Restacked(evs, o)[i].stackPos < Restacked(evs, o)[j].stackPos
  {
    RestackedAt(evs, o, i);
    RestackedAt(evs, o, j);
    SortedPosOrder(StackOrder(evs, o), StackKey(evs), i, j);
  }

  /**
   * When nothing else in the column lies between the old positions of `a`
   * and `b`, restacking puts `b` right on top of `a`.
   */
  lemma {:induction false} RestackedAdjacent(evs: seq<TEv>, o: int, a: nat, b: nat)
    requires a < |evs| && b < |evs| && evs[a].ordering == o && evs[b].ordering == o
    requires evs[a].stackPos < evs[b].stackPos
    requires forall c :: 0 <= c < |evs| && c != a && c != b && evs[c].ordering == o ==>
      evs[c].stackPos < evs[a].stackPos || evs[b].stackPos < evs[c].stackPos
    ensures Restacked(evs, o)[a].stackPos + 1 == Restacked(evs, o)[b].stackPos
  {
    var s := StackOrder(evs, o);
    StackOrderIndices(evs, o);
    RestackedAt(evs, o, a);
    RestackedAt(evs, o, b);
    var pa, pb := PosOf(s, a), PosOf(s, b);
    SortedPosOrder(s, StackKey(evs), a, b);
    if pa + 1 < pb {
      SortedGap(s, StackKey(evs), pa, pb);
      StackOrderMember(evs, o, s[pa + 1]);
    }
  }

  /** Events of the column that shared an old position keep their array order. */
  lemma {:induction false} RestackedTies(evs: seq<TEv>, o: int, i: nat, j: nat)
    requires i < j < |evs| && evs[i].ordering == o && evs[j].ordering == o
    requires evs[i].stackPos == evs[j].stackPos
    ensures Restacked(evs, o)[i].stackPos < Restacked(evs, o)[j].stackPos
  {
    var g := GroupIdx(evs, o);
    StackOrderFacts(evs, o);
    RestackedAt(evs, o, i);
    RestackedAt(evs, o, j);
    var a, b :| 0 <= a < |g| && 0 <= b < |g| && g[a] == i && g[b] == j;
    assert Before(g, i, j);
    SortedTies(g, StackKey(evs), i, j);
  }

  // ---------------------------------------------------------------- drag and drop

  /** The four regions of a card a drop can land in. */
  datatype Region = Top | Bottom | Left | Right

  /**
   * `getDropRegion`: the outer quarters of the card's height win over the
   * outer quarters of its width; the middle counts as the right side.
   * `x` and `y` are measured from the card's top-left corner.
   */
  function DropRegion(x: real, y: real, w: real, h: real): Region {
    var horiz := if x < w * 0.25 then Some(Left) else if x > w * 0.75 then Some(Right) else None;
    var vert := if y < h * 0.25 then Some(Top) else if y > h * 0.75 then Some(Bottom) else None;
    if vert.Some? then vert.value else if horiz.Some? then horiz.value else Right
  }

  /** Mirroring the drop point left to right swaps the side regions and keeps the top and bottom ones. */
  lemma {:induction false} DropRegionMirror(x: real, y: real, w: real, h: real)
    requires w >= 0.0 && h >= 0.0
    ensures DropRegion(x, y, w, h) == Left ==> DropRegion(w - x, y, w, h) == Right
    ensures DropRegion(x, y, w, h) == Right && x > w * 0.75 ==> DropRegion(w - x, y, w, h) == Left
    ensures DropRegion(x, y, w, h) in {Top, Bottom} ==> DropRegion(w - x, y, w, h) == DropRegion(x, y, w, h)
  {
  }

  /** Mirroring the drop point top to bottom swaps the top and bottom regions. */
  lemma {:induction false} DropRegionFlip(x: real, y: real, w: real, h: real)
    requires w >= 0.0 && h >= 0.0
    ensures DropRegion(x, y, w, h) == Top <==> DropRegion(x, h - y, w, h) == Bottom
    ensures DropRegion(x, y, w, h) == Left <==> DropRegion(x, h - y, w, h) == Left
  {
  }

  /** `timelineData.find(x => x.id === id)`: the first event with the id, or -1. */
  function FindId(evs: seq<TEv>, id: string): (r: int)
    ensures -1 <= r < |evs|
    ensures r >= 0 ==> evs[r].id == id && forall k :: 0 <= k < r ==> evs[k].id != id
    ensures r == -1 <==> forall k :: 0 <= k < |evs| ==> evs[k].id != id
  {
    if evs == [] then -1
    else if evs[0].id == id then 0
    else
      var r := FindId(evs[1..], id);
      if r == -1 then -1 else r + 1
  }

  /** The guard of the drop handler: a drag in progress, of another card, on an editable board, of an event that exists. */
  function DropSource(evs: seq<TEv>, dragging: string, t: nat, readOnly: bool): (s: int)
    requires t < |evs|
    ensures -1 <= s < |evs|
    ensures s >= 0 ==> s != t && evs[s].id == dragging
  {
    if dragging == "" || dragging == evs[t].id || readOnly then -1 else FindId(evs, dragging)
  }

  /** Every event of column `o` other than the ones with the dragged id, at `p` or above, moves up one place. */
  function Shifted(evs: seq<TEv>, o: int, id: string, p: int): (r: seq<TEv>)
    ensures |r| == |evs|
  {
    seq(|evs|, j requires 0 <= j < |evs| =>
      if evs[j].ordering == o && evs[j].id != id && evs[j].stackPos >= p then evs[j].(stackPos := evs[j].stackPos + 1)
      else evs[j])
  }

  /** The first half of a top or bottom drop: the source moved into the target's column, the events from the new position on shifted up. */
  function Placed(evs: seq<TEv>, s: nat, t: nat, below: bool): (r: seq<TEv>)
    requires s < |evs| && t < |evs| && s != t
    ensures |r| == |evs|
  {
    var tgt := evs[t].ordering;
    var e1 := evs[s := evs[s].(ordering := tgt)];
    var newPos := e1[t].stackPos + (if below then 1 else 0);
    var e2 := Shifted(e1, tgt, e1[s].id, newPos);
    e2[s := e2[s].(stackPos := newPos)]
  }

  /** A drop in the top or bottom region: the source joins the target's column just above or below it, and both columns are restacked. */
  function Stacked(evs: seq<TEv>, s: nat, t: nat, below: bool): (r: seq<TEv>)
    requires s < |evs| && t < |evs| && s != t
    ensures |r| == |evs|
  {
    var tgt := evs[t].ordering;
    var was := evs[s].ordering;
    var e4 := Restacked(Placed(evs, s, t, below), tgt);
    if was != tgt then Restacked(e4, was) else e4
  }

  /** What placing does to each event. */
  lemma {:induction false} PlacedAt(evs: seq<TEv>, s: nat, t: nat, below: bool, j: nat)
    requires s < |evs| && t < |evs| && s != t && j < |evs|
    ensures var p := Placed(evs, s, t, below)[j];
      var newPos := evs[t].stackPos + (if below then 1 else 0);
      p == evs[j].(ordering := p.ordering, stackPos := p.stackPos) &&
      (j == s ==> p.ordering == evs[t].ordering && p.stackPos == newPos) &&
      (j != s ==> p.ordering == evs[j].ordering) &&
      (j != s && evs[j].ordering == evs[t].ordering && evs[j].id != evs[s].id && evs[j].stackPos >= newPos ==> p.stackPos == evs[j].stackPos + 1) &&
      (j != s && !(evs[j].ordering == evs[t].ordering && evs[j].id != evs[s].id && evs[j].stackPos >= newPos) ==> p.stackPos == evs[j].stackPos)
  {
  }

  /** A drop in the left or right region: the source gets a column of its own just before or after the target's. */
  function Beside(evs: seq<TEv>, s: nat, t: nat, after: bool): (r: seq<TEv>)
    requires s < |evs| && t < |evs|
    ensures |r| == |evs|
  {
    var o := evs[t].ordering + (if after then 1 else -1);
    Normalized(evs[s := evs[s].(ordering := o, stackPos := 0)])
  }

  /** The events after the dragged card `dragging` is dropped on the card of event `t` in `region`. */
  function Dropped(evs: seq<TEv>, dragging: string, t: nat, region: Region, readOnly: bool): (r: seq<TEv>)
    requires t < |evs|
    ensures |r| == |evs|
  {
    var s := DropSource(evs, dragging, t, readOnly);
    if s < 0 then evs
    else match region
      case Left => Beside(evs, s, t, false)
      case Right => Beside(evs, s, t, true)
      case Top => Stacked(evs, s, t, false)
      case Bottom => Stacked(evs, s, t, true)
  }

  /** A drop only moves events: ids, titles, descriptions and colours stay where they were. */
  lemma {:induction false} DroppedKeepsContent(evs: seq<TEv>, dragging: string, t: nat, region: Region, readOnly: bool)
    requires t < |evs|
    ensures forall j :: 0 <= j < |evs| ==>
      Dropped(evs, dragging, t, region, readOnly)[j] ==
      evs[j].(ordering := Dropped(evs, dragging, t, region, readOnly)[j].ordering,
              stackPos := Dropped(evs, dragging, t, region, readOnly)[j].stackPos)
  {
    var s := DropSource(evs, dragging, t, readOnly);
    if s >= 0 {
      if region == Left || region == Right {
        BesideKeepsContent(evs, s, t, region == Right);
      } else {
        StackedKeepsContent(evs, s, t, region == Bottom);
      }
    }
  }

  lemma {:induction false} BesideKeepsContent(evs: seq<TEv>, s: nat, t: nat, after: bool)
    requires s < |evs| && t < |evs|
    ensures forall j :: 0 <= j < |evs| ==>
      Beside(evs, s, t, after)[j] == evs[j].(ordering := Beside(evs, s, t, after)[j].ordering, stackPos := Beside(evs, s, t, after)[j].stackPos)
  {
    var o := evs[t].ordering + (if after then 1 else -1);
    NormalizedOrder(evs[s := evs[s].(ordering := o, stackPos := 0)]);
  }

  lemma {:induction false} StackedKeepsContent(evs: seq<TEv>, s: nat, t: nat, below: bool)
    requires s < |evs| && t < |evs| && s != t
    ensures forall j :: 0 <= j < |evs| ==>
      Stacked(evs, s, t, below)[j] == evs[j].(ordering := Stacked(evs, s, t, below)[j].ordering, stackPos := Stacked(evs, s, t, below)[j].stackPos)
  {
    var e3 := Placed(evs, s, t, below);
    var e4 := Restacked(e3, evs[t].ordering);
    forall j | 0 <= j < |evs|
      ensures Stacked(evs, s, t, below)[j] == evs[j].(ordering := Stacked(evs, s, t, below)[j].ordering, stackPos := Stacked(evs, s, t, below)[j].stackPos)
    {
      PlacedAt(evs, s, t, below, j);
      RestackedAt(e3, evs[t].ordering, j);
      RestackedAt(e4, evs[s].ordering, j);
    }
  }

  /**
   * Left and right drops: the source's column comes right before (or after)
   * the target's, with nothing in between, and the other events' columns
   * keep their order.
   */
  lemma {:induction false} BesideLands(evs: seq<TEv>, s: nat, t: nat, after: bool)
    requires s < |evs| && t < |evs| && s != t
    ensures var r := Beside(evs, s, t, after);
      (if after then r[t].ordering < r[s].ordering else r[s].ordering < r[t].ordering) &&
      r[s].stackPos == 0 &&
      (forall j :: 0 <= j < |evs| && j != s && !after && r[j].ordering < r[t].ordering ==> r[j].ordering <= r[s].ordering) &&
      (forall j :: 0 <= j < |evs| && j != s && after && r[t].ordering < r[j].ordering ==> r[s].ordering <= r[j].ordering) &&
      (forall i, j :: 0 <= i < |evs| && 0 <= j < |evs| && i != s && j != s ==>
        (r[i].ordering < r[j].ordering <==> evs[i].ordering < evs[j].ordering))
  {
    var o := evs[t].ordering + (if after then 1 else -1);
    NormalizedOrder(evs[s := evs[s].(ordering := o, stackPos := 0)]);
  }

  /**
   * Top and bottom drops: when the target's column has no two events (other
   * than the source) on one position and ids are unique, the source ends up
   * in the target's column directly above or below the target, and no other
   * event changes column.
   */
  lemma {:induction false} StackedLands(evs: seq<TEv>, s: nat, t: nat, below: bool)
    requires s < |evs| && t < |evs| && s != t
    requires forall i, j :: 0 <= i < |evs| && 0 <= j < |evs| && evs[i].id == evs[j].id ==> i == j
    requires forall i, j :: (0 <= i < |evs| && 0 <= j < |evs| && i != j && i != s && j != s &&
      evs[i].ordering == evs[t].ordering && evs[j].ordering == evs[t].ordering) ==> evs[i].stackPos != evs[j].stackPos
    ensures var r := Stacked(evs, s, t, below);
      r[s].ordering == r[t].ordering == evs[t].ordering &&
      (if below then r[t].stackPos + 1 == r[s].stackPos else r[s].stackPos + 1 == r[t].stackPos) &&
      (forall j :: 0 <= j < |evs| && j != s ==> r[j].ordering == evs[j].ordering)
  {
    var tgt := evs[t].ordering;
    var was := evs[s].ordering;
    var e3 := Placed(evs, s, t, below);
    var e4 := Restacked(e3, tgt);
    PlacedAt(evs, s, t, below, s);
    PlacedAt(evs, s, t, below, t);
    forall j | 0 <= j < |evs| && j != s ensures Stacked(evs, s, t, below)[j].ordering == evs[j].ordering {
      PlacedAt(evs, s, t, below, j);
      RestackedAt(e3, tgt, j);
      RestackedAt(e4, was, j);
    }
    RestackedAt(e4, was, s);
    RestackedAt(e4, was, t);
    RestackedAt(e3, tgt, s);
    RestackedAt(e3, tgt, t);
    if below {
      forall c | 0 <= c < |e3| && c != t && c != s && e3[c].ordering == tgt
        ensures e3[c].stackPos < e3[t].stackPos || e3[s].stackPos < e3[c].stackPos
      {
        PlacedAt(evs, s, t, below, c);
      }
      RestackedAdjacent(e3, tgt, t, s);
    } else {
      forall c | 0 <= c < |e3| && c != t && c != s && e3[c].ordering == tgt
        ensures e3[c].stackPos < e3[s].stackPos || e3[t].stackPos < e3[c].stackPos
      {
        PlacedAt(evs, s, t, below, c);
      }
      RestackedAdjacent(e3, tgt, s, t);
    }
  }

  /** After a top or bottom drop both columns it touched are stacked. */
  lemma {:induction false} StackedColumns(evs: seq<TEv>, s: nat, t: nat, below: bool)
    requires s < |evs| && t < |evs| && s != t
    ensures Stacks(Stacked(evs, s, t, below), evs[t].ordering)
    ensures Stacks(Stacked(evs, s, t, below), evs[s].ordering)
  {
    var tgt, was := evs[t].ordering, evs[s].ordering;
    var e4 := Restacked(Placed(evs, s, t, below), tgt);
    RestackedStacks(Placed(evs, s, t, below), tgt, tgt);
    if was != tgt {
      RestackedStacks(e4, was, tgt);
      RestackedStacks(e4, was, was);
    }
  }

  // ---------------------------------------------------------------- adding

  /** `timelineData.reduce((m, e) => Math.max(m, e.ordering || 0), 0)`. */
  function MaxOrdering(evs: seq<TEv>): int {
    MaxOrZero(Ords(evs))
  }

  /** The event the "+ Evento" button appends, with the id it was given. */
  function NewEvent(evs: seq<TEv>, id: string): (e: TEv)
    ensures e.ordering >= 10 && forall j :: 0 <= j < |evs| ==> evs[j].ordering < e.ordering
    ensures e.title == "" && e.desc == "" && e.colorId == "" && e.stackPos == 0 && e.id == id
  {
    TEv(id, "", "", MaxOrdering(evs) + 10, "", 0)
  }

  // ---------------------------------------------------------------- the board

  /** The events after the `forEach` of `restack` has numbered the first `i` events of the sorted column `s`. */
  ghost function RestackedUpTo(evs: seq<TEv>, s: seq<nat>, i: nat): seq<TEv>
    requires forall k :: 0 <= k < |s| ==> s[k] < |evs|
  {
    seq(|evs|, j requires 0 <= j < |evs| => if j in s && PosOf(s, j) < i then evs[j].(stackPos := PosOf(s, j)) else evs[j])
  }

  lemma {:induction false} RestackedAll(evs: seq<TEv>, o: int)
    ensures forall k :: 0 <= k < |StackOrder(evs, o)| ==> StackOrder(evs, o)[k] < |evs|
    ensures RestackedUpTo(evs, StackOrder(evs, o), |StackOrder(evs, o)|) == Restacked(evs, o)
  {
    StackOrderFacts(evs, o);
  }

  lemma {:induction false} RestackedStep(evs: seq<TEv>, s: seq<nat>, i: nat)
    requires Distinct(s) && i < |s| && forall k :: 0 <= k < |s| ==> s[k] < |evs|
    ensures RestackedUpTo(evs, s, i + 1) == RestackedUpTo(evs, s, i)[s[i] := evs[s[i]].(stackPos := i)]
  {
    DistinctPos(s, i);
  }

  /** The editor's `timelineData` and the operations that rearrange it. */
  class Board {
    var events: seq<TEv>

    constructor (events: seq<TEv>)
      ensures this.events == events
    {
      this.events := events;
    }

    /** `normalizeOrderings()` (src/frontend/editor.js:1439-1452). */
    method NormalizeOrderings()
      modifies this
      ensures events == Normalized(old(events))
    {
      var before := events;
      var keys := Keys(before);
      var g := 0;
      var ord := 10;
      while g < |keys|
        invariant 0 <= g <= |keys| && ord == Column(g)
        invariant |events| == |before|
        invariant forall k :: 0 <= k < |before| && IndexOf(keys, before[k].ordering) < g ==> events[k] == Normalized(before)[k]
        invariant forall k :: 0 <= k < |before| && IndexOf(keys, before[k].ordering) >= g ==> events[k] == before[k]
      {
        SetOrdering(before, keys[g], ord);
        forall k | 0 <= k < |before| && before[k].ordering == keys[g]
          ensures IndexOf(keys, before[k].ordering) == g
        {
          IndexOfAt(keys, g);
        }
        ord := ord + 10;
        g := g + 1;
      }
    }

    /** The inner loop of `normalizeOrderings`: every event whose original ordering is `x` gets `ord`. */
    method SetOrdering(before: seq<TEv>, x: int, ord: int)
      requires |events| == |before|
      modifies this
      ensures |events| == |before|
      ensures forall k :: 0 <= k < |before| && before[k].ordering == x ==> events[k] == before[k].(ordering := ord)
      ensures forall k :: 0 <= k < |before| && before[k].ordering != x ==> events[k] == old(events)[k]
    {
      ghost var e0 := events;
      var j := 0;
      while j < |events|
        invariant 0 <= j <= |events| == |before|
        invariant forall k :: 0 <= k < j && before[k].ordering == x ==> events[k] == before[k].(ordering := ord)
        invariant forall k :: 0 <= k < |before| && !(k < j && before[k].ordering == x) ==> events[k] == e0[k]
      {
        if before[j].ordering == x {
          events := events[j := before[j].(ordering := ord)];
        }
        j := j + 1;
      }
    }

    /** `restack(o)` (src/frontend/editor.js:1453-1457). */
    method Restack(o: int)
      modifies this
      ensures events == Restacked(old(events), o)
    {
      var before := events;
      var s := StackOrder(before, o);
      StackOrderIndices(before, o);
      var i := 0;
      while i < |s|
        invariant 0 <= i <= |s| && events == RestackedUpTo(before, s, i)
      {
        RestackedStep(before, s, i);
        events := events[s[i] := before[s[i]].(stackPos := i)];
        i := i + 1;
      }
      RestackedAll(before, o);
    }

    /** The `drop` listener of a card (src/frontend/editor.js:1689-1728), for the card of event `t`. */
    method Drop(dragging: string, t: nat, region: Region, readOnly: bool)
      requires t < |events|
      modifies this
      ensures events == Dropped(old(events), dragging, t, region, readOnly)
    {
      var s := DropSource(events, dragging, t, readOnly);
      if s < 0 {
        return;
      }
      if region == Left || region == Right {
        DropBeside(s, t, region == Right);
      } else {
        DropStacked(s, t, region == Bottom);
      }
    }

    /** A left or right drop: the source gets its own column next to the target's, and the columns are renumbered. */
    method DropBeside(s: nat, t: nat, after: bool)
      requires s < |events| && t < |events|
      modifies this
      ensures events == Beside(old(events), s, t, after)
    {
      var o := events[t].ordering + (if after then 1 else -1);
      events := events[s := events[s].(ordering := o, stackPos := 0)];
      NormalizeOrderings();
    }

    /** A top or bottom drop: the source joins the target's column above or below it, and both columns are restacked. */
    method DropStacked(s: nat, t: nat, below: bool)
      requires s < |events| && t < |events| && s != t
      modifies this
      ensures events == Stacked(old(events), s, t, below)
    {
      ghost var evs := events;
      var tgt := events[t].ordering;
      var was := events[s].ordering;
      events := events[s := events[s].(ordering := tgt)];
      ghost var e1 := events;
      assert e1 == evs[s := evs[s].(ordering := evs[t].ordering)];
      var newPos := events[t].stackPos + (if below then 1 else 0);
      assert newPos == e1[t].stackPos + (if below then 1 else 0);
      ShiftColumn(tgt, events[s].id, newPos);
      assert events == Shifted(e1, tgt, e1[s].id, newPos);
      events := events[s := events[s].(stackPos := newPos)];
      assert events == Placed(evs, s, t, below);
      Restack(tgt);
      assert events == Restacked(Placed(evs, s, t, below), tgt);
      if was != tgt {
        Restack(was);
      }
    }

    /** The loop of the top and bottom drop that moves up the column's events from `p` on. */
    method ShiftColumn(o: int, id: string, p: int)
      modifies this
      ensures events == Shifted(old(events), o, id, p)
    {
      ghost var e1 := events;
      var j := 0;
      while j < |events|
        invariant 0 <= j <= |events| == |e1|
        invariant forall k :: 0 <= k < j ==> events[k] == Shifted(e1, o, id, p)[k]
        invariant forall k :: j <= k < |events| ==> events[k] == e1[k]
      {
        if events[j].ordering == o && events[j].id != id && events[j].stackPos >= p {
          events := events[j := events[j].(stackPos := events[j].stackPos + 1)];
        }
        j := j + 1;
      }
    }

    /** The "+ Evento" button (src/frontend/editor.js:1753-1767); `id` is the fresh id `tlNewId()` made. */
    method AddEvent(id: string, readOnly: bool)
      modifies this
      ensures events == if readOnly then old(events) else old(events) + [NewEvent(old(events), id)]
    {
      if readOnly {
        return;
      }
      var maxOrd := MaxOrdering(events);
      events := events + [TEv(id, "", "", maxOrd + 10, "", 0)];
    }
  }
}
