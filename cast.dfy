/**
 * Reordering in the editor's card lists (src/frontend/editor.js):
 * `arrayMove`, which moves one element of an array in place and is used
 * for dragging custom fields, and the move-up and move-down buttons of the
 * character cards, which swap a card with its neighbour.
 */
module Cast {
  /** `xs` without its element at `i`. */
  function RemoveAt<T>(xs: seq<T>, i: nat): (r: seq<T>)
    requires i < |xs|
    ensures |r| == |xs| - 1
  {
    xs[..i] + xs[i + 1..]
  }

  /** The indices `arrayMove` accepts: different, and both inside the array. */
  predicate Movable(n: nat, from: int, to: int) {
    from != to && 0 <= from < n && 0 <= to < n
  }

  /** `arrayMove`: the element at `from` taken out and put back in at `to`; anything else leaves the array alone. */
  function Moved<T>(xs: seq<T>, from: int, to: int): (r: seq<T>)
    ensures |r| == |xs|
  {
    if !Movable(|xs|, from, to) then xs
    else
      var rest := RemoveAt(xs, from);
      rest[..to] + [xs[from]] + rest[to..]
  }

  /** Where each element of a moved array comes from. */
  lemma {:induction false} MovedAt<T>(xs: seq<T>, from: int, to: int, k: nat)
    requires Movable(|xs|, from, to) && k < |xs|
    ensures Moved(xs, from, to)[k] ==
      if k == to then xs[from]
      else if from < to && from <= k < to then xs[k + 1]
      else if to < from && to < k <= from then xs[k - 1]
      else xs[k]
  {
  }

  /**
   * A move keeps every element, puts the moved one at `to`, and keeps all
   * the others in their relative order.
   */
  lemma {:induction false} MovedMeaning<T>(xs: seq<T>, from: int, to: int)
    requires Movable(|xs|, from, to)
    ensures multiset(Moved(xs, from, to)) == multiset(xs)
    ensures Moved(xs, from, to)[to] == xs[from]
    ensures RemoveAt(Moved(xs, from, to), to) == RemoveAt(xs, from)
  {
    var x := xs[from];
    var rest := RemoveAt(xs, from);
    var r := Moved(xs, from, to);
    var a, b := rest[..to], rest[to..];
    assert r == a + [x] + b;
    InsertMultiset(a, x, b);
    InsertMultiset(xs[..from], x, xs[from + 1..]);
    assert xs == xs[..from] + [x] + xs[from + 1..];
    assert rest == a + b;
    assert r[..to] == a;
    assert r[to + 1..] == b;
  }

  lemma {:induction false} InsertMultiset<T>(a: seq<T>, x: T, b: seq<T>)
    ensures multiset(a + [x] + b) == multiset(a + b) + multiset{x}
  {
    assert multiset(a + [x] + b) == multiset(a) + multiset([x]) + multiset(b);
  }

  /** Moving to `to` and back to `from` restores the array. */
  lemma {:induction false} MoveBack<T>(xs: seq<T>, from: int, to: int)
    requires Movable(|xs|, from, to)
    ensures Moved(Moved(xs, from, to), to, from) == xs
  {
    var r := Moved(xs, from, to);
    MovedMeaning(xs, from, to);
    var back := Moved(r, to, from);
    MovedMeaning(r, to, from);
    assert RemoveAt(back, from) == RemoveAt(xs, from);
    assert back[from] == xs[from];
    forall k | 0 <= k < |xs| ensures back[k] == xs[k] {
      if k < from {
        assert back[k] == RemoveAt(back, from)[k];
        assert xs[k] == RemoveAt(xs, from)[k];
      } else if k > from {
        assert back[k] == RemoveAt(back, from)[k - 1];
        assert xs[k] == RemoveAt(xs, from)[k - 1];
      }
    }
  }

  /** `arrayMove(arr, fromIdx, toIdx)`: the two `splice` calls, as one shift of the elements between the indices. */
  method ArrayMove<T>(a: array<T>, from: int, to: int)
    modifies a
    ensures a[..] == Moved(old(a[..]), from, to)
  {
    if !Movable(a.Length, from, to) {
      return;
    }
    ghost var s := a[..];
    var item := a[from];
    var i := from;
    if from < to {
      while i < to
        invariant from <= i <= to
        invariant forall k :: from <= k < i ==> a[k] == s[k + 1]
        invariant forall k :: 0 <= k < a.Length && !(from <= k < i) ==> a[k] == s[k]
      {
        a[i] := a[i + 1];
        i := i + 1;
      }
    } else {
      while i > to
        invariant to <= i <= from
        invariant forall k :: i < k <= from ==> a[k] == s[k - 1]
        invariant forall k :: 0 <= k < a.Length && !(i < k <= from) ==> a[k] == s[k]
      {
        a[i] := a[i - 1];
        i := i - 1;
      }
    }
    a[to] := item;
    forall k | 0 <= k < a.Length ensures a[k] == Moved(s, from, to)[k] {
      MovedAt(s, from, to, k);
    }
  }

  // ---------------------------------------------------------------- character cards

  /** A character card; the other fields of a character ride along unchanged. */
  datatype Card = Card(id: string, fields: map<string, string>)

  /** `findIndex(x => x.id === id)`: the first card with that id, or -1. */
  function FindIndex(cards: seq<Card>, id: string): (r: int)
    ensures -1 <= r < |cards|
    ensures r >= 0 ==> cards[r].id == id && forall k :: 0 <= k < r ==> cards[k].id != id
    ensures r == -1 <==> forall k :: 0 <= k < |cards| ==> cards[k].id != id
  {
    if cards == [] then -1
    else if cards[0].id == id then 0
    else
      var r := FindIndex(cards[1..], id);
      if r == -1 then -1 else r + 1
  }

  /** The cards with those at `i` and `j` exchanged. */
  function Swapped(cards: seq<Card>, i: nat, j: nat): (r: seq<Card>)
    requires i < |cards| && j < |cards|
    ensures |r| == |cards| && r[i] == cards[j] && r[j] == cards[i]
    ensures forall k :: 0 <= k < |cards| && k != i && k != j ==> r[k] == cards[k]
  {
    cards[i := cards[j]][j := cards[i]]
  }

  /** What the up button leaves: the card swapped with the one before it, unless it is first or missing. */
  function MovedUp(cards: seq<Card>, id: string): seq<Card> {
    var idx := FindIndex(cards, id);
    if idx > 0 then Swapped(cards, idx - 1, idx) else cards
  }

  /** What the down button leaves: the card swapped with the one after it, unless it is last or missing. */
  function MovedDown(cards: seq<Card>, id: string): seq<Card> {
    var idx := FindIndex(cards, id);
    if idx >= 0 && idx < |cards| - 1 then Swapped(cards, idx, idx + 1) else cards
  }

  /** Both buttons keep every card. */
  lemma {:induction false} SwapsKeepCards(cards: seq<Card>, id: string)
    ensures multiset(MovedUp(cards, id)) == multiset(cards)
    ensures multiset(MovedDown(cards, id)) == multiset(cards)
  {
    var idx := FindIndex(cards, id);
    if idx > 0 {
      assert MovedUp(cards, id) == Swapped(cards, idx - 1, idx);
      SwapMultiset(cards, idx - 1);
    } else {
      assert MovedUp(cards, id) == cards;
    }
    if idx >= 0 && idx < |cards| - 1 {
      assert MovedDown(cards, id) == Swapped(cards, idx, idx + 1);
      SwapMultiset(cards, idx);
    } else {
      assert MovedDown(cards, id) == cards;
    }
  }

  lemma {:induction false} SwapMultiset(cards: seq<Card>, i: nat)
    requires i + 1 < |cards|
    ensures multiset(Swapped(cards, i, i + 1)) == multiset(cards)
  {
    var r := Swapped(cards, i, i + 1);
    var pre, post := cards[..i], cards[i + 2..];
    assert cards == pre + [cards[i], cards[i + 1]] + post;
    assert r == pre + [cards[i + 1], cards[i]] + post;
    assert multiset([cards[i], cards[i + 1]]) == multiset([cards[i + 1], cards[i]]);
  }

  /** Down after up puts the card back: the first card with the id is now one place earlier. */
  lemma {:induction false} UpThenDown(cards: seq<Card>, id: string)
    requires FindIndex(cards, id) > 0
    ensures MovedDown(MovedUp(cards, id), id) == cards
  {
    var idx := FindIndex(cards, id);
    var up := MovedUp(cards, id);
    assert up[idx - 1] == cards[idx];
    assert forall k :: 0 <= k < idx - 1 ==> up[k] == cards[k];
    assert FindIndex(up, id) == idx - 1;
  }

  /** Up after down puts the card back when the card it passes has another id. */
  lemma {:induction false} DownThenUp(cards: seq<Card>, id: string)
    requires 0 <= FindIndex(cards, id) < |cards| - 1
    requires cards[FindIndex(cards, id) + 1].id != id
    ensures MovedUp(MovedDown(cards, id), id) == cards
  {
    var idx := FindIndex(cards, id);
    var down := MovedDown(cards, id);
    assert down[idx + 1] == cards[idx];
    assert forall k :: 0 <= k <= idx ==> down[k].id != id;
    assert FindIndex(down, id) == idx + 1;
  }

  /** The character list of the editor. */
  class CastList {
    var chars: seq<Card>

    constructor (chars: seq<Card>)
      ensures this.chars == chars
    {
      this.chars := chars;
    }

    /** The up button (src/frontend/editor.js:2315-2322); a read-only list is left alone. */
    method MoveUp(id: string, readOnly: bool)
      modifies this
      ensures chars == if readOnly then old(chars) else MovedUp(old(chars), id)
    {
      if readOnly {
        return;
      }
      var idx := FindIndex(chars, id);
      if idx > 0 {
        var tmp := chars[idx - 1];
        chars := chars[idx - 1 := chars[idx]];
        chars := chars[idx := tmp];
      }
    }

    /** The down button (src/frontend/editor.js:2329-2336); a read-only list is left alone. */
    method MoveDown(id: string, readOnly: bool)
      modifies this
      ensures chars == if readOnly then old(chars) else MovedDown(old(chars), id)
    {
      if readOnly {
        return;
      }
      var idx := FindIndex(chars, id);
      if idx >= 0 && idx < |chars| - 1 {
        var tmp := chars[idx + 1];
        chars := chars[idx + 1 := chars[idx]];
        chars := chars[idx := tmp];
      }
    }
  }
}
