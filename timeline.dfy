/**
 * `renderTimelineColored` (src/backend/exporter.js:838-913): timeline
 * events are grouped by ordering and the groups drawn in ascending
 * ordering, numbered 1, 2, …; a group of one event is numbered "k.", the
 * events of a larger group, sorted by stack position, "k.1", "k.2", ….
 * Each event gets a colour bar when its colour is one of the palette's,
 * a bold header and its description; each group ends with a thin rule.
 */
module TimelineRender {
  import opened Wrappers
  import opened Strings
  import opened Json
  import opened Sorting
  import opened Draw
  import Records

  /** An event as the renderer reads it; `desc` is '' when there is nothing to draw. */
  datatype Event = Event(ordering: int, stackPos: int, colorId: Value, title: string, desc: string)

  /**
   * The fields of one event, or the `TypeError` the renderer hits: reading
   * a `null` event, calling `trim` on a title or description that is not a
   * string. An ordering that is neither a number nor missing is an error
   * here too.
   */
  function ToEvent(ev: Json): (r: Result<Event>)
    ensures ev == JNull ==> r.Err?
    ensures r.Ok? ==> r.value.title == Trim(r.value.title) && r.value.desc == Trim(r.value.desc)
  {
    if ev == JNull then Err("TypeError: Cannot read properties of null")
    else
      var ordering := OptProp(Some(ev), "ordering");
      var title := OptProp(Some(ev), "title");
      var desc := OptProp(Some(ev), "desc");
      if ordering.Some? && !ordering.value.JNull? && !ordering.value.JNum? then Err("unsupported ordering")
      else if Truthy(title) && !title.value.JStr? then Err("TypeError: title.trim is not a function")
      else if desc.Some? && !desc.value.JNull? && !desc.value.JStr? then Err("TypeError: desc.trim is not a function")
      else
        var t := if Truthy(title) then Trim(title.value.s) else "";
        var d := if desc.Some? && desc.value.JStr? then Trim(desc.value.s) else "";
        TrimIdempotent(if Truthy(title) then title.value.s else "");
        TrimIdempotent(if desc.Some? && desc.value.JStr? then desc.value.s else "");
        Ok(Event(
          if ordering.Some? && ordering.value.JNum? then ordering.value.n else 0,
          Records.StackPosKey(ev),
          OptProp(Some(ev), "colorId"),
          t, d))
  }

  /** `f` applied to every element, or the first error. */
  function MapAll<A, B>(xs: seq<A>, f: A -> Result<B>): (r: Result<seq<B>>)
    ensures r.Ok? <==> forall i :: 0 <= i < |xs| ==> f(xs[i]).Ok?
    ensures r.Ok? ==> |r.value| == |xs| && forall i :: 0 <= i < |xs| ==> r.value[i] == f(xs[i]).value
  {
    if xs == [] then Ok([])
    else
      var init := MapAll(xs[..|xs| - 1], f);
      var last := f(xs[|xs| - 1]);
      if init.Err? then
        var i :| 0 <= i < |xs| - 1 && !f(xs[..|xs| - 1][i]).Ok?;
        assert xs[..|xs| - 1][i] == xs[i];
        init
      else if last.Err? then Err(last.msg)
      else Ok(init.value + [last.value])
  }

  /** The events of a section, or the first error. */
  function ToEvents(arr: seq<Json>): (r: Result<seq<Event>>)
    ensures r.Ok? <==> forall i :: 0 <= i < |arr| ==> ToEvent(arr[i]).Ok?
    ensures r.Ok? ==> |r.value| == |arr| && forall i :: 0 <= i < |arr| ==> r.value[i] == ToEvent(arr[i]).value
  {
    MapAll(arr, ToEvent)
  }

  function EventOrdering(e: Event): int { e.ordering }
  function EventStackPos(e: Event): int { e.stackPos }

  // ---------------------------------------------------------------- grouping

  /** The orderings that occur. */
  function Orderings(evs: seq<Event>): set<int> {
    set e | e in evs :: e.ordering
  }

  /** `grouped`: for each ordering that occurs, its events in array order. */
  function Grouped(evs: seq<Event>): (r: map<int, seq<Event>>)
    ensures r.Keys == Orderings(evs)
  {
    map o | o in Orderings(evs) :: KeyFilter(evs, EventOrdering, o)
  }

  lemma {:induction false} KeyFilterSnoc<T>(xs: seq<T>, x: T, key: T -> int, v: int)
    ensures KeyFilter(xs + [x], key, v) == KeyFilter(xs, key, v) + (if key(x) == v then [x] else [])
  {
    if xs != [] {
      assert (xs + [x])[1..] == xs[1..] + [x];
      KeyFilterSnoc(xs[1..], x, key, v);
    }
  }

  /** The `forEach` that fills `grouped` (src/backend/exporter.js:854-859). */
  method GroupEvents(evs: seq<Event>) returns (grouped: map<int, seq<Event>>)
    ensures grouped == Grouped(evs)
  {
    grouped := map[];
    var i := 0;
    while i < |evs|
      invariant 0 <= i <= |evs|
      invariant grouped == Grouped(evs[..i])
    {
      var ev := evs[i];
      var ord := ev.ordering;
      if ord !in grouped {
        grouped := grouped[ord := []];
      }
      grouped := grouped[ord := grouped[ord] + [ev]];
      GroupedSnoc(evs[..i], ev, grouped);
      assert evs[..i + 1] == evs[..i] + [ev];
      i := i + 1;
    }
    assert evs[..i] == evs;
  }

  /** Adding one event appends it to its ordering's group, creating the group if needed. */
  lemma {:induction false} GroupedSnoc(evs: seq<Event>, ev: Event, grouped: map<int, seq<Event>>)
    requires grouped.Keys == Grouped(evs).Keys + {ev.ordering}
    requires forall o :: o in grouped && o != ev.ordering ==> grouped[o] == Grouped(evs)[o]
    requires grouped[ev.ordering] == (if ev.ordering in Grouped(evs) then Grouped(evs)[ev.ordering] else []) + [ev]
    ensures grouped == Grouped(evs + [ev])
  {
    var g := Grouped(evs + [ev]);
    assert Orderings(evs + [ev]) == Orderings(evs) + {ev.ordering};
    forall o | o in g ensures grouped[o] == g[o] {
      KeyFilterSnoc(evs, ev, EventOrdering, o);
      if o == ev.ordering && ev.ordering !in Grouped(evs) {
        KeyFilterAbsent(evs, EventOrdering, o);
      }
    }
  }

  lemma {:induction false} KeyFilterAbsent(xs: seq<Event>, key: Event -> int, v: int)
    requires key == EventOrdering && v !in Orderings(xs)
    ensures KeyFilter(xs, key, v) == []
  {
    if xs != [] {
      assert Orderings(xs[1..]) <= Orderings(xs);
      KeyFilterAbsent(xs[1..], key, v);
    }
  }

  /** The events' orderings, in array order. */
  function OrderingsOf(evs: seq<Event>): (r: seq<int>)
    ensures |r| == |evs| && forall i :: 0 <= i < |evs| ==> r[i] == evs[i].ordering
  {
    if evs == [] then [] else OrderingsOf(evs[..|evs| - 1]) + [evs[|evs| - 1].ordering]
  }

  /** The group keys in drawing order: exactly the orderings that occur, ascending. */
  function GroupKeys(evs: seq<Event>): (r: seq<int>)
    ensures Increasing(r)
    ensures forall o :: o in r <==> o in Orderings(evs)
  {
    var os := OrderingsOf(evs);
    var r := SortedKeys(os);
    forall o ensures o in os <==> o in Orderings(evs) {
      if o in os {
        var i :| 0 <= i < |os| && os[i] == o;
        assert evs[i] in evs;
      }
    }
    r
  }

  /** There are as many groups as distinct orderings. */
  lemma {:induction false} GroupCount(evs: seq<Event>)
    ensures |GroupKeys(evs)| == |Orderings(evs)|
  {
    var r := GroupKeys(evs);
    IncreasingCard(r);
    assert (set x | x in r) == Orderings(evs);
  }

  // ---------------------------------------------------------------- drawing

  const PALETTE: map<string, string> := map[
    "red" := "#ff5252", "blue" := "#4dabff", "green" := "#4caf50", "yellow" := "#ffca28",
    "purple" := "#9c27b0", "white" := "#e0e0e0", "black" := "#424242", "orange" := "#ff9800"]

  /** `TIMELINE_COLORS[ev?.colorId] || null` for a colour id read from JSON. */
  function ColorHex(colorId: Value): (r: Option<string>)
    ensures r.Some? <==> colorId.Some? && colorId.value.JStr? && colorId.value.s in PALETTE.Keys
  {
    if colorId.Some? && colorId.value.JStr? && colorId.value.s in PALETTE then Some(PALETTE[colorId.value.s]) else None
  }

  /** The number of the event at index `i` of the k-th group of `n` events. */
  function Num(k: nat, i: nat, n: nat): string {
    if n == 1 then NatToString(k) + "." else NatToString(k) + "." + NatToString(i + 1)
  }

  /** The title shown when the event has none: "Event 3" for a single event, "Event 2.1" in a group. */
  function Fallback(word: string, k: nat, i: nat, n: nat): string {
    word + " " + (if n == 1 then NatToString(k) else Num(k, i, n))
  }

  /** One event: the optional bar, the bold header, the description, a half-line space. */
  function EventCmds(ev: Event, num: string, fallback: string): seq<Cmd> {
    var hex := ColorHex(ev.colorId);
    (if hex.Some? then [Bar(hex.value), MoveDown(0.5)] else [])
      + [Line(num + " " + (if ev.title != "" then ev.title else fallback), LEFT, WIDTH, AlignLeft, "Mono-Bold", 13.0)]
      + (if ev.desc != "" then [Line(ev.desc, LEFT, WIDTH, AlignLeft, "Mono", 12.0)] else [])
      + [MoveDown(0.5)]
  }

  /** The concatenation of `f(x, i)` over the elements and their indices, in order. */
  function ConcatIndexed<T>(xs: seq<T>, f: (T, nat) -> seq<Cmd>): seq<Cmd> {
    if xs == [] then [] else ConcatIndexed(xs[..|xs| - 1], f) + f(xs[|xs| - 1], |xs| - 1)
  }

  /** A `forEach` over the elements with their index (the group's events, the sorted keys). */
  method ForEachIndexed<T>(xs: seq<T>, f: (T, nat) -> seq<Cmd>) returns (out: seq<Cmd>)
    ensures out == ConcatIndexed(xs, f)
  {
    out := [];
    var i := 0;
    while i < |xs|
      invariant 0 <= i <= |xs|
      invariant out == ConcatIndexed(xs[..i], f)
    {
      assert xs[..i + 1][..i] == xs[..i];
      out := out + f(xs[i], i);
      i := i + 1;
    }
    assert xs[..i] == xs;
  }

  /** The events of a group of `n`, numbered under group `k`. */
  function GroupEventOf(k: nat, n: nat, word: string): (Event, nat) -> seq<Cmd> {
    (ev: Event, i: nat) => EventCmds(ev, Num(k, i, n), Fallback(word, k, i, n))
  }

  /** The k-th group: its events, then the rule and some space. */
  function GroupCmds(group: seq<Event>, k: nat, word: string): seq<Cmd> {
    (if |group| == 1 then EventCmds(group[0], Num(k, 0, 1), Fallback(word, k, 0, 1))
     else ConcatIndexed(group, GroupEventOf(k, |group|, word)))
      + [Rule, MoveDown(0.6)]
  }

  /** The group of ordering `o` drawn as group number `i + 1`, its events sorted by stack position. */
  function GroupOf(grouped: map<int, seq<Event>>, word: string): (int, nat) -> seq<Cmd> {
    (o: int, i: nat) => if o in grouped then GroupCmds(SortBy(grouped[o], EventStackPos), i + 1, word) else []
  }

  /** The timeline's word for an event. */
  function EventWord(lang: string): string {
    if lang == "en" then "Event" else "Evento"
  }

  function EventsCmds(evs: seq<Event>, lang: string): seq<Cmd> {
    var grouped := Grouped(evs);
    ConcatIndexed(GroupKeys(evs), GroupOf(grouped, EventWord(lang)))
  }

  /** What `renderTimelineColored` draws; nothing for the early returns. */
  function TimelineCmds(parsed: Option<Json>, lang: string): Result<seq<Cmd>> {
    var recs := Records.RecordsOf(parsed);
    if recs.None? then Ok([])
    else
      var evs := ToEvents(recs.value);
      if evs.Err? then Err(evs.msg) else Ok(EventsCmds(evs.value, lang))
  }

  method RenderTimeline(parsed: Option<Json>, lang: string) returns (r: Result<seq<Cmd>>)
    ensures Records.RecordsOf(parsed).None? ==> r == Ok([])
    ensures r == TimelineCmds(parsed, lang)
  {
    var recs := Records.RecordsOf(parsed);
    if recs.None? {
      return Ok([]);
    }
    var evs := ToEvents(recs.value);
    if evs.Err? {
      return Err(evs.msg);
    }
    var grouped := GroupEvents(evs.value);
    var keys := GroupKeys(evs.value);
    var cmds := ForEachIndexed(keys, GroupOf(grouped, EventWord(lang)));
    r := Ok(cmds);
  }

  // ---------------------------------------------------------------- what the drawing shows

  /** The texts of the bold headers, in order. */
  function Headers(cmds: seq<Cmd>): seq<string> {
    if cmds == [] then []
    else
      var c := cmds[|cmds| - 1];
      Headers(cmds[..|cmds| - 1]) + (if c.Text? && c.font == "Mono-Bold" then [c.text] else [])
  }

  /** The number of rules. */
  function Rules(cmds: seq<Cmd>): nat {
    if cmds == [] then 0 else Rules(cmds[..|cmds| - 1]) + (if cmds[|cmds| - 1].Rule? then 1 else 0)
  }

  /** The number of colour bars. */
  function Bars(cmds: seq<Cmd>): nat {
    if cmds == [] then 0 else Bars(cmds[..|cmds| - 1]) + (if cmds[|cmds| - 1].Bar? then 1 else 0)
  }

  lemma {:induction false} ShowsAppend(a: seq<Cmd>, b: seq<Cmd>)
    ensures Headers(a + b) == Headers(a) + Headers(b)
    ensures Rules(a + b) == Rules(a) + Rules(b)
    ensures Bars(a + b) == Bars(a) + Bars(b)
    decreases |b|
  {
    if b != [] {
      assert (a + b)[..|a + b| - 1] == a + b[..|b| - 1];
      assert (a + b)[|a + b| - 1] == b[|b| - 1];
      ShowsAppend(a, b[..|b| - 1]);
    } else {
      assert a + b == a;
    }
  }

  lemma {:induction false} ShowsOne(c: Cmd)
    ensures Headers([c]) == (if c.Text? && c.font == "Mono-Bold" then [c.text] else [])
    ensures Rules([c]) == (if c.Rule? then 1 else 0)
    ensures Bars([c]) == (if c.Bar? then 1 else 0)
  {
    assert [c][..0] == [];
  }

  /**
   * An event draws exactly one header, "<num> <title>" or "<num>
   * <fallback>" for an empty title, no rule, and a colour bar exactly when
   * its colour id is one of the palette's eight names.
   */
  lemma {:induction false} EventShows(ev: Event, num: string, fallback: string)
    ensures Headers(EventCmds(ev, num, fallback)) == [num + " " + (if ev.title != "" then ev.title else fallback)]
    ensures Bars(EventCmds(ev, num, fallback)) == (if ColorHex(ev.colorId).Some? then 1 else 0)
    ensures Rules(EventCmds(ev, num, fallback)) == 0
  {
    var hex := ColorHex(ev.colorId);
    var head := Line(num + " " + (if ev.title != "" then ev.title else fallback), LEFT, WIDTH, AlignLeft, "Mono-Bold", 13.0);
    var bar: seq<Cmd> := if hex.Some? then [Bar(hex.value), MoveDown(0.5)] else [];
    var body: seq<Cmd> := if ev.desc != "" then [Line(ev.desc, LEFT, WIDTH, AlignLeft, "Mono", 12.0)] else [];
    ShowsAppend(bar + [head] + body, [MoveDown(0.5)]);
    ShowsAppend(bar + [head], body);
    ShowsAppend(bar, [head]);
    ShowsOne(head);
    ShowsOne(MoveDown(0.5));
    if hex.Some? {
      ShowsAppend([Bar(hex.value)], [MoveDown(0.5)]);
      ShowsOne(Bar(hex.value));
      assert bar == [Bar(hex.value)] + [MoveDown(0.5)];
    }
    if ev.desc != "" {
      ShowsOne(Line(ev.desc, LEFT, WIDTH, AlignLeft, "Mono", 12.0));
    }
  }

  /** The header a group's i-th event shows. */
  function HeaderOf(group: seq<Event>, k: nat, i: nat, word: string): string
    requires i < |group|
  {
    Num(k, i, |group|) + " " + (if group[i].title != "" then group[i].title else Fallback(word, k, i, |group|))
  }

  /** The headers of a run of events numbered under group `k` of `n`. */
  lemma {:induction false} IndexedHeaders(group: seq<Event>, k: nat, n: nat, word: string)
    ensures var h := Headers(ConcatIndexed(group, GroupEventOf(k, n, word)));
      |h| == |group| && forall i :: 0 <= i < |group| ==>
        h[i] == Num(k, i, n) + " " + (if group[i].title != "" then group[i].title else Fallback(word, k, i, n))
    ensures Rules(ConcatIndexed(group, GroupEventOf(k, n, word))) == 0
  {
    if group != [] {
      var init := group[..|group| - 1];
      var f := GroupEventOf(k, n, word);
      IndexedHeaders(init, k, n, word);
      var h0 := Headers(ConcatIndexed(init, f));
      var x := IndexedLast(group, k, n, word);
      var h := Headers(ConcatIndexed(group, f));
      forall i | 0 <= i < |group|
        ensures h[i] == Num(k, i, n) + " " + (if group[i].title != "" then group[i].title else Fallback(word, k, i, n))
      {
        if i < |init| {
          assert h[i] == h0[i] && init[i] == group[i];
        } else {
          assert h[i] == x;
        }
      }
    }
  }

  /** The last event of a run adds its one header and no rule. */
  lemma {:induction false} IndexedLast(group: seq<Event>, k: nat, n: nat, word: string) returns (x: string)
    requires group != []
    ensures var init, f := group[..|group| - 1], GroupEventOf(k, n, word);
      var i := |group| - 1;
      && x == Num(k, i, n) + " " + (if group[i].title != "" then group[i].title else Fallback(word, k, i, n))
      && Headers(ConcatIndexed(group, f)) == Headers(ConcatIndexed(init, f)) + [x]
      && Rules(ConcatIndexed(group, f)) == Rules(ConcatIndexed(init, f))
  {
    var init := group[..|group| - 1];
    var last := group[|group| - 1];
    var f := GroupEventOf(k, n, word);
    var num := Num(k, |group| - 1, n);
    var fb := Fallback(word, k, |group| - 1, n);
    x := num + " " + (if last.title != "" then last.title else fb);
    assert f(last, |group| - 1) == EventCmds(last, num, fb);
    EventShows(last, num, fb);
    ShowsAppend(ConcatIndexed(init, f), f(last, |group| - 1));
  }

  /**
   * The k-th group shows one header per event, in its order: "k. <title>"
   * for a lone event, "k.1 <title>", "k.2 <title>", … otherwise, with
   * "Event k" or "Event k.i" for an empty title; it draws one rule.
   */
  lemma {:induction false} GroupShows(group: seq<Event>, k: nat, word: string)
    requires group != []
    ensures var h := Headers(GroupCmds(group, k, word));
      |h| == |group| && forall i :: 0 <= i < |group| ==> h[i] == HeaderOf(group, k, i, word)
    ensures Rules(GroupCmds(group, k, word)) == 1
  {
    var body := if |group| == 1 then EventCmds(group[0], Num(k, 0, 1), Fallback(word, k, 0, 1))
      else ConcatIndexed(group, GroupEventOf(k, |group|, word));
    var tail: seq<Cmd> := [Rule, MoveDown(0.6)];
    assert GroupCmds(group, k, word) == body + tail;
    ShowsAppend(body, tail);
    ShowsAppend([Rule], [MoveDown(0.6)]);
    ShowsOne(Rule);
    ShowsOne(MoveDown(0.6));
    assert tail == [Rule] + [MoveDown(0.6)];
    if |group| == 1 {
      EventShows(group[0], Num(k, 0, 1), Fallback(word, k, 0, 1));
    } else {
      IndexedHeaders(group, k, |group|, word);
    }
  }

  /** The rules drawn by groups laid end to end. */
  lemma {:induction false} IndexedRules(keys: seq<int>, grouped: map<int, seq<Event>>, word: string)
    requires forall o :: o in keys ==> o in grouped && grouped[o] != []
    ensures Rules(ConcatIndexed(keys, GroupOf(grouped, word))) == |keys|
  {
    if keys != [] {
      var init := keys[..|keys| - 1];
      var o := keys[|keys| - 1];
      assert forall x :: x in init ==> x in keys;
      IndexedRules(init, grouped, word);
      var f := GroupOf(grouped, word);
      var g := SortBy(grouped[o], EventStackPos);
      assert f(o, |keys| - 1) == GroupCmds(g, |keys|, word);
      GroupShows(g, |keys|, word);
      ShowsAppend(ConcatIndexed(init, f), f(o, |keys| - 1));
    }
  }

  /** Every ordering that occurs has a non-empty group. */
  lemma {:induction false} GroupsNonEmpty(evs: seq<Event>, o: int)
    requires o in Grouped(evs)
    ensures Grouped(evs)[o] != []
    ensures |Grouped(evs)[o]| == |KeyFilter(evs, EventOrdering, o)|
  {
    var e :| e in evs && e.ordering == o;
    KeyFilterHas(evs, o, e);
  }

  lemma {:induction false} KeyFilterHas(evs: seq<Event>, o: int, e: Event)
    requires e in evs && e.ordering == o
    ensures KeyFilter(evs, EventOrdering, o) != []
  {
    if evs[0] != e {
      KeyFilterHas(evs[1..], o, e);
    }
  }

  /** One group, hence one rule, per distinct ordering. */
  lemma {:induction false} RulesPerOrdering(evs: seq<Event>, lang: string)
    ensures Rules(EventsCmds(evs, lang)) == |Orderings(evs)|
  {
    var grouped := Grouped(evs);
    forall o | o in GroupKeys(evs) ensures o in grouped && grouped[o] != [] {
      GroupsNonEmpty(evs, o);
    }
    IndexedRules(GroupKeys(evs), grouped, EventWord(lang));
    GroupCount(evs);
  }

  /**
   * The i-th group drawn holds the events of the i-th smallest ordering,
   * sorted by stack position: the same events, and those with equal stack
   * positions in array order.
   */
  lemma {:induction false} GroupOrder(evs: seq<Event>, i: nat, v: int)
    requires i < |GroupKeys(evs)|
    ensures var keys := GroupKeys(evs);
      var drawn := SortBy(Grouped(evs)[keys[i]], EventStackPos);
      && (forall j :: 0 <= j < i ==> keys[j] < keys[i])
      && SortedBy(drawn, EventStackPos)
      && multiset(drawn) == multiset(KeyFilter(evs, EventOrdering, keys[i]))
      && KeyFilter(drawn, EventStackPos, v) == KeyFilter(KeyFilter(evs, EventOrdering, keys[i]), EventStackPos, v)
  {
    var keys := GroupKeys(evs);
    SortByStable(Grouped(evs)[keys[i]], EventStackPos, v);
  }
}
