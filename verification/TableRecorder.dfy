// Recording one matching set: events are appended as they are observed (add), and a chunk is
// closed by sorting them and drawing the epoch line (format).
module TableRecorder {
  import opened Basics
  import opened ReplayTables
  import opened ReplaySteps

  // ---------------------------------------------------------------- merged failed tests

  function Append(merged: seq<Event>, e: Event): seq<Event> {
    var last := |merged| - 1;
    if e.Unmatched? && last >= 0 && merged[last].Unmatched? then
      merged[..last] + [Unmatched(merged[last].count + e.count)]
    else merged + [e]
  }

  // The observed events with neighbouring failed tests counted together.
  function Merge(observed: seq<Event>): seq<Event> {
    if observed == [] then [] else Append(Merge(observed[..|observed| - 1]), observed[|observed| - 1])
  }

  function Tests(n: nat): seq<Event> {
    seq(n, i => Unmatched(1))
  }

  // One event per MPI call result: n failed tests are n events.
  function Expand(events: seq<Event>): seq<Event> {
    if events == [] then []
    else Expand(events[..|events| - 1]) +
         (if events[|events| - 1].Unmatched? then Tests(events[|events| - 1].count) else [events[|events| - 1]])
  }

  lemma ExpandSnoc(events: seq<Event>, e: Event)
    ensures Expand(events + [e]) == Expand(events) + (if e.Unmatched? then Tests(e.count) else [e])
  {
    assert (events + [e])[..|events|] == events;
  }

  lemma MoreTests(before: seq<Event>, m: nat, n: nat)
    ensures before + Tests(m + n) == before + Tests(m) + Tests(n)
  {
  }

  lemma AppendExpands(merged: seq<Event>, e: Event)
    ensures Expand(Append(merged, e)) == Expand(merged + [e])
  {
    hide Expand, Tests;
    var last := |merged| - 1;
    if e.Unmatched? && last >= 0 && merged[last].Unmatched? {
      var n := merged[last].count;
      var init := merged[..last];
      assert merged == init + [Unmatched(n)];
      ExpandSnoc(init, Unmatched(n + e.count));
      ExpandSnoc(init, Unmatched(n));
      ExpandSnoc(merged, e);
      MoreTests(Expand(init), n, e.count);
    }
  }

  // Counting failed tests together loses nothing.
  lemma {:induction false} MergeLosesNothing(observed: seq<Event>)
    ensures Expand(Merge(observed)) == Expand(observed)
  {
    hide Append, Expand;
    if observed != [] {
      var init, last := observed[..|observed| - 1], observed[|observed| - 1];
      MergeLosesNothing(init);
      AppendExpands(Merge(init), last);
      ExpandSnoc(Merge(init), last);
      ExpandSnoc(init, last);
      assert init + [last] == observed;
    }
  }

  // Events as MPI calls yield them: failed tests come one by one.
  ghost predicate OneByOne(observed: seq<Event>) {
    forall k :: 0 <= k < |observed| && observed[k].Unmatched? ==> observed[k].count == 1
  }

  lemma {:induction false} ExpandSingles(observed: seq<Event>)
    requires OneByOne(observed)
    ensures Expand(observed) == observed
  {
    hide Expand;
    if observed == [] {
      NothingExpands();
    } else {
      var init, last := observed[..|observed| - 1], observed[|observed| - 1];
      ExpandSingles(init);
      ExpandSnoc(init, last);
      assert observed == init + [last] && (last.Unmatched? ==> Tests(1) == [last]);
    }
  }

  lemma NothingExpands()
    ensures Expand([]) == []
  {
  }

  // What is merged has no two counts of failed tests next to each other.
  lemma {:induction false} MergedTests(observed: seq<Event>, i: nat)
    requires i + 1 < |Merge(observed)|
    ensures Merge(observed)[i].Matched? || Merge(observed)[i + 1].Matched?
  {
    var init, last := observed[..|observed| - 1], observed[|observed| - 1];
    if i + 1 < |Merge(init)| {
      MergedTests(init, i);
    }
  }

  // ---------------------------------------------------------------- the recorded stream, from its end

  function Body(events: seq<Event>, unmatched: map<nat, nat>, i: nat): seq<Event>
    decreases |events| - i
  {
    if i >= |events| then []
    else (if i in unmatched then [Unmatched(unmatched[i])] else []) + [events[i]] + Body(events, unmatched, i + 1)
  }

  function Tail(events: seq<Event>, unmatched: map<nat, nat>): seq<Event> {
    if |events| in unmatched then [Unmatched(unmatched[|events|])] else []
  }

  lemma {:induction false} StreamIsBodyAndTail(events: seq<Event>, unmatched: map<nat, nat>, i: nat)
    requires i <= |events|
    ensures StreamFrom(events, unmatched, i) == Body(events, unmatched, i) + Tail(events, unmatched)
    decreases |events| - i
  {
    if i < |events| {
      StreamIsBodyAndTail(events, unmatched, i + 1);
    }
  }

  lemma {:induction false} BodyFrame(events: seq<Event>, u1: map<nat, nat>, u2: map<nat, nat>, i: nat)
    requires forall k :: 0 <= k < |events| ==> (k in u1 <==> k in u2) && (k in u1 ==> u1[k] == u2[k])
    ensures Body(events, u1, i) == Body(events, u2, i)
    decreases |events| - i
  {
    if i < |events| {
      BodyFrame(events, u1, u2, i + 1);
    }
  }

  lemma {:induction false} BodySnoc(events: seq<Event>, e: Event, unmatched: map<nat, nat>, i: nat)
    requires i <= |events|
    ensures Body(events + [e], unmatched, i) == Body(events, unmatched, i) + Tail(events, unmatched) + [e]
    decreases |events| - i
  {
    if i < |events| {
      BodySnoc(events, e, unmatched, i + 1);
    } else {
      assert Body(events + [e], unmatched, i + 1) == [];
    }
  }

  lemma {:induction false} BodyEnds(events: seq<Event>, unmatched: map<nat, nat>, i: nat)
    requires i < |events|
    ensures Body(events, unmatched, i) != []
    ensures Body(events, unmatched, i)[|Body(events, unmatched, i)| - 1] == events[|events| - 1]
    decreases |events| - i
  {
    if i + 1 < |events| {
      BodyEnds(events, unmatched, i + 1);
    } else {
      assert Body(events, unmatched, i + 1) == [];
    }
  }

  // ---------------------------------------------------------------- what add keeps

  function UnmatchedMap(ids: seq<nat>, counts: seq<nat>): map<nat, nat>
    requires |ids| == |counts|
  {
    if ids == [] then map[]
    else UnmatchedMap(ids[..|ids| - 1], counts[..|counts| - 1])[ids[|ids| - 1] := counts[|counts| - 1]]
  }

  lemma {:induction false} UnmatchedKeys(ids: seq<nat>, counts: seq<nat>, k: nat)
    requires |ids| == |counts|
    ensures k in UnmatchedMap(ids, counts) <==> k in ids
  {
    if ids != [] {
      UnmatchedKeys(ids[..|ids| - 1], counts[..|counts| - 1], k);
    }
  }

  // The positions of the events that are followed by another of their group.
  function WithNextPositions(events: seq<Event>): seq<nat> {
    if events == [] then []
    else WithNextPositions(events[..|events| - 1]) +
         (if events[|events| - 1].Matched? && events[|events| - 1].withNext then [|events| - 1] else [])
  }

  lemma WithNextSnoc(events: seq<Event>, e: Event)
    ensures WithNextPositions(events + [e]) ==
      WithNextPositions(events) + (if e.Matched? && e.withNext then [|events|] else [])
  {
    assert (events + [e])[..|events|] == events;
  }

  ghost predicate Collected(events: seq<Event>, ids: seq<nat>, counts: seq<nat>, observed: seq<Event>) {
    && |ids| == |counts| && Increasing(ids) && (forall i :: 0 <= i < |ids| ==> ids[i] <= |events|)
    && (forall k :: 0 <= k < |events| ==> events[k].Matched?)
    && StreamFrom(events, UnmatchedMap(ids, counts), 0) == Merge(observed)
  }

  lemma MergeSnoc(observed: seq<Event>, e: Event)
    ensures Merge(observed + [e]) == Append(Merge(observed), e)
  {
    assert (observed + [e])[..|observed|] == observed;
  }

  lemma CollectMatched(events: seq<Event>, ids: seq<nat>, counts: seq<nat>, observed: seq<Event>, e: Event)
    requires Collected(events, ids, counts, observed) && e.Matched?
    ensures Collected(events + [e], ids, counts, observed + [e])
  {
    var u := UnmatchedMap(ids, counts);
    MergeSnoc(observed, e);
    UnmatchedKeys(ids, counts, |events| + 1);
    StreamIsBodyAndTail(events, u, 0);
    StreamIsBodyAndTail(events + [e], u, 0);
    BodySnoc(events, e, u, 0);
  }

  // Whether the last merged event is a count of failed tests, from the last recorded position.
  lemma LastIsTests(events: seq<Event>, ids: seq<nat>, counts: seq<nat>, observed: seq<Event>)
    requires Collected(events, ids, counts, observed)
    ensures var u := UnmatchedMap(ids, counts);
      Merge(observed) == Body(events, u, 0) + Tail(events, u)
    ensures ids != [] && ids[|ids| - 1] == |events| <==> |events| in UnmatchedMap(ids, counts)
    ensures |events| !in UnmatchedMap(ids, counts) ==>
      Merge(observed) == [] || Merge(observed)[|Merge(observed)| - 1].Matched?
  {
    var u := UnmatchedMap(ids, counts);
    StreamIsBodyAndTail(events, u, 0);
    UnmatchedKeys(ids, counts, |events|);
    if |events| > 0 {
      BodyEnds(events, u, 0);
    }
  }

  lemma MapSnoc(ids: seq<nat>, counts: seq<nat>, id: nat, n: nat)
    requires |ids| == |counts|
    ensures UnmatchedMap(ids + [id], counts + [n]) == UnmatchedMap(ids, counts)[id := n]
  {
    assert (ids + [id])[..|ids|] == ids && (counts + [n])[..|counts|] == counts;
  }

  lemma MapLast(ids: seq<nat>, counts: seq<nat>, n: nat)
    requires |ids| == |counts| > 0
    ensures ids[|ids| - 1] in UnmatchedMap(ids, counts)
    ensures UnmatchedMap(ids, counts)[ids[|ids| - 1]] == counts[|counts| - 1]
    ensures UnmatchedMap(ids, counts[|counts| - 1 := n]) == UnmatchedMap(ids, counts)[ids[|ids| - 1] := n]
  {
    assert counts[|counts| - 1 := n][..|counts| - 1] == counts[..|counts| - 1];
  }

  lemma CollectNewTests(events: seq<Event>, ids: seq<nat>, counts: seq<nat>, observed: seq<Event>, n: nat)
    requires Collected(events, ids, counts, observed) && (ids == [] || ids[|ids| - 1] != |events|)
    ensures Collected(events, ids + [|events|], counts + [n], observed + [Unmatched(n)])
  {
    hide Body, Merge, StreamFrom, UnmatchedMap;
    var u := UnmatchedMap(ids, counts);
    MapSnoc(ids, counts, |events|, n);
    MergeSnoc(observed, Unmatched(n));
    LastIsTests(events, ids, counts, observed);
    StreamIsBodyAndTail(events, u[|events| := n], 0);
    BodyFrame(events, u, u[|events| := n], 0);
  }

  lemma CollectMoreTests(events: seq<Event>, ids: seq<nat>, counts: seq<nat>, observed: seq<Event>, n: nat)
    requires Collected(events, ids, counts, observed) && ids != [] && ids[|ids| - 1] == |events|
    ensures Collected(events, ids, counts[|counts| - 1 := counts[|counts| - 1] + n], observed + [Unmatched(n)])
  {
    hide Body, Merge, StreamFrom, UnmatchedMap;
    var last := counts[|counts| - 1];
    var u := UnmatchedMap(ids, counts);
    MapLast(ids, counts, last + n);
    MergeSnoc(observed, Unmatched(n));
    LastIsTests(events, ids, counts, observed);
    StreamIsBodyAndTail(events, u[|events| := last + n], 0);
    BodyFrame(events, u, u[|events| := last + n], 0);
    assert Tail(events, u) == [Unmatched(last)];
  }

  // ---------------------------------------------------------------- sorting what was observed

  // The observed events as the sorter sees them: each with its position.
  function Positions(events: seq<Event>): (list: seq<Arrival>)
    requires forall k :: 0 <= k < |events| ==> events[k].Matched?
    ensures |list| == |events| && forall k :: 0 <= k < |list| ==> list[k] == Arrival(events[k].id, k)
  {
    seq(|events|, k requires 0 <= k < |events| => Arrival(events[k].id, k))
  }

  function IdsOf(list: seq<Arrival>): (ids: seq<Id>)
    ensures |ids| == |list| && forall i :: 0 <= i < |list| ==> ids[i] == list[i].id
  {
    seq(|list|, i requires 0 <= i < |list| => list[i].id)
  }

  ghost predicate WeaklySorted(list: seq<Arrival>) {
    forall i, j :: 0 <= i < j < |list| ==> LessEq(list[i].id, list[j].id)
  }

  lemma {:induction false} InsertWeaklySorts(list: seq<Arrival>, e: Arrival)
    requires WeaklySorted(list)
    ensures WeaklySorted(InsertByClock(list, e))
  {
    if !(list == [] || Less(list[|list| - 1].id, e.id)) {
      var init, last := list[..|list| - 1], list[|list| - 1];
      InsertWeaklySorts(init, e);
      var inserted := InsertByClock(init, e);
      forall i | 0 <= i < |inserted| ensures LessEq(inserted[i].id, last.id) {
        InsertHas(init, e, inserted[i]);
      }
    }
  }

  lemma {:induction false} SortWeaklySorts(list: seq<Arrival>)
    ensures WeaklySorted(SortByClock(list))
  {
    if list != [] {
      SortWeaklySorts(list[..|list| - 1]);
      InsertWeaklySorts(SortByClock(list[..|list| - 1]), list[|list| - 1]);
    }
  }

  // ---------------------------------------------------------------- the epoch line

  ghost predicate Among(sorted: seq<Arrival>, i: nat, id: Id) {
    exists j :: 0 <= j < i <= |sorted| && sorted[j].id == id
  }

  // The last clock of every sender among the first i sorted events.
  ghost predicate LineDrawn(sorted: seq<Arrival>, i: nat, epoch: map<int, int>)
    requires i <= |sorted|
  {
    && (forall j :: 0 <= j < i ==> sorted[j].id.source in epoch && sorted[j].id.clock <= epoch[sorted[j].id.source])
    && (forall rank :: rank in epoch ==> Among(sorted, i, Id(epoch[rank], rank)))
  }

  lemma DrawNext(sorted: seq<Arrival>, i: nat, epoch: map<int, int>)
    requires WeaklySorted(sorted) && i < |sorted| && LineDrawn(sorted, i, epoch)
    ensures LineDrawn(sorted, i + 1, epoch[sorted[i].id.source := sorted[i].id.clock])
  {
    var epoch' := epoch[sorted[i].id.source := sorted[i].id.clock];
    forall j | 0 <= j < i ensures sorted[j].id.source in epoch' && sorted[j].id.clock <= epoch'[sorted[j].id.source] {
      assert LessEq(sorted[j].id, sorted[i].id);
    }
    forall rank | rank in epoch' ensures Among(sorted, i + 1, Id(epoch'[rank], rank)) {
      if rank == sorted[i].id.source {
        assert sorted[i].id == Id(epoch'[rank], rank);
      } else {
        assert Among(sorted, i, Id(epoch[rank], rank));
      }
    }
  }

  ghost predicate StrictUpTo(sorted: seq<Arrival>, i: nat) {
    i <= |sorted| && forall a, b :: 0 <= a < b < i ==> Less(sorted[a].id, sorted[b].id)
  }

  // The check against the epoch line catches exactly the repeated (clock, sender) pairs.
  lemma RepeatIsCaught(sorted: seq<Arrival>, i: nat, epoch: map<int, int>)
    requires WeaklySorted(sorted) && i < |sorted| && LineDrawn(sorted, i, epoch)
    ensures sorted[i].id.source in epoch && epoch[sorted[i].id.source] >= sorted[i].id.clock <==>
            Among(sorted, i, sorted[i].id)
  {
    if sorted[i].id.source in epoch {
      assert Among(sorted, i, Id(epoch[sorted[i].id.source], sorted[i].id.source));
      var j :| 0 <= j < i && sorted[j].id == Id(epoch[sorted[i].id.source], sorted[i].id.source);
      assert LessEq(sorted[j].id, sorted[i].id);
    }
  }

  // Equal pairs occur only with clock 0, which marks an event without a clock.
  ghost predicate CleanUpTo(sorted: seq<Arrival>, i: nat) {
    i <= |sorted| && forall a, b :: 0 <= a < b < i && sorted[a].id == sorted[b].id ==> sorted[a].id.clock == 0
  }

  lemma CleanGrows(sorted: seq<Arrival>, i: nat)
    requires i < |sorted|
    ensures CleanUpTo(sorted, i + 1) <==>
      CleanUpTo(sorted, i) && (Among(sorted, i, sorted[i].id) ==> sorted[i].id.clock == 0)
  {
    if CleanUpTo(sorted, i + 1) && Among(sorted, i, sorted[i].id) {
      var j :| 0 <= j < i && sorted[j].id == sorted[i].id;
    }
    if CleanUpTo(sorted, i) && (Among(sorted, i, sorted[i].id) ==> sorted[i].id.clock == 0) {
      forall a | 0 <= a < i && sorted[a].id == sorted[i].id ensures sorted[a].id.clock == 0 {
        assert Among(sorted, i, sorted[i].id);
      }
    }
  }

  ghost predicate DistinctElements(list: seq<Arrival>) {
    forall i, j :: 0 <= i < j < |list| ==> list[i] != list[j]
  }

  lemma {:induction false} InsertKeepsDistinct(list: seq<Arrival>, e: Arrival)
    requires DistinctElements(list) && e !in list
    ensures DistinctElements(InsertByClock(list, e))
  {
    if !(list == [] || Less(list[|list| - 1].id, e.id)) {
      var init, last := list[..|list| - 1], list[|list| - 1];
      InsertKeepsDistinct(init, e);
      InsertHas(init, e, last);
      assert last !in init;
    }
  }

  lemma {:induction false} SortKeepsDistinct(list: seq<Arrival>)
    requires DistinctElements(list)
    ensures DistinctElements(SortByClock(list))
  {
    if list != [] {
      var init, last := list[..|list| - 1], list[|list| - 1];
      SortKeepsDistinct(init);
      SortHas(init, last);
      InsertKeepsDistinct(SortByClock(init), last);
    }
  }

  // Every pair of equal ids has clock 0.
  ghost predicate DistinctClocked(list: seq<Arrival>) {
    forall i, j :: 0 <= i < j < |list| && list[i].id == list[j].id ==> list[i].id.clock == 0
  }

  // The sorted list is clean exactly when no (clock, sender) pair with a clock repeats.
  lemma CleanMeansDistinct(list: seq<Arrival>)
    requires forall k :: 0 <= k < |list| ==> list[k].clockOrder == k
    ensures CleanUpTo(SortByClock(list), |list|) <==> DistinctClocked(list)
  {
    hide SortByClock;
    var sorted := SortByClock(list);
    SortHas(list, Arrival(Id(0, 0), 0));
    SortKeepsDistinct(list);
    if DistinctClocked(list) {
      forall a, b | 0 <= a < b < |list| && sorted[a].id == sorted[b].id ensures sorted[a].id.clock == 0 {
        SortHas(list, sorted[a]);
        SortHas(list, sorted[b]);
        Separates(list, sorted[a], sorted[b]);
      }
    }
    if CleanUpTo(sorted, |list|) {
      forall a, b | 0 <= a < b < |list| && list[a].id == list[b].id ensures list[a].id.clock == 0 {
        SortHas(list, list[a]);
        SortHas(list, list[b]);
        Separates(sorted, list[a], list[b]);
      }
    }
  }

  lemma Separates(list: seq<Arrival>, x: Arrival, y: Arrival)
    requires DistinctClocked(list) && x in list && y in list && x != y && x.id == y.id
    ensures x.id.clock == 0
  {
    var i :| 0 <= i < |list| && list[i] == x;
    var j :| 0 <= j < |list| && list[j] == y;
    assert if i < j then list[i].id == list[j].id else list[j].id == list[i].id;
  }

  // With clocks, clean means strictly sorted, and distinct is distinct.
  lemma ClockedIsStrict(list: seq<Arrival>)
    requires forall k :: 0 <= k < |list| ==> list[k].id.clock > 0
    ensures CleanUpTo(SortByClock(list), |list|) ==> StrictUpTo(SortByClock(list), |list|)
    ensures DistinctClocked(list) <==> DistinctArrivals(list)
  {
    hide SortByClock;
    var sorted := SortByClock(list);
    SortWeaklySorts(list);
    SortHas(list, Arrival(Id(0, 0), 0));
    if CleanUpTo(sorted, |list|) {
      forall a, b | 0 <= a < b < |list| ensures Less(sorted[a].id, sorted[b].id) {
        SortHas(list, sorted[a]);
        assert LessEq(sorted[a].id, sorted[b].id);
      }
    }
  }

  // The clock order of every event, from the sorted list.
  ghost predicate Ordered(sorted: seq<Arrival>, i: nat, perm: seq<nat>) {
    i <= |sorted| && forall j :: 0 <= j < i ==> 0 <= sorted[j].clockOrder < |perm| && perm[sorted[j].clockOrder] == j
  }

  // Every event has an order, and it is where the sorter put the event.
  lemma OrderedAll(list: seq<Arrival>, perm: seq<nat>, k: nat)
    requires k < |list| == |perm| && Ordered(SortByClock(list), |list|, perm)
    requires forall j :: 0 <= j < |list| ==> list[j].clockOrder == j
    ensures perm[k] < |list| && SortByClock(list)[perm[k]] == list[k]
  {
    SortHas(list, list[k]);
    var j :| 0 <= j < |SortByClock(list)| && SortByClock(list)[j] == list[k];
  }

  // No failed test is recorded inside a with_next group.
  ghost predicate Contiguous(observed: seq<Event>) {
    forall k :: 0 <= k < |observed| - 1 && observed[k].Matched? && observed[k].withNext ==> observed[k + 1].Matched?
  }

  // The last thing observed is the last event, or failed tests after it.
  ghost predicate LastSeen(events: seq<Event>, ids: seq<nat>, observed: seq<Event>) {
    if observed == [] then events == [] && ids == []
    else if observed[|observed| - 1].Matched? then
      events != [] && events[|events| - 1] == observed[|observed| - 1]
    else ids != [] && ids[|ids| - 1] == |events|
  }

  ghost predicate Grouped(events: seq<Event>, ids: seq<nat>, observed: seq<Event>) {
    Contiguous(observed) ==>
      forall i :: 0 <= i < |ids| && 0 < ids[i] <= |events| && events[ids[i] - 1].Matched? ==>
        !events[ids[i] - 1].withNext
  }

  lemma ContiguousInit(observed: seq<Event>, e: Event)
    requires Contiguous(observed + [e])
    ensures Contiguous(observed)
    ensures observed != [] && e.Unmatched? && observed[|observed| - 1].Matched? ==> !observed[|observed| - 1].withNext
  {
    var all := observed + [e];
    forall k | 0 <= k < |observed| - 1 && observed[k].Matched? && observed[k].withNext
      ensures observed[k + 1].Matched?
    {
      assert all[k] == observed[k] && all[k + 1] == observed[k + 1];
    }
    if observed != [] {
      var k := |observed| - 1;
      assert all[k] == observed[k] && all[k + 1] == e;
    }
  }

  lemma GroupedMatched(events: seq<Event>, ids: seq<nat>, observed: seq<Event>, e: Event)
    requires Grouped(events, ids, observed) && e.Matched? && forall i :: 0 <= i < |ids| ==> ids[i] <= |events|
    ensures Grouped(events + [e], ids, observed + [e])
  {
    if Contiguous(observed + [e]) {
      ContiguousInit(observed, e);
    }
  }

  lemma GroupedTests(events: seq<Event>, ids: seq<nat>, observed: seq<Event>, ids': seq<nat>, n: nat)
    requires Grouped(events, ids, observed) && LastSeen(events, ids, observed)
    requires if ids != [] && ids[|ids| - 1] == |events| then ids' == ids else ids' == ids + [|events|]
    ensures Grouped(events, ids', observed + [Unmatched(n)])
  {
    if Contiguous(observed + [Unmatched(n)]) {
      ContiguousInit(observed, Unmatched(n));
    }
  }

  // What was collected of a matching set, and from which observations.
  datatype Collection = Collection(events: seq<Event>, withPrevious: seq<nat>, matchedIndex: seq<int>,
                                   ids: seq<nat>, counts: seq<nat>, observed: seq<Event>)

  ghost predicate ValidCollection(c: Collection) {
    && Collected(c.events, c.ids, c.counts, c.observed)
    && Grouped(c.events, c.ids, c.observed) && LastSeen(c.events, c.ids, c.observed)
    && |c.events| == |c.matchedIndex| && (forall k :: 0 <= k < |c.events| ==> c.matchedIndex[k] == c.events[k].index)
    && c.withPrevious == WithNextPositions(c.events)
  }

  // When formatting aborts: the last event has another to come, or a (clock, sender) pair with a
  // clock repeats.
  ghost predicate FormatFails(events: seq<Event>)
    requires forall k :: 0 <= k < |events| ==> events[k].Matched?
  {
    (events != [] && events[|events| - 1].withNext) || !DistinctClocked(Positions(events))
  }

  // One event has the smaller clock, or the smaller sender at the same clock.
  ghost predicate Earlier(events: seq<Event>, k: nat, m: nat)
    requires k < |events| && m < |events| && events[k].Matched? && events[m].Matched?
  {
    var a, b := events[k].id, events[m].id;
    a.clock < b.clock || (a.clock == b.clock && a.source < b.source)
  }

  // The orders are distinct and put smaller clocks first, smaller senders where clocks are equal.
  ghost predicate OrdersOf(events: seq<Event>, perm: seq<nat>) {
    && |perm| == |events| && (forall k :: 0 <= k < |events| ==> events[k].Matched? && perm[k] < |events|)
    && forall k, m :: 0 <= k < |events| && 0 <= m < |events| && k != m ==>
      perm[k] != perm[m] && (Earlier(events, k, m) ==> perm[k] < perm[m])
  }

  // Every sender of an event once, with the highest clock of its events.
  ghost predicate EpochOf(events: seq<Event>, ranks: seq<int>, clocks: seq<int>) {
    && |ranks| == |clocks| && (forall i, j :: 0 <= i < j < |ranks| ==> ranks[i] != ranks[j])
    && (forall k :: 0 <= k < |events| ==> events[k].Matched? && events[k].id.source in ranks)
    && (forall i :: 0 <= i < |ranks| ==> Occurs(events, Id(clocks[i], ranks[i])))
    && forall i, k :: 0 <= i < |ranks| && 0 <= k < |events| && events[k].id.source == ranks[i] ==>
      events[k].id.clock <= clocks[i]
  }

  ghost predicate Occurs(events: seq<Event>, id: Id) {
    exists k :: 0 <= k < |events| && events[k].Matched? && events[k].id == id
  }

  lemma OrdersMean(events: seq<Event>, perm: seq<nat>)
    requires forall k :: 0 <= k < |events| ==> events[k].Matched?
    requires |perm| == |events| && Ordered(SortByClock(Positions(events)), |events|, perm)
    ensures OrdersOf(events, perm)
  {
    hide SortByClock, Ordered;
    var list := Positions(events);
    SortHas(list, Arrival(Id(0, 0), 0));
    SortWeaklySorts(list);
    forall k | 0 <= k < |events| ensures perm[k] < |events| && SortByClock(list)[perm[k]] == list[k] {
      OrderedAll(list, perm, k);
    }
    forall k, m | 0 <= k < |events| && 0 <= m < |events| && k != m
      ensures perm[k] != perm[m] && (Earlier(events, k, m) ==> perm[k] < perm[m])
    {
      assert perm[m] < perm[k] ==> LessEq(list[m].id, list[k].id);
    }
  }

  lemma EpochMeans(events: seq<Event>, ranks: seq<int>, clocks: seq<int>)
    requires forall k :: 0 <= k < |events| ==> events[k].Matched?
    requires EpochDrawn(SortByClock(Positions(events)), ranks, clocks)
    ensures EpochOf(events, ranks, clocks)
  {
    hide SortByClock, Occurs;
    var list := Positions(events);
    var sorted := SortByClock(list);
    forall k | 0 <= k < |events| ensures exists j :: 0 <= j < |sorted| && sorted[j].id == events[k].id {
      SortHas(list, list[k]);
      var j :| 0 <= j < |sorted| && sorted[j] == list[k];
    }
    forall i | 0 <= i < |ranks| ensures Occurs(events, Id(clocks[i], ranks[i])) {
      AmongOccurs(events, Id(clocks[i], ranks[i]));
    }
  }

  lemma AmongOccurs(events: seq<Event>, id: Id)
    requires forall k :: 0 <= k < |events| ==> events[k].Matched?
    requires var sorted := SortByClock(Positions(events)); Among(sorted, |sorted|, id)
    ensures Occurs(events, id)
  {
    hide SortByClock;
    var sorted := SortByClock(Positions(events));
    var j :| 0 <= j < |sorted| && sorted[j].id == id;
    SortHas(Positions(events), sorted[j]);
    assert sorted[j] in Positions(events);
  }

  class TableRecorder {
    var events: seq<Event>
    var withPrevious: seq<nat>
    var matchedIndex: seq<int>
    var unmatchedIds: seq<nat>
    var unmatchedCounts: seq<nat>
    var count: nat
    ghost var observed: seq<Event>

    ghost function View(): Collection
      reads this
    {
      Collection(events, withPrevious, matchedIndex, unmatchedIds, unmatchedCounts, observed)
    }

    ghost predicate Valid()
      reads this
    {
      ValidCollection(View()) && count == |events|
    }

    constructor ()
      ensures Valid() && observed == []
    {
      events, withPrevious, matchedIndex, unmatchedIds, unmatchedCounts, count := [], [], [], [], [], 0;
      observed := [];
    }

    method Add(event: Event)
      requires Valid()
      modifies this
      ensures Valid() && observed == old(observed) + [event]
    {
      hide Collected, Grouped, WithNextPositions;
      ghost var before := observed;
      CollectedGives(events, unmatchedIds, unmatchedCounts, observed);
      observed := observed + [event];
      if event.Matched? {
        CollectMatched(events, unmatchedIds, unmatchedCounts, before, event);
        GroupedMatched(events, unmatchedIds, before, event);
        WithNextSnoc(events, event);
        events := events + [event];
        if event.withNext {
          withPrevious := withPrevious + [|events| - 1];
        }
        matchedIndex := matchedIndex + [event.index];
        count := count + 1;
      } else {
        var next := |events|;
        if |unmatchedIds| > 0 && unmatchedIds[|unmatchedIds| - 1] == next {
          CollectMoreTests(events, unmatchedIds, unmatchedCounts, before, event.count);
          GroupedTests(events, unmatchedIds, before, unmatchedIds, event.count);
          var last := |unmatchedCounts| - 1;
          unmatchedCounts := unmatchedCounts[last := unmatchedCounts[last] + event.count];
        } else {
          CollectNewTests(events, unmatchedIds, unmatchedCounts, before, event.count);
          GroupedTests(events, unmatchedIds, before, unmatchedIds + [next], event.count);
          unmatchedIds := unmatchedIds + [next];
          unmatchedCounts := unmatchedCounts + [event.count];
        }
      }
    }

    // Sorts the events, numbers them in clock order and draws the epoch line.
    method Format() returns (perm: seq<nat>, epochRanks: seq<int>, epochClocks: seq<int>, error: bool)
      requires Valid()
      ensures error <==> FormatFails(events)
      ensures |perm| == |events| && Ordered(SortByClock(Positions(events)), |events|, perm)
      ensures EpochDrawn(SortByClock(Positions(events)), epochRanks, epochClocks)
      ensures OrdersOf(events, perm) && EpochOf(events, epochRanks, epochClocks)
    {
      hide Collected, Grouped, LastSeen, WeaklySorted, CleanUpTo, Ordered, LineDrawn, DistinctClocked, EpochDrawn,
           DistinctElements, OrdersOf, EpochOf;
      CollectedGives(events, unmatchedIds, unmatchedCounts, observed);
      error := |events| > 0 && events[|events| - 1].withNext;
      var sorted := SortByClock(Positions(events));
      SortHas(Positions(events), Arrival(Id(0, 0), 0));
      SortWeaklySorts(Positions(events));
      PositionsDistinct(Positions(events));
      SortKeepsDistinct(Positions(events));
      CleanMeansDistinct(Positions(events));
      FormatStarts(Positions(events), sorted);
      ghost var truncated := error;
      perm := seq(|events|, _ => 0);
      var epoch: map<int, int> := map[];
      for i := 0 to |sorted|
        invariant Formatting(Positions(events), sorted, i, perm, epoch, truncated, error)
      {
        FormatStep(Positions(events), sorted, i, perm, epoch, truncated, error);
        var e := sorted[i];
        perm := perm[e.clockOrder := i];
        if e.id.source !in epoch {
          epoch := epoch[e.id.source := e.id.clock];
        } else {
          if epoch[e.id.source] >= e.id.clock {
            if e.id.clock != 0 {
              error := true;
            }
          }
          epoch := epoch[e.id.source := e.id.clock];
        }
      }
      epochRanks, epochClocks := ListEpoch(epoch);
      EpochIsLine(sorted, epoch, epochRanks, epochClocks);
      OrdersMean(events, perm);
      EpochMeans(events, epochRanks, epochClocks);
    }
  }

  lemma CollectedGives(events: seq<Event>, ids: seq<nat>, counts: seq<nat>, observed: seq<Event>)
    requires Collected(events, ids, counts, observed)
    ensures |ids| == |counts| && forall i :: 0 <= i < |ids| ==> ids[i] <= |events|
    ensures forall k :: 0 <= k < |events| ==> events[k].Matched?
  {
  }

  lemma PositionsDistinct(list: seq<Arrival>)
    requires forall k :: 0 <= k < |list| ==> list[k].clockOrder == k
    ensures DistinctElements(list)
  {
  }

  // After i sorted events: their orders are noted, the line covers them, repeats are reported.
  ghost predicate Formatting(list: seq<Arrival>, sorted: seq<Arrival>, i: nat, perm: seq<nat>, epoch: map<int, int>,
                             truncated: bool, error: bool) {
    && sorted == SortByClock(list) && WeaklySorted(sorted) && |perm| == |list| == |sorted| && i <= |sorted|
    && (forall k :: 0 <= k < |list| ==> list[k].clockOrder == k) && DistinctElements(sorted)
    && LineDrawn(sorted, i, epoch)
    && (error <==> truncated || !CleanUpTo(sorted, i))
    && Ordered(sorted, i, perm)
  }

  lemma FormatStarts(list: seq<Arrival>, sorted: seq<Arrival>)
    ensures CleanUpTo(sorted, 0) && LineDrawn(sorted, 0, map[]) && forall perm :: Ordered(sorted, 0, perm)
  {
  }

  lemma OrderNext(list: seq<Arrival>, i: nat, perm: seq<nat>)
    requires var sorted := SortByClock(list); i < |sorted| && Ordered(sorted, i, perm) && DistinctElements(sorted)
    requires |perm| == |list| && forall k :: 0 <= k < |list| ==> list[k].clockOrder == k
    ensures 0 <= SortByClock(list)[i].clockOrder < |perm|
    ensures Ordered(SortByClock(list), i + 1, perm[SortByClock(list)[i].clockOrder := i])
  {
    hide SortByClock;
    var sorted := SortByClock(list);
    SortHas(list, sorted[i]);
    forall j | 0 <= j < i ensures sorted[j].clockOrder != sorted[i].clockOrder {
      SortHas(list, sorted[j]);
    }
  }

  lemma FormatStep(list: seq<Arrival>, sorted: seq<Arrival>, i: nat, perm: seq<nat>, epoch: map<int, int>,
                   truncated: bool, error: bool)
    requires Formatting(list, sorted, i, perm, epoch, truncated, error) && i < |sorted|
    ensures 0 <= sorted[i].clockOrder < |perm|
    ensures var e := sorted[i];
      Formatting(list, sorted, i + 1, perm[e.clockOrder := i], epoch[e.id.source := e.id.clock], truncated,
                 error || (e.id.source in epoch && epoch[e.id.source] >= e.id.clock && e.id.clock != 0))
  {
    hide SortByClock, Ordered, DistinctElements, LineDrawn, CleanUpTo, WeaklySorted, Among;
    OrderNext(list, i, perm);
    DrawNext(sorted, i, epoch);
    RepeatIsCaught(sorted, i, epoch);
    CleanGrows(sorted, i);
  }

  // The epoch line as two parallel lists, in whatever order the hash map yields it.
  ghost predicate EpochDrawn(sorted: seq<Arrival>, ranks: seq<int>, clocks: seq<int>) {
    && |ranks| == |clocks|
    && (forall i, j :: 0 <= i < j < |ranks| ==> ranks[i] != ranks[j])
    && (forall i :: 0 <= i < |ranks| ==> Among(sorted, |sorted|, Id(clocks[i], ranks[i])))
    && (forall i, j :: 0 <= i < |ranks| && 0 <= j < |sorted| && sorted[j].id.source == ranks[i] ==>
      sorted[j].id.clock <= clocks[i])
    && (forall j :: 0 <= j < |sorted| ==> sorted[j].id.source in ranks)
  }

  lemma EpochIsLine(sorted: seq<Arrival>, epoch: map<int, int>, ranks: seq<int>, clocks: seq<int>)
    requires LineDrawn(sorted, |sorted|, epoch) && |ranks| == |clocks|
    requires forall i, j :: 0 <= i < j < |ranks| ==> ranks[i] != ranks[j]
    requires forall i :: 0 <= i < |ranks| ==> ranks[i] in epoch && clocks[i] == epoch[ranks[i]]
    requires forall rank :: rank in epoch ==> rank in ranks
    ensures EpochDrawn(sorted, ranks, clocks)
  {
  }

  method ListEpoch(epoch: map<int, int>) returns (ranks: seq<int>, clocks: seq<int>)
    ensures |ranks| == |clocks|
    ensures forall i, j :: 0 <= i < j < |ranks| ==> ranks[i] != ranks[j]
    ensures forall i :: 0 <= i < |ranks| ==> ranks[i] in epoch && clocks[i] == epoch[ranks[i]]
    ensures forall rank :: rank in epoch ==> rank in ranks
  {
    ranks, clocks := [], [];
    var left := epoch.Keys;
    while left != {}
      invariant left <= epoch.Keys && |ranks| == |clocks|
      invariant forall i, j :: 0 <= i < j < |ranks| ==> ranks[i] != ranks[j]
      invariant forall i :: 0 <= i < |ranks| ==> ranks[i] in epoch && ranks[i] !in left && clocks[i] == epoch[ranks[i]]
      invariant forall rank :: rank in epoch ==> rank in ranks || rank in left
    {
      assert (forall rank :: rank !in left) ==> left == {};
      var rank :| rank in left;
      ranks, clocks := ranks + [rank], clocks + [epoch[rank]];
      left := left - {rank};
    }
  }
}
