// From an observed stream to a table ready for replay: formatting, the clock-delta record, the
// chunk, and what decode makes of it.
module RecordReplay {
  import opened Chains
  import opened EditScripts
  import opened DiffBinary
  import opened ClockDelta
  import opened LinearPrediction
  import opened DecodeIndices
  import opened ReplayTables
  import opened ReplaySteps
  import opened ChunkFormat
  import opened DecodeOrdering
  import opened ReplayRuns
  import Rec = TableRecorder

  ghost predicate EventFits(e: Event) {
    e.Matched? && InRange(Int32, e.index) && 0 < e.id.clock < TWO_64 && 0 <= e.id.source < TWO_31
  }

  // The numbers of a recorded table fit the integer types they are stored in.
  ghost predicate Representable(events: seq<Event>, ids: seq<nat>, counts: seq<nat>) {
    && 8 * |events| < TWO_31 && 8 * |ids| < TWO_31
    && (forall k :: 0 <= k < |events| ==> EventFits(events[k]))
    && (forall k :: 0 <= k < |counts| ==> counts[k] < TWO_64)
  }

  // ---------------------------------------------------------------- the clock orders are a permutation

  lemma InIota(n: nat, x: nat)
    requires x < n
    ensures x in Iota(n) && IndexOf(Iota(n), x) == x
  {
    assert Iota(n)[x] == x;
    ColumnIs(Iota(n), x, x);
  }

  lemma PermIsReordering(list: seq<Arrival>, perm: seq<nat>)
    requires |perm| == |list| && Rec.Ordered(SortByClock(list), |list|, perm)
    requires forall j :: 0 <= j < |list| ==> list[j].clockOrder == j
    ensures Reorders(Iota(|list|), perm) && Columns(Iota(|list|), perm) == perm
  {
    hide SortByClock;
    var n := |list|;
    SortHas(list, Arrival(Id(0, 0), 0));
    forall k | 0 <= k < n ensures 0 <= perm[k] < n && SortByClock(list)[perm[k]] == list[k] {
      Rec.OrderedAll(list, perm, k);
    }
    forall i: nat | i < n ensures i in perm {
      SortHas(list, SortByClock(list)[i]);
      assert perm[SortByClock(list)[i].clockOrder] == i;
    }
    forall k | 0 <= k < n ensures perm[k] in Iota(n) && IndexOf(Iota(n), perm[k]) == perm[k] {
      InIota(n, perm[k]);
    }
  }

  // What Format leaves behind when it reports no error.
  ghost predicate Formatted(events: seq<Event>, perm: seq<nat>, ranks: seq<int>, clocks: seq<int>) {
    && (forall k :: 0 <= k < |events| ==> events[k].Matched?)
    && |perm| == |events| && Rec.Ordered(SortByClock(Rec.Positions(events)), |events|, perm)
    && Rec.StrictUpTo(SortByClock(Rec.Positions(events)), |events|)
    && Rec.EpochDrawn(SortByClock(Rec.Positions(events)), ranks, clocks)
    && (events != [] ==> !events[|events| - 1].withNext)
  }

  function Recorded(events: seq<Event>, unmatched: map<nat, nat>, perm: seq<nat>): Record
    requires forall k :: 0 <= k < |events| ==> events[k].Matched?
  {
    Record(events, unmatched, Rec.IdsOf(SortByClock(Rec.Positions(events))), perm)
  }

  lemma SortedIdsFacts(events: seq<Event>, perm: seq<nat>, ranks: seq<int>, clocks: seq<int>)
    requires Formatted(events, perm, ranks, clocks)
    ensures var sorted := Rec.IdsOf(SortByClock(Rec.Positions(events)));
      && |sorted| == |events| && StrictlySorted(sorted)
      && (forall k :: 0 <= k < |events| ==> perm[k] < |events| && events[k].id == sorted[perm[k]])
      && (forall o: nat :: o < |events| ==> o in perm)
  {
    var list := Rec.Positions(events);
    SortHas(list, Arrival(Id(0, 0), 0));
    forall k | 0 <= k < |events| ensures perm[k] < |events| && events[k].id == SortByClock(list)[perm[k]].id {
      Rec.OrderedAll(list, perm, k);
    }
    forall o: nat | o < |events| ensures o in perm {
      SortHas(list, SortByClock(list)[o]);
      assert perm[SortByClock(list)[o].clockOrder] == o;
    }
  }

  // A formatted table is a valid record, if its clocks are positive and no failed test was
  // observed inside a group.
  lemma FormattedIsValid(events: seq<Event>, ids: seq<nat>, counts: seq<nat>, observed: seq<Event>,
                         perm: seq<nat>, ranks: seq<int>, clocks: seq<int>)
    requires Formatted(events, perm, ranks, clocks) && Rec.Collected(events, ids, counts, observed)
    requires forall k :: 0 <= k < |events| ==> EventFits(events[k])
    requires Rec.Grouped(events, ids, observed) && Rec.Contiguous(observed)
    ensures ValidRecord(Recorded(events, Rec.UnmatchedMap(ids, counts), perm))
  {
    hide Rec.EpochDrawn, Rec.Ordered, Rec.StrictUpTo, Rec.Contiguous, SortByClock;
    SortedIdsFacts(events, perm, ranks, clocks);
    var r := Recorded(events, Rec.UnmatchedMap(ids, counts), perm);
    forall o: nat | o < |r.sorted| ensures r.sorted[o].clock > 0 {
      assert o in perm;
      var k :| 0 <= k < |perm| && perm[k] == o;
      assert EventFits(events[k]);
    }
    TestsAtBoundaries(r, ids, counts, observed);
  }

  lemma TestsAtBoundaries(r: Record, ids: seq<nat>, counts: seq<nat>, observed: seq<Event>)
    requires Rec.Collected(r.events, ids, counts, observed) && Rec.Grouped(r.events, ids, observed)
    requires Rec.Contiguous(observed) && r.unmatched == Rec.UnmatchedMap(ids, counts)
    ensures forall i :: i in r.unmatched ==> i <= |r.events| && Boundary(r, i)
  {
    forall i | i in r.unmatched ensures i <= |r.events| && Boundary(r, i) {
      Rec.UnmatchedKeys(ids, counts, i);
    }
  }

  // ---------------------------------------------------------------- recording a table

  lemma {:induction false} WithNextIn(events: seq<Event>, k: nat)
    ensures k in Rec.WithNextPositions(events) <==> k < |events| && events[k].Matched? && events[k].withNext
    ensures |Rec.WithNextPositions(events)| <= |events|
    ensures forall i :: 0 <= i < |Rec.WithNextPositions(events)| ==> Rec.WithNextPositions(events)[i] < |events|
  {
    if events != [] {
      WithNextIn(events[..|events| - 1], k);
    }
  }

  lemma PredictedInRange(w: Width, s: seq<int>)
    ensures AllInRange(w, Predicted(w, s))
  {
  }

  lemma EpochFits(events: seq<Event>, perm: seq<nat>, ranks: seq<int>, clocks: seq<int>)
    requires Formatted(events, perm, ranks, clocks) && Representable(events, [], [])
    ensures VectorFits(ranks) && VectorFits(clocks) && |ranks| == |clocks|
  {
    var sorted := SortByClock(Rec.Positions(events));
    forall i | 0 <= i < |ranks| ensures InRange(Size64, ranks[i]) && InRange(Size64, clocks[i]) {
      assert Rec.Among(sorted, |sorted|, Id(clocks[i], ranks[i]));
      var j :| 0 <= j < |sorted| && sorted[j].id == Id(clocks[i], ranks[i]);
      SortHas(Rec.Positions(events), sorted[j]);
      assert EventFits(events[sorted[j].clockOrder]);
    }
    FewSenders(sorted, ranks, clocks);
    SortHas(Rec.Positions(events), Arrival(Id(0, 0), 0));
  }

  // There are no more senders than messages.
  lemma FewSenders(sorted: seq<Arrival>, ranks: seq<int>, clocks: seq<int>)
    requires Rec.EpochDrawn(sorted, ranks, clocks)
    ensures |ranks| <= |sorted|
  {
    var senders := set j | 0 <= j < |sorted| :: sorted[j].id.source;
    var listed := set i | 0 <= i < |ranks| :: ranks[i];
    forall i | 0 <= i < |ranks| ensures ranks[i] in senders {
      assert Rec.Among(sorted, |sorted|, Id(clocks[i], ranks[i]));
    }
    assert listed <= senders;
    ImageSize(sorted, |sorted|);
    DistinctSize(ranks, |ranks|);
    SubsetSize(listed, senders);
  }

  lemma SubsetSize(a: set<int>, b: set<int>)
    requires a <= b
    ensures |a| <= |b|
  {
    assert b == a + (b - a);
  }

  lemma {:induction false} ImageSize(sorted: seq<Arrival>, n: nat)
    requires n <= |sorted|
    ensures |set j | 0 <= j < n :: sorted[j].id.source| <= n
  {
    if n > 0 {
      ImageSize(sorted, n - 1);
      assert (set j | 0 <= j < n :: sorted[j].id.source) ==
        (set j | 0 <= j < n - 1 :: sorted[j].id.source) + {sorted[n - 1].id.source};
    }
  }

  lemma {:induction false} DistinctSize(ranks: seq<int>, n: nat)
    requires n <= |ranks| && forall i, j :: 0 <= i < j < |ranks| ==> ranks[i] != ranks[j]
    ensures |set i | 0 <= i < n :: ranks[i]| == n
  {
    if n > 0 {
      DistinctSize(ranks, n - 1);
      assert (set i | 0 <= i < n :: ranks[i]) == (set i | 0 <= i < n - 1 :: ranks[i]) + {ranks[n - 1]};
    }
  }

  function Indices(events: seq<Event>): (s: seq<int>)
    requires forall k :: 0 <= k < |events| ==> events[k].Matched?
    ensures |s| == |events|
  {
    seq(|events|, k requires 0 <= k < |events| => events[k].index)
  }

  // The sections of a formatted table, before linear prediction.
  ghost predicate Images(img: Image, id: int, events: seq<Event>, ids: seq<nat>, counts: seq<nat>, ranks: seq<int>,
                         clocks: seq<int>, moveIds: seq<int>, deltas: seq<int>)
    requires forall k :: 0 <= k < |events| ==> events[k].Matched?
  {
    && img.id == id && img.count == |events| && img.epochRanks == ranks && img.epochClocks == clocks
    && img.withPrevious == Rec.WithNextPositions(events) && img.matchedIndex == SignExtended(Indices(events))
    && img.unmatchedIds == ids && img.unmatchedCounts == counts
    && img.matched == Predicted(Int32, moveIds) + Predicted(Int32, deltas)
  }

  lemma ImageIsWritable(img: Image, id: int, events: seq<Event>, ids: seq<nat>, counts: seq<nat>, perm: seq<nat>,
                        ranks: seq<int>, clocks: seq<int>, moveIds: seq<int>, deltas: seq<int>)
    requires Formatted(events, perm, ranks, clocks) && Representable(events, ids, counts) && InRange(Int32, id)
    requires |ids| == |counts| && forall i :: 0 <= i < |ids| ==> ids[i] <= |events|
    requires Images(img, id, events, ids, counts, ranks, clocks, moveIds, deltas)
    requires |moveIds| == |deltas| <= |events|
    ensures Writable(img)
  {
    hide Formatted;
    EpochFits(events, perm, ranks, clocks);
    PredictedInRange(Int32, moveIds);
    PredictedInRange(Int32, deltas);
    WithNextIn(events, 0);
  }

  lemma MovesInRange(n: nat, moveIds: seq<int>, deltas: seq<int>, order: seq<int>)
    requires TurnsInto(Iota(n), moveIds, deltas, order) && n <= TWO_31
    ensures |moveIds| == |deltas| && AllInRange(Int32, moveIds) && AllInRange(Int32, deltas)
  {
    MovedIdsInRange(n, moveIds, deltas);
    DelaysInRange(Iota(n), Moves(moveIds, deltas));
    assert forall k :: 0 <= k < |deltas| ==> Moves(moveIds, deltas)[k].delay == deltas[k];
  }

  // The record side: the clock-delta moves and the other sections of the table.
  method ToImage(id: int, events: seq<Event>, withPrevious: seq<nat>, matchedIndex: seq<int>, ids: seq<nat>,
                 counts: seq<nat>, perm: seq<nat>, ranks: seq<int>, clocks: seq<int>)
    returns (img: Image, ghost moveIds: seq<int>, ghost deltas: seq<int>)
    requires Formatted(events, perm, ranks, clocks) && Representable(events, ids, counts) && InRange(Int32, id)
    requires |ids| == |counts| && forall i :: 0 <= i < |ids| ==> ids[i] <= |events|
    requires withPrevious == Rec.WithNextPositions(events) && matchedIndex == Indices(events)
    ensures Writable(img) && Images(img, id, events, ids, counts, ranks, clocks, moveIds, deltas)
    ensures TurnsInto(Iota(|events|), moveIds, deltas, perm)
    ensures |moveIds| == |deltas| <= |events| && AllInRange(Int32, moveIds) && AllInRange(Int32, deltas)
  {
    hide Writable, Formatted, Rec.WithNextPositions, Representable, TurnsInto;
    FormattedOrder(events, perm, ranks, clocks);
    RepresentableSize(events, ids, counts);
    var matched;
    matched, moveIds, deltas := CompressMatchedEvents(Iota(|events|), perm);
    MovesInRange(|events|, moveIds, deltas, perm);
    img := Image(id, |events|, ranks, clocks, withPrevious, SignExtended(matchedIndex), ids, counts, matched);
    FewMoves(perm, |moveIds|);
    ImageIsWritable(img, id, events, ids, counts, perm, ranks, clocks, moveIds, deltas);
  }

  lemma FormattedOrder(events: seq<Event>, perm: seq<nat>, ranks: seq<int>, clocks: seq<int>)
    requires Formatted(events, perm, ranks, clocks)
    ensures forall k :: 0 <= k < |events| ==> events[k].Matched?
    ensures |perm| == |events| && Reorders(Iota(|events|), perm) && Columns(Iota(|events|), perm) == perm
  {
    PermIsReordering(Rec.Positions(events), perm);
  }

  lemma RepresentableSize(events: seq<Event>, ids: seq<nat>, counts: seq<nat>)
    requires Representable(events, ids, counts)
    ensures |events| <= TWO_31
  {
  }

  lemma FewMoves(perm: seq<nat>, moves: nat)
    requires moves + Best(perm, |perm|) == |perm|
    ensures moves <= |perm|
  {
  }

  // ---------------------------------------------------------------- making a table ready for replay

  method WithNextFlags(count: nat, positions: seq<int>) returns (flags: seq<bool>)
    requires forall i :: 0 <= i < |positions| ==> 0 <= positions[i] < count
    ensures positions == [] ==> flags == []
    ensures positions != [] ==> |flags| == count && forall k :: 0 <= k < count ==> (flags[k] <==> k in positions)
  {
    flags := [];
    if |positions| > 0 {
      flags := seq(count, _ => false);
      for i := 0 to |positions|
        invariant |flags| == count && forall k :: 0 <= k < count ==> (flags[k] <==> k in positions[..i])
      {
        flags := flags[positions[i] := true];
      }
      assert positions[..|positions|] == positions;
    }
  }

  method FailedTests(ids: seq<nat>, counts: seq<nat>) returns (unmatched: map<nat, nat>)
    requires |ids| == |counts|
    ensures unmatched == Rec.UnmatchedMap(ids, counts)
  {
    unmatched := map[];
    for i := 0 to |ids|
      invariant unmatched == Rec.UnmatchedMap(ids[..i], counts[..i])
    {
      assert ids[..i + 1][..i] == ids[..i] && counts[..i + 1][..i] == counts[..i];
      unmatched := unmatched[ids[i] := counts[i]];
    }
    assert ids[..|ids|] == ids && counts[..|ids|] == counts;
  }

  // (int) of every stored index.
  function ToInts(xs: seq<int>): (s: seq<int>)
    ensures |s| == |xs|
  {
    seq(|xs|, i requires 0 <= i < |xs| => Wrap(Int32, xs[i]))
  }

  lemma IndicesSurvive(events: seq<Event>)
    requires forall k :: 0 <= k < |events| ==> events[k].Matched? && EventFits(events[k])
    ensures ToInts(SignExtended(Indices(events))) == Indices(events)
  {
    forall k | 0 <= k < |events| ensures Wrap(Int32, Wrap(Size64, events[k].index)) == events[k].index {
      assert EventFits(events[k]);
    }
  }

  // The replay side of a table: what decode and cdc_prepare_decode_indices make of its sections.
  method FromImage(img: Image, ghost events: seq<Event>, ghost ids: seq<nat>, ghost counts: seq<nat>,
                   ghost perm: seq<nat>, ghost ranks: seq<int>, ghost clocks: seq<int>,
                   ghost moveIds: seq<int>, ghost deltas: seq<int>)
    returns (t: Table, unmatched: map<nat, nat>)
    requires Formatted(events, perm, ranks, clocks) && Representable(events, ids, counts) && |ids| == |counts|
    requires Images(img, img.id, events, ids, counts, ranks, clocks, moveIds, deltas)
    requires TurnsInto(Iota(|events|), moveIds, deltas, perm)
    requires |moveIds| == |deltas| && AllInRange(Int32, moveIds) && AllInRange(Int32, deltas)
    requires ValidRecord(Recorded(events, Rec.UnmatchedMap(ids, counts), perm))
    ensures Decoded(t, Recorded(events, Rec.UnmatchedMap(ids, counts), perm))
    ensures unmatched == Rec.UnmatchedMap(ids, counts)
  {
    hide Formatted, Representable, TurnsInto, ValidRecord, Decoded, Rec.WithNextPositions, Rec.UnmatchedMap;
    WithNextIn(events, 0);
    var flags := WithNextFlags(img.count, img.withPrevious);
    unmatched := FailedTests(img.unmatchedIds, img.unmatchedCounts);
    var indices := DecodeMatchedEvents(img.count, img.matched, moveIds, deltas, perm);
    t := Table(img.count, img.epochRanks, img.epochClocks, flags, ToInts(img.matchedIndex), indices[..]);
    IndicesFit(events, ids, counts);
    IndicesSurvive(events);
    TableIsDecoded(t, events, Rec.UnmatchedMap(ids, counts), perm, ranks, clocks);
  }

  lemma IndicesFit(events: seq<Event>, ids: seq<nat>, counts: seq<nat>)
    requires Representable(events, ids, counts)
    ensures forall k :: 0 <= k < |events| ==> EventFits(events[k])
  {
  }

  lemma TableIsDecoded(t: Table, events: seq<Event>, unmatched: map<nat, nat>, perm: seq<nat>, ranks: seq<int>,
                       clocks: seq<int>)
    requires Formatted(events, perm, ranks, clocks) && ValidRecord(Recorded(events, unmatched, perm))
    requires t.count == |events| && t.epochRanks == ranks && t.epochClocks == clocks
    requires t.matchedIndex == Indices(events)
    requires |t.indices| == t.count
    requires forall k :: 0 <= k < t.count ==> 0 <= perm[k] < t.count && t.indices[perm[k]] == k
    requires Rec.WithNextPositions(events) == [] ==> t.withNext == []
    requires Rec.WithNextPositions(events) != [] ==> |t.withNext| == t.count
    requires forall k :: 0 <= k < |t.withNext| == t.count ==> (t.withNext[k] <==> k in Rec.WithNextPositions(events))
    ensures Decoded(t, Recorded(events, unmatched, perm))
  {
    hide Formatted, ValidRecord, EpochEntry, DecodedEvents, Rec.WithNextPositions;
    FormattedMatched(events, perm, ranks, clocks);
    FlagsAgree(t.withNext, events);
    OrderFacts(t, events, perm, ranks, clocks);
    EventsAreDecoded(t, events, unmatched, perm);
    LineIsEpoch(events, unmatched, perm, ranks, clocks);
  }

  lemma FormattedMatched(events: seq<Event>, perm: seq<nat>, ranks: seq<int>, clocks: seq<int>)
    requires Formatted(events, perm, ranks, clocks)
    ensures forall k :: 0 <= k < |events| ==> events[k].Matched?
    ensures |perm| == |events|
  {
  }

  lemma EventsAreDecoded(t: Table, events: seq<Event>, unmatched: map<nat, nat>, perm: seq<nat>)
    requires (forall k :: 0 <= k < |events| ==> events[k].Matched?) && |perm| == |events|
    requires ValidRecord(Recorded(events, unmatched, perm))
    requires t.count == |events| == |t.indices| && t.matchedIndex == Indices(events)
    requires forall k :: 0 <= k < t.count ==> 0 <= perm[k] < t.count && t.indices[perm[k]] == k
    requires forall o :: 0 <= o < t.count ==> 0 <= t.indices[o] < t.count && perm[t.indices[o]] == o
    requires t.withNext == [] || |t.withNext| == t.count
    requires forall k :: 0 <= k < t.count ==> events[k].withNext == (t.withNext != [] && t.withNext[k])
    ensures DecodedEvents(t, Recorded(events, unmatched, perm))
  {
    hide ValidRecord;
  }

  lemma FlagsAgree(flags: seq<bool>, events: seq<Event>)
    requires Rec.WithNextPositions(events) == [] ==> flags == []
    requires Rec.WithNextPositions(events) != [] ==> |flags| == |events|
    requires forall k :: 0 <= k < |flags| == |events| ==> (flags[k] <==> k in Rec.WithNextPositions(events))
    requires forall k :: 0 <= k < |events| ==> events[k].Matched?
    ensures flags == [] || |flags| == |events|
    ensures forall k :: 0 <= k < |events| ==> events[k].withNext == (flags != [] && flags[k])
  {
    forall k: nat | k < |events| ensures events[k].withNext == (flags != [] && flags[k]) {
      WithNextIn(events, k);
    }
  }

  lemma OrderFacts(t: Table, events: seq<Event>, perm: seq<nat>, ranks: seq<int>, clocks: seq<int>)
    requires Formatted(events, perm, ranks, clocks) && |t.indices| == |events|
    requires forall k :: 0 <= k < |events| ==> 0 <= perm[k] < |events| && t.indices[perm[k]] == k
    ensures forall o :: 0 <= o < |events| ==> 0 <= t.indices[o] < |events| && perm[t.indices[o]] == o
  {
    SortedIdsFacts(events, perm, ranks, clocks);
    InverseOrder(perm, t.indices);
  }

  lemma InverseOrder(perm: seq<nat>, indices: seq<int>)
    requires |perm| == |indices| && forall k :: 0 <= k < |perm| ==> perm[k] < |perm| && indices[perm[k]] == k
    requires forall o: nat :: o < |perm| ==> o in perm
    ensures forall o :: 0 <= o < |perm| ==> 0 <= indices[o] < |perm| && perm[indices[o]] == o
  {
    forall o: nat | o < |perm| ensures 0 <= indices[o] < |perm| && perm[indices[o]] == o {
      assert o in perm;
    }
  }

  lemma LineIsEpoch(events: seq<Event>, unmatched: map<nat, nat>, perm: seq<nat>, ranks: seq<int>, clocks: seq<int>)
    requires Formatted(events, perm, ranks, clocks)
    ensures var r := Recorded(events, unmatched, perm);
      && |ranks| == |clocks| && (forall i, j :: 0 <= i < j < |ranks| ==> ranks[i] != ranks[j])
      && (forall i :: 0 <= i < |ranks| ==> EpochEntry(r, ranks[i], clocks[i]))
      && (forall o :: 0 <= o < |r.sorted| ==> r.sorted[o].source in ranks)
  {
    hide Rec.Ordered, Rec.StrictUpTo;
    var r := Recorded(events, unmatched, perm);
    var sorted := SortByClock(Rec.Positions(events));
    forall i | 0 <= i < |ranks| ensures EpochEntry(r, ranks[i], clocks[i]) {
      assert Rec.Among(sorted, |sorted|, Id(clocks[i], ranks[i]));
      var j :| 0 <= j < |sorted| && sorted[j].id == Id(clocks[i], ranks[i]);
      assert r.sorted[j] == Id(clocks[i], ranks[i]);
    }
  }
}
