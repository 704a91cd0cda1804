// Record and replay, end to end: all matching sets of a chunk are recorded, formatted, encoded,
// written, read back and made ready for replay, and a replay hands out what was observed.
module EndToEnd {
  import opened Basics
  import opened LinearPrediction
  import opened EditScripts
  import opened ClockDelta
  import opened DiffBinary
  import opened ReplayTables
  import opened ReplaySteps
  import opened DecodeOrdering
  import opened ReplayRuns
  import opened ChunkRuns
  import opened ChunkFormat
  import opened InputFormats
  import opened RecordReplay
  import Rec = TableRecorder

  // The moves of one table, before linear prediction.
  datatype MoveLists = MoveLists(ids: seq<int>, deltas: seq<int>)

  // The numbers fit their types, and no failed test was observed inside a group.
  ghost predicate CanStore(c: Rec.Collection) {
    Representable(c.events, c.ids, c.counts) && Rec.Contiguous(c.observed)
  }

  // A table that format has accepted.
  ghost predicate Accepted(c: Rec.Collection, layout: Layout) {
    Rec.ValidCollection(c) && CanStore(c) && Formatted(c.events, layout.perm, layout.ranks, layout.clocks)
  }

  lemma LaidIsAccepted(c: Rec.Collection, layout: Layout)
    requires LaidTable(c, layout) && CanStore(c) && (Rec.ValidCollection(c) ==> !Rec.FormatFails(c.events))
    ensures Accepted(c, layout)
  {
    hide Rec.Contiguous, Rec.Grouped, Rec.LastSeen, Rec.WithNextPositions, SortByClock, Rec.CleanUpTo,
         Rec.DistinctClocked;
    var list := Rec.Positions(c.events);
    forall k | 0 <= k < |list| ensures list[k].id.clock > 0 {
      assert EventFits(c.events[k]);
    }
    Rec.CleanMeansDistinct(list);
    Rec.ClockedIsStrict(list);
  }

  // What is written for a table is what decode needs.
  ghost predicate Described(img: Image, id: int, c: Rec.Collection, layout: Layout, moves: MoveLists) {
    && Accepted(c, layout) && Writable(img)
    && Images(img, id, c.events, c.ids, c.counts, layout.ranks, layout.clocks, moves.ids, moves.deltas)
    && TurnsInto(Iota(|c.events|), moves.ids, moves.deltas, layout.perm)
    && |moves.ids| == |moves.deltas| <= |c.events|
    && AllInRange(Int32, moves.ids) && AllInRange(Int32, moves.deltas)
  }

  lemma AcceptedGives(c: Rec.Collection, layout: Layout)
    requires Accepted(c, layout)
    ensures (forall k :: 0 <= k < |c.events| ==> c.events[k].Matched?) && |c.ids| == |c.counts|
    ensures forall i :: 0 <= i < |c.ids| ==> c.ids[i] <= |c.events|
    ensures Formatted(c.events, layout.perm, layout.ranks, layout.clocks) && Representable(c.events, c.ids, c.counts)
    ensures Rec.Collected(c.events, c.ids, c.counts, c.observed)
    ensures c.withPrevious == Rec.WithNextPositions(c.events) && c.matchedIndex == Indices(c.events)
  {
  }

  // encode, for one table.
  method ImageOf(table: Rec.TableRecorder, id: int, ghost c: Rec.Collection, layout: Layout)
    returns (img: Image, ghost moves: MoveLists)
    requires Holds(table, c) && Accepted(c, layout) && InRange(Int32, id)
    ensures Described(img, id, c, layout, moves) && img.id == id
  {
    hide Accepted, Formatted, Representable, Writable, TurnsInto, Rec.ValidCollection, Rec.WithNextPositions,
         Rec.Collected;
    HoldsGives(table, c);
    AcceptedGives(c, layout);
    ghost var moveIds, deltas;
    img, moveIds, deltas := ToImage(id, table.events, table.withPrevious, table.matchedIndex, table.unmatchedIds,
                                    table.unmatchedCounts, layout.perm, layout.ranks, layout.clocks);
    moves := MoveLists(moveIds, deltas);
  }

  // A table ready for replay, whose stream is what was observed with neighbouring failed tests
  // counted together.
  ghost predicate Reloaded(table: TestTable, observed: seq<Event>)
    reads table
  {
    table.Valid() && table.View() == Start(table.record) && Stream(table.record) == Rec.Merge(observed)
  }

  lemma RecordIsValid(c: Rec.Collection, layout: Layout)
    requires Accepted(c, layout)
    ensures forall k :: 0 <= k < |c.events| ==> c.events[k].Matched?
    ensures |c.ids| == |c.counts|
    ensures var r := Recorded(c.events, Rec.UnmatchedMap(c.ids, c.counts), layout.perm);
      ValidRecord(r) && Stream(r) == Rec.Merge(c.observed)
  {
    hide Formatted, ValidRecord, Rec.Grouped, Rec.Contiguous, Rec.LastSeen, Rec.WithNextPositions, SortByClock;
    FormattedIsValid(c.events, c.ids, c.counts, c.observed, layout.perm, layout.ranks, layout.clocks);
  }

  // decode and cdc_prepare_decode_indices, for one table.
  method TableOf(img: Image, ghost c: Rec.Collection, ghost layout: Layout, ghost moves: MoveLists)
    returns (table: TestTable)
    requires Described(img, img.id, c, layout, moves)
    ensures fresh(table) && Reloaded(table, c.observed)
  {
    hide Accepted, Formatted, Representable, Writable, TurnsInto, ValidRecord, Decoded, Rec.ValidCollection,
         Rec.Collected, Rec.UnmatchedMap, Rec.Merge, Stream, Inv, Images;
    AcceptedGives(c, layout);
    RecordIsValid(c, layout);
    var t, failedTests := FromImage(img, c.events, c.ids, c.counts, layout.perm, layout.ranks, layout.clocks,
                                    moves.ids, moves.deltas);
    table := new TestTable(t, failedTests, Recorded(c.events, Rec.UnmatchedMap(c.ids, c.counts), layout.perm));
  }

  // ---------------------------------------------------------------- all tables of a chunk

  ghost predicate AllDescribed(imgs: seq<Image>, ids: seq<int>, views: map<int, Rec.Collection>,
                               layouts: map<int, Layout>, moves: seq<MoveLists>) {
    && |imgs| == |moves| <= |ids|
    && (forall i :: 0 <= i < |imgs| ==> ids[i] in views && ids[i] in layouts && imgs[i].id == ids[i])
    && (forall i :: 0 <= i < |imgs| ==> Described(imgs[i], ids[i], views[ids[i]], layouts[ids[i]], moves[i]))
  }

  // encode: the tables of the map, in the order of their ids.
  method ImagesOf(fmt: InputFormat, ids: seq<int>, layouts: map<int, Layout>)
    returns (imgs: seq<Image>, ghost moves: seq<MoveLists>)
    requires fmt.Valid() && SetOf(ids) == fmt.views.Keys == layouts.Keys
    requires forall id :: id in fmt.views ==> InRange(Int32, id) && Accepted(fmt.views[id], layouts[id])
    ensures |imgs| == |ids| && AllDescribed(imgs, ids, fmt.views, layouts, moves)
  {
    hide Accepted, Described, Holds;
    imgs, moves := [], [];
    for i := 0 to |ids|
      invariant |imgs| == i && AllDescribed(imgs, ids, fmt.views, layouts, moves)
    {
      assert ids[i] in SetOf(ids);
      var img;
      ghost var mv;
      img, mv := ImageOf(fmt.tables[ids[i]], ids[i], fmt.views[ids[i]], layouts[ids[i]]);
      imgs, moves := imgs + [img], moves + [mv];
    }
  }

  // The tables made from the images read back, one fresh table per matching set.
  ghost predicate AllReloaded(loaded: map<int, TestTable>, views: map<int, Rec.Collection>, keys: set<int>)
    reads loaded.Values
  {
    && loaded.Keys == keys <= views.Keys
    && (forall a, b :: a in loaded && b in loaded && a != b ==> loaded[a] != loaded[b])
    && (forall id :: id in loaded ==> Reloaded(loaded[id], views[id].observed))
  }

  lemma ReloadedNext(loaded: map<int, TestTable>, views: map<int, Rec.Collection>, keys: set<int>, id: int,
                     table: TestTable)
    requires AllReloaded(loaded, views, keys) && id in views && Reloaded(table, views[id].observed)
    requires table !in loaded.Values
    ensures AllReloaded(loaded[id := table], views, keys + {id})
  {
    hide Reloaded;
    var more := loaded[id := table];
    forall a, b | a in more && b in more && a != b ensures more[a] != more[b] {
      assert a != id ==> loaded[a] in loaded.Values;
      assert b != id ==> loaded[b] in loaded.Values;
    }
  }

  lemma DescribedAt(decoded: map<int, Image>, ids: seq<int>, imgs: seq<Image>, views: map<int, Rec.Collection>,
                    layouts: map<int, Layout>, moves: seq<MoveLists>, i: nat)
    requires |imgs| == |ids| && AllDescribed(imgs, ids, views, layouts, moves) && Restored(imgs, |imgs|, decoded)
    requires i < |ids|
    ensures ids[i] in views && ids[i] in layouts && ids[i] in decoded && decoded[ids[i]].id == ids[i] && i < |moves|
    ensures Described(decoded[ids[i]], ids[i], views[ids[i]], layouts[ids[i]], moves[i])
  {
    hide Described;
    assert imgs[i].id == ids[i];
  }

  method TablesOf(decoded: map<int, Image>, ids: seq<int>, ghost imgs: seq<Image>,
                  ghost views: map<int, Rec.Collection>, ghost layouts: map<int, Layout>, ghost moves: seq<MoveLists>)
    returns (loaded: map<int, TestTable>)
    requires |imgs| == |ids| && AllDescribed(imgs, ids, views, layouts, moves) && Restored(imgs, |imgs|, decoded)
    ensures AllReloaded(loaded, views, SetOf(ids)) && fresh(loaded.Values)
  {
    hide Described, Reloaded, AllReloaded, AllDescribed, Restored, SetOf;
    loaded := map[];
    NothingReloaded(views, ids);
    for i := 0 to |ids|
      invariant AllReloaded(loaded, views, SetOf(ids[..i])) && fresh(loaded.Values)
    {
      DescribedAt(decoded, ids, imgs, views, layouts, moves, i);
      var table := TableOf(decoded[ids[i]], views[ids[i]], layouts[ids[i]], moves[i]);
      ReloadedNext(loaded, views, SetOf(ids[..i]), ids[i], table);
      SetOfNext(ids, i);
      assert loaded[ids[i] := table].Values <= loaded.Values + {table};
      loaded := loaded[ids[i] := table];
    }
    assert ids[..|ids|] == ids;
  }

  lemma NothingReloaded(views: map<int, Rec.Collection>, ids: seq<int>)
    ensures AllReloaded(map[], views, SetOf(ids[..0]))
  {
  }

  // ---------------------------------------------------------------- the chunk fits a file

  lemma CountedLength(xs: seq<int>)
    ensures |Flat(CountedParts(xs))| == 16 + 8 * |xs|
    ensures |Flat(SizedParts(xs))| == 8 + 8 * |xs|
  {
    hide PutWord, PutWords, Flat;
    TwoParts(SizedParts(xs));
    var parts := CountedParts(xs);
    assert parts[0..] == parts && parts[1..] == SizedParts(xs);
    FlatFrom(parts, 0);
  }

  lemma TableLength(img: Image)
    ensures |Flat(TableParts(img))| == 72 + 8 * (|img.epochRanks| + |img.epochClocks| + |img.withPrevious|
      + |img.matchedIndex| + |img.unmatchedIds| + |img.unmatchedCounts|) + 4 * |img.matched|
  {
    hide PutWord, PutWords, Flat, HeadParts, CountedParts, SizedParts, TableParts;
    TableSections(img);
    HeadSections(img);
    CountedLength(img.withPrevious);
    CountedLength(img.matchedIndex);
    CountedLength(img.unmatchedIds);
    CountedLength(img.unmatchedCounts);
    TwoParts(MatchedParts(img));
  }

  const MAX_TABLE := 0x4_0000_0000
  const MAX_SETS := 0x2000_0000

  lemma DescribedLength(img: Image, id: int, c: Rec.Collection, layout: Layout, moves: MoveLists)
    requires Described(img, id, c, layout, moves)
    ensures |Flat(TableParts(Coded(img)))| < MAX_TABLE
  {
    hide Flat, TableParts, TurnsInto, SortByClock, Rec.WithNextPositions, Writable, Rec.ValidCollection, Rec.EpochDrawn;
    TableLength(Coded(img));
    SendersFew(c, layout);
    WithNextIn(c.events, 0);
    AcceptedGives(c, layout);
    assert |img.matchedIndex| == |c.events| && |img.matched| == 2 * |moves.ids|;
  }

  lemma SendersFew(c: Rec.Collection, layout: Layout)
    requires Accepted(c, layout)
    ensures |layout.ranks| == |layout.clocks| <= |c.events|
  {
    hide SortByClock, Rec.ValidCollection;
    FewSenders(SortByClock(Rec.Positions(c.events)), layout.ranks, layout.clocks);
    SortHas(Rec.Positions(c.events), Arrival(Id(0, 0), 0));
  }

  lemma {:induction false} ChunkLength(imgs: seq<Image>)
    requires forall i :: 0 <= i < |imgs| ==> |Flat(TableParts(Coded(imgs[i])))| < MAX_TABLE
    ensures |ChunkBytes(CodedAll(imgs))| <= MAX_TABLE * |imgs|
  {
    hide Flat, TableParts, Coded;
    if imgs != [] {
      ChunkLength(imgs[1..]);
      assert CodedAll(imgs)[0] == Coded(imgs[0]) && CodedAll(imgs)[1..] == CodedAll(imgs[1..]);
    }
  }

  lemma IncreasingIds(imgs: seq<Image>, ids: seq<int>)
    requires |imgs| == |ids| && Increasing(ids) && forall i :: 0 <= i < |imgs| ==> imgs[i].id == ids[i]
    ensures DistinctIds(imgs)
  {
  }

  lemma ChunkIsStorable(imgs: seq<Image>, ids: seq<int>, views: map<int, Rec.Collection>,
                        layouts: map<int, Layout>, moves: seq<MoveLists>)
    requires |imgs| == |ids| && AllDescribed(imgs, ids, views, layouts, moves) && Increasing(ids)
    requires 0 < |ids| < MAX_SETS
    ensures StorableChunk(imgs)
  {
    hide Described, Coded, Flat, TableParts, Writable, ChunkBytes, CodedAll;
    IncreasingIds(imgs, ids);
    forall i | 0 <= i < |imgs| ensures Writable(imgs[i]) && |Flat(TableParts(Coded(imgs[i])))| < MAX_TABLE {
      DescribedLength(imgs[i], ids[i], views[ids[i]], layouts[ids[i]], moves[i]);
      DescribedWritable(imgs[i], ids[i], views[ids[i]], layouts[ids[i]], moves[i]);
    }
    ChunkLength(imgs);
  }

  lemma DescribedWritable(img: Image, id: int, c: Rec.Collection, layout: Layout, moves: MoveLists)
    requires Described(img, id, c, layout, moves)
    ensures Writable(img)
  {
  }

  // The tables that format accepted are encoded, written, read back and decoded.
  method Reload(fmt: InputFormat, layouts: map<int, Layout>) returns (loaded: map<int, TestTable>)
    requires fmt.Valid() && 0 < |fmt.tables| < MAX_SETS && layouts.Keys == fmt.views.Keys
    requires forall id :: id in fmt.views ==> InRange(Int32, id) && Accepted(fmt.views[id], layouts[id])
    ensures AllReloaded(loaded, fmt.views, fmt.tables.Keys) && fresh(loaded.Values)
  {
    hide InputFormat.Valid, AllReloaded, Accepted, AllDescribed, StorableChunk, Restored;
    fmt.AllValid();
    var ids := SortedKeys(fmt.tables.Keys);
    IncreasingCount(ids);
    var imgs;
    ghost var moves;
    imgs, moves := ImagesOf(fmt, ids, layouts);
    ChunkIsStorable(imgs, ids, fmt.views, layouts, moves);
    var chunks, broken := WriteThenRead([imgs]);
    assert [imgs][0] == imgs;
    loaded := TablesOf(chunks[0], ids, imgs, fmt.views, layouts, moves);
  }

  // All matching sets of a chunk are recorded, written to a record file, read back and made ready for
  // replay. The result holds for each of them exactly what was observed, failed tests counted together.
  method RecordAndReload(fmt: InputFormat) returns (loaded: map<int, TestTable>, error: bool)
    requires fmt.Valid() && 0 < |fmt.tables| < MAX_SETS
    requires forall id :: id in fmt.views ==> InRange(Int32, id) && CanStore(fmt.views[id])
    ensures AllCollected(fmt.views) && (error <==> exists id :: Fails(fmt.views, id))
    ensures !error ==> AllReloaded(loaded, fmt.views, fmt.tables.Keys) && fresh(loaded.Values)
  {
    hide InputFormat.Valid, AllReloaded, CanStore, Fails, AllLaidOut, Accepted;
    loaded := map[];
    fmt.AllValid();
    var layouts;
    layouts, error := fmt.Format();
    if error {
      return;
    }
    AllAccepted(fmt.views, layouts);
    loaded := Reload(fmt, layouts);
  }

  lemma AllAccepted(views: map<int, Rec.Collection>, layouts: map<int, Layout>)
    requires AllCollected(views) && AllLaidOut(views, layouts) && (forall id :: !Fails(views, id))
    requires forall id :: id in views ==> CanStore(views[id])
    ensures layouts.Keys == views.Keys && forall id :: id in views ==> Accepted(views[id], layouts[id])
  {
    hide CanStore, LaidTable, Rec.FormatFails, Rec.ValidCollection;
    forall id | id in views ensures Accepted(views[id], layouts[id]) {
      assert !Fails(views, id);
      LaidIsAccepted(views[id], layouts[id]);
    }
  }

  // ---------------------------------------------------------------- what replay hands out

  // Once the table made from a recording is decoded, the events handed out are those that were
  // observed, one by one, whatever the arrival order during replay.
  lemma ReplayReproducesObservation(t: Table, r: Record, observed: seq<Event>, states: seq<State>, calls: seq<Call>)
    requires IsRun(t, r, states, calls) && states[0] == Start(r) && Stream(r) == Rec.Merge(observed)
    requires DecodedAll(t, states[|calls|])
    ensures Rec.Expand(Outputs(calls)) == Rec.Expand(observed)
    ensures Rec.OneByOne(observed) ==> Rec.Expand(Outputs(calls)) == observed
  {
    ReplayRefinesRecording(t, r, states, calls);
    Rec.MergeLosesNothing(observed);
    if Rec.OneByOne(observed) {
      Rec.ExpandSingles(observed);
    }
  }

  // What was observed for a matching set from chunk k on.
  function ObservedFrom(observed: seq<map<int, seq<Event>>>, k: nat, id: int): seq<Event>
    decreases |observed| - k
  {
    if k >= |observed| then []
    else (if id in observed[k] then observed[k][id] else []) + ObservedFrom(observed, k + 1, id)
  }

  // Every table of a recording was made from what was observed for its set in its chunk.
  ghost predicate Records(chunks: seq<Chunk>, observed: seq<map<int, seq<Event>>>) {
    && |observed| == |chunks|
    && (forall k, id :: 0 <= k < |chunks| ==> (id in chunks[k] <==> id in observed[k]))
    && (forall k, id :: 0 <= k < |chunks| && id in chunks[k] ==>
      Stream(chunks[k][id].record) == Rec.Merge(observed[k][id]))
  }

  lemma {:induction false} ExpandConcat(a: seq<Event>, b: seq<Event>)
    ensures Rec.Expand(a + b) == Rec.Expand(a) + Rec.Expand(b)
  {
    hide Rec.Expand;
    if b == [] {
      NothingToExpand();
      assert a + b == a && Rec.Expand(a) + [] == Rec.Expand(a);
    } else {
      var init, last := b[..|b| - 1], b[|b| - 1];
      var one := if last.Unmatched? then Rec.Tests(last.count) else [last];
      ExpandConcat(a, init);
      assert a + b == (a + init) + [last] && b == init + [last];
      Rec.ExpandSnoc(a + init, last);
      Rec.ExpandSnoc(init, last);
      assert Rec.Expand(a) + (Rec.Expand(init) + one) == (Rec.Expand(a) + Rec.Expand(init)) + one;
    }
  }

  lemma {:induction false} StreamsAreObserved(chunks: seq<Chunk>, observed: seq<map<int, seq<Event>>>, k: nat, id: int)
    requires Records(chunks, observed) && k <= |chunks|
    ensures Rec.Expand(StreamsFrom(chunks, k, id)) == Rec.Expand(ObservedFrom(observed, k, id))
    decreases |chunks| - k
  {
    hide Rec.Expand, Rec.Merge;
    if k < |chunks| {
      StreamsAreObserved(chunks, observed, k + 1, id);
      var here := if id in observed[k] then observed[k][id] else [];
      Rec.MergeLosesNothing(here);
      NothingToExpand();
      ExpandConcat(Stream(RecordOf(chunks[k], id)), StreamsFrom(chunks, k + 1, id));
      ExpandConcat(here, ObservedFrom(observed, k + 1, id));
    }
  }

  lemma NothingToExpand()
    ensures Rec.Merge([]) == [] && Rec.Expand([]) == [] && Stream(Record([], map[], [], [])) == []
  {
  }

  // The whole promise. When the replay of a recording is finished, every matching set has been
  // handed exactly what was observed for it, event by event and chunk after chunk.
  lemma ReplayReproducesAllChunks(chunks: seq<Chunk>, observed: seq<map<int, seq<Event>>>,
                                  ds: seq<Decoder>, turns: seq<Turn>, id: int)
    requires IsReplay(chunks, ds, turns) && ReceivedInOrder(chunks, turns) && BoundsAlwaysAllow(chunks, ds, turns)
    requires Records(chunks, observed) && Finished(chunks, ds[|turns|])
    ensures Rec.Expand(HandedOut(turns, id)) == Rec.Expand(ObservedFrom(observed, 0, id))
    ensures Rec.OneByOne(ObservedFrom(observed, 0, id)) ==>
      Rec.Expand(HandedOut(turns, id)) == ObservedFrom(observed, 0, id)
  {
    hide Rec.OneByOne, ValidRecording, StepOf, ReceivedInOrder, Finished, Rec.Expand, HandedOut, StreamsFrom,
         ObservedFrom;
    ReplayFollowsRecording(chunks, ds, turns);
    StreamsAreObserved(chunks, observed, 0, id);
    if Rec.OneByOne(ObservedFrom(observed, 0, id)) {
      Rec.ExpandSingles(ObservedFrom(observed, 0, id));
    }
  }
}
