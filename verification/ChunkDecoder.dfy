// The decoder as the program keeps it: the tables of the current chunk, the messages no table
// has admitted yet, the bounds per matching set, and the count of decoded tables.
module ChunkDecoder {
  import opened Basics
  import opened Options
  import opened ReplayTables
  import opened ReplaySteps
  import opened DecodeOrdering
  import opened ReplayRuns
  import opened EpochReplay
  import opened ChunkRuns

  // A table object in a consistent state, with what it was made from and the value of its state.
  ghost predicate Mirrors(table: TestTable, rec: RecordedTable, st: State)
    reads table
  {
    table.Valid() && table.View() == st && table.table == rec.table && table.record == rec.record
  }

  // The tables are separate objects and hold this chunk.
  ghost predicate AllValid(tables: map<int, TestTable>, chunk: Chunk, views: map<int, State>)
    reads tables.Values
  {
    && views.Keys == tables.Keys == chunk.Keys
    && (forall a, b :: a in tables && b in tables && a != b ==> tables[a] != tables[b])
    && (forall id :: id in tables ==> Mirrors(tables[id], chunk[id], views[id]))
  }

  // The tables that are completely replayed.
  ghost function DecodedIds(chunk: Chunk, views: map<int, State>): set<int>
    requires views.Keys == chunk.Keys
  {
    set id | id in chunk && DecodedAll(chunk[id].table, views[id])
  }

  lemma MirrorsGives(table: TestTable, rec: RecordedTable, st: State)
    requires Mirrors(table, rec, st)
    ensures table.Valid() && table.View() == st && table.table == rec.table && table.record == rec.record
  {
  }

  lemma NowMirrors(table: TestTable, rec: RecordedTable)
    requires table.Valid() && table.table == rec.table && table.record == rec.record
    ensures Mirrors(table, rec, table.View())
  {
  }

  lemma IdsAreTables(tables: map<int, TestTable>, chunk: Chunk, views: map<int, State>)
    requires AllValid(tables, chunk, views)
    ensures views.Keys == tables.Keys == chunk.Keys && DecodedIds(chunk, views) <= tables.Keys
  {
  }

  lemma DecodedStep(chunk: Chunk, views: map<int, State>, id: int, view: State, finished: bool)
    requires views.Keys == chunk.Keys && id in chunk
    requires finished <==> !DecodedAll(chunk[id].table, views[id]) && DecodedAll(chunk[id].table, view)
    requires DecodedAll(chunk[id].table, views[id]) ==> DecodedAll(chunk[id].table, view)
    ensures views[id := view].Keys == chunk.Keys
    ensures DecodedIds(chunk, views[id := view]) == DecodedIds(chunk, views) + (if finished then {id} else {})
    ensures finished ==> id !in DecodedIds(chunk, views)
  {
    hide DecodedAll;
  }

  lemma AllAreDecoded(chunk: Chunk, views: map<int, State>)
    requires views.Keys == chunk.Keys
    ensures DecodedIds(chunk, views) == chunk.Keys <==> AllDecoded(chunk, views)
  {
    hide DecodedAll;
    if DecodedIds(chunk, views) == chunk.Keys {
      forall id | id in chunk ensures DecodedAll(chunk[id].table, views[id]) {
        assert id in DecodedIds(chunk, views);
      }
    } else if AllDecoded(chunk, views) {
      forall id | id in chunk.Keys ensures id in DecodedIds(chunk, views) {
      }
    }
  }

  lemma CountStep(before: set<int>, id: int, finished: bool, all: set<int>)
    requires id in all && before <= all && (finished ==> id !in before)
    ensures var after := before + (if finished then {id} else {});
      |after| == |before| + (if finished then 1 else 0) && (|after| >= |all| <==> after == all)
  {
    var after := before + (if finished then {id} else {});
    SubsetCount(after, all);
    if !finished {
      assert after == before;
    }
  }

  lemma SubsetCount(some: set<int>, all: set<int>)
    requires some <= all
    ensures |some| >= |all| <==> some == all
  {
    assert all == some + (all - some) && |all| == |some| + |all - some|;
  }

  // Whatever bound is computed from the senders' bounds, the call is one decode ordering allows.
  ghost predicate CanAsk(t: Table, r: Record, st: State, arrivals: seq<Arrival>, next: map<int, int>) {
    TableShape(t) && forall min :: Bounds(t, next, min) ==> Allowed(t, r, st, arrivals, min)
  }

  // One table's answer to a call: what decode ordering promises, for a bound drawn from its senders.
  ghost predicate Answers(rec: RecordedTable, st: State, arrivals: seq<Arrival>, next: map<int, int>, call: Call,
                          st': State, finished: bool) {
    && Inv(rec.table, rec.record, st)
    && CallSpec(rec.table, rec.record, st, call, st')
    && Bounds(rec.table, next, call.min) && call.arrivals == arrivals
    && (finished <==> !DecodedAll(rec.table, st) && DecodedAll(rec.table, st'))
    && (DecodedAll(rec.table, st) ==> DecodedAll(rec.table, st'))
  }

  // The look-ahead bound and one decode-ordering call.
  method AskTable(table: TestTable, arrivals: seq<Arrival>, next: map<int, int>, local: int)
    returns (rest: seq<Arrival>, out: seq<Event>, finished: bool, error: bool, ghost call: Call)
    requires table.Valid() && CanAsk(table.table, table.record, table.View(), arrivals, next)
    modifies table
    ensures error <==> !SendersKnown(table.table, next)
    ensures table.Valid() && (error ==> table.View() == old(table.View()))
    ensures !error ==>
      && Answers(RecordedTable(table.table, table.record), old(table.View()), arrivals, next, call, table.View(),
        finished)
      && call.rest == rest && call.out == out
  {
    hide Inv, CallSpec, Allowed, IsLookAhead, DecodedAll, Decoded, SendersKnown;
    ghost var st := table.View();
    var min;
    min, error := ComputeLookAheadRecvClock(table.table, next);
    rest, out, finished, call := arrivals, [], false, Call(arrivals, min, local, arrivals, [], false, None);
    if error {
      return;
    }
    assert Bounds(table.table, next, min);
    var interim;
    rest, out, finished, interim := table.CdcDecodeOrdering(arrivals, min, local);
    call := Call(arrivals, min, local, rest, out, finished, interim);
    CallFinishes(table.table, table.record, st, call, table.View());
  }

  // The senders of the chunk's tables.
  method CollectSenders(tables: map<int, TestTable>, ids: seq<int>, ghost chunk: Chunk) returns (senders: set<int>)
    requires SetOf(ids) == tables.Keys == chunk.Keys
    requires forall id :: id in tables ==> tables[id].table == chunk[id].table
    ensures senders == Senders(chunk)
  {
    senders := {};
    for i := 0 to |ids|
      invariant senders == SendersOf(chunk, SetOf(ids[..i]))
    {
      assert ids[i] in SetOf(ids);
      SendersAdd(chunk, SetOf(ids[..i]), ids[i]);
      assert ids[..i + 1] == ids[..i] + [ids[i]];
      assert SetOf(ids[..i + 1]) == SetOf(ids[..i]) + {ids[i]};
      senders := senders + set rank | rank in tables[ids[i]].table.epochRanks;
    }
    assert ids[..|ids|] == ids;
  }

  // The last part of decode: the bounds of a chunk's matching sets.
  method BoundsFor(bounds: SetBounds, tables: map<int, TestTable>, ghost chunk: Chunk)
    returns (after: SetBounds, error: bool)
    requires tables.Keys == chunk.Keys && forall id :: id in tables ==> tables[id].table == chunk[id].table
    ensures error <==> CannotLoad(bounds, chunk.Keys, Senders(chunk))
    ensures !error ==> after == Loaded(bounds, chunk.Keys, Senders(chunk)) && chunk.Keys <= after.Keys
    ensures !error ==> StartsAtZero(bounds, chunk.Keys, Senders(chunk), after)
  {
    hide CannotLoad, Loaded, Increasing, Senders, SetOf, StartsAtZero;
    var ids := SortedKeys(tables.Keys);
    var senders := CollectSenders(tables, ids, chunk);
    after, error := LoadBounds(bounds, ids, senders);
    LoadedSets(bounds, chunk.Keys, senders);
  }

  class EpochDecoder {
    ghost const chunks: seq<Chunk>
    ghost var chunk: nat
    var tables: map<int, TestTable>
    ghost var views: map<int, State>
    // Messages of each matching set that no table has admitted yet.
    var waiting: map<int, seq<Arrival>>
    var bounds: SetBounds
    var finishedCount: nat

    ghost function View(): Decoder
      reads this`chunk, this`views, this`waiting, this`bounds
    {
      Decoder(chunk, views, waiting, bounds)
    }

    // The tables are those of the current chunk, and their matching sets have bounds.
    ghost predicate Holds()
      reads this`chunk, this`tables, this`views, this`bounds, tables.Values
    {
      && chunk < |chunks| && AllValid(tables, chunks[chunk], views) && tables.Keys <= bounds.Keys
    }

    // The counter is the number of decoded tables, and the epoch is not over.
    ghost predicate Valid()
      reads this, tables.Values
    {
      && Holds()
      && finishedCount == |DecodedIds(chunks[chunk], views)| && DecodedIds(chunks[chunk], views) != tables.Keys
    }

    constructor (ghost recording: seq<Chunk>)
      ensures chunks == recording && tables == map[] && waiting == map[] && bounds == map[] && finishedCount == 0
    {
      chunks, chunk, tables, views := recording, 0, map[], map[];
      waiting, bounds, finishedCount := map[], map[], 0;
    }

    // A chunk is read: every table has its events still to replay, new matching sets get bounds, and
    // messages that were left over stay. The error is the abort of decode.
    method LoadChunk(ghost k: nat, loaded: map<int, TestTable>) returns (error: bool)
      requires ValidRecording(chunks) && k < |chunks| && finishedCount == 0
      requires AllValid(loaded, chunks[k], Starts(chunks[k]))
      modifies this
      ensures error <==> CannotLoad(old(bounds), chunks[k].Keys, Senders(chunks[k]))
      ensures !error ==> Valid() && tables == loaded
      ensures !error ==>
        View() == Decoder(k, Starts(chunks[k]), old(waiting), Loaded(old(bounds), chunks[k].Keys, Senders(chunks[k])))
      ensures !error ==> StartsAtZero(old(bounds), chunks[k].Keys, Senders(chunks[k]), bounds)
    {
      hide ValidRecording, CannotLoad, Loaded, AllValid, Senders, DecodedIds, Starts, StartsAtZero;
      LoadableGives(loaded, chunks[k], Starts(chunks[k]));
      var after;
      after, error := BoundsFor(bounds, loaded, chunks[k]);
      if error {
        return;
      }
      NothingDecoded(chunks, k);
      chunk, tables, views, bounds := k, loaded, Starts(chunks[k]), after;
    }

    method AskOne(testId: int, arrivals: seq<Arrival>, local: int)
      returns (out: seq<Event>, finished: bool, error: bool, ghost call: Call)
      requires Holds() && testId in tables
      requires CanAsk(tables[testId].table, tables[testId].record, tables[testId].View(), arrivals, bounds[testId])
      modifies this`views, this`waiting, tables[testId]
      ensures Holds() && (error <==> !SendersKnown(tables[testId].table, bounds[testId]))
      ensures error ==> View() == old(View())
      ensures !error ==>
        && views == old(views)[testId := tables[testId].View()] && waiting == old(waiting)[testId := call.rest]
        && Answers(chunks[chunk][testId], old(views)[testId], arrivals, bounds[testId], call, views[testId], finished)
        && call.out == out
    {
      hide Inv, Answers, CanAsk, SendersKnown, Mirrors;
      MirrorsGives(tables[testId], chunks[chunk][testId], views[testId]);
      var rest;
      rest, out, finished, error, call := AskTable(tables[testId], arrivals, bounds[testId], local);
      NowMirrors(tables[testId], chunks[chunk][testId]);
      if error {
        return;
      }
      waiting := waiting[testId := rest];
      views := views[testId := tables[testId].View()];
    }

    lemma HoldsGives()
      requires Holds()
      ensures chunk < |chunks| && tables.Keys <= bounds.Keys
      ensures views.Keys == tables.Keys == chunks[chunk].Keys && DecodedIds(chunks[chunk], views) <= tables.Keys
    {
      hide DecodedIds;
      IdsAreTables(tables, chunks[chunk], views);
    }

    // The count after a call: it starts again when every table is decoded.
    ghost predicate CountHolds(epochFinished: bool)
      reads this`chunk, this`tables, this`views, this`finishedCount
    {
      && chunk < |chunks| && views.Keys == chunks[chunk].Keys
      && (epochFinished <==> DecodedIds(chunks[chunk], views) == tables.Keys)
      && finishedCount == if epochFinished then 0 else |DecodedIds(chunks[chunk], views)|
    }

    // One more decoded table may end the epoch.
    method CountDecoded(finished: bool) returns (epochFinished: bool)
      requires Holds() && finishedCount + (if finished then 1 else 0) == |DecodedIds(chunks[chunk], views)|
      requires !finished ==> DecodedIds(chunks[chunk], views) != tables.Keys
      modifies this`finishedCount
      ensures Holds() && CountHolds(epochFinished)
    {
      hide AllValid, DecodedIds, Holds;
      HoldsGives();
      SubsetCount(DecodedIds(chunks[chunk], views), tables.Keys);
      epochFinished := false;
      if finished {
        finishedCount := finishedCount + 1;
        if finishedCount >= |tables| {
          finishedCount := 0;
          epochFinished := true;
        }
      }
    }

    method InsertKnown(testId: int, received: seq<Arrival>, local: int)
      returns (out: seq<Event>, epochFinished: bool, error: bool, ghost call: Call)
      requires Valid() && testId in tables
      requires CanAsk(tables[testId].table, tables[testId].record, tables[testId].View(),
                      WithReceived(waiting, testId, received), bounds[testId])
      modifies this`views, this`waiting, this`finishedCount, tables[testId]
      ensures Holds() && (error <==> !SendersKnown(tables[testId].table, bounds[testId]))
      ensures error ==> View() == old(View()) && finishedCount == old(finishedCount)
      ensures !error ==> StepOf(chunks, old(View()), Ask(testId, received, call), View()) && call.out == out
      ensures !error ==> CountHolds(epochFinished)
    {
      hide AllValid, DecodedIds, CanAsk, WithReceived, Answers, SendersKnown, Holds, Mirrors, StepOf, CountHolds;
      HoldsGives();
      epochFinished := false;
      ghost var before, was := DecodedIds(chunks[chunk], views), View();
      var finished;
      out, finished, error, call := AskOne(testId, WithReceived(waiting, testId, received), local);
      if error {
        return;
      }
      AnswerIsStep(chunks, was, testId, received, call, View(), finished);
      CountStep(before, testId, finished, tables.Keys);
      epochFinished := CountDecoded(finished);
    }

    // insert_encoder_input_format_chunk_recv_test_id: the messages that came in are added to the
    // waiting ones and the table is asked for its next events. The error is the abort for an
    // unknown matching set or sender.
    method InsertChunk(testId: int, received: seq<Arrival>, local: int)
      returns (out: seq<Event>, epochFinished: bool, error: bool, ghost call: Call)
      requires Valid()
      requires testId in tables ==>
        CanAsk(tables[testId].table, tables[testId].record, tables[testId].View(),
               WithReceived(waiting, testId, received), bounds[testId])
      modifies this`views, this`waiting, this`finishedCount, if testId in tables then {tables[testId]} else {}
      ensures Holds() && (error <==> testId !in tables || !SendersKnown(tables[testId].table, bounds[testId]))
      ensures error ==> View() == old(View())
      ensures !error ==> StepOf(chunks, old(View()), Ask(testId, received, call), View()) && call.out == out
      // the epoch is over exactly when every table is decoded
      ensures !error ==> (epochFinished <==> AllDecoded(chunks[chunk], views))
      ensures !error && epochFinished ==> finishedCount == 0
      ensures !error && !epochFinished ==> Valid()
    {
      hide AllValid, CanAsk, WithReceived, AllDecoded, StepOf, SendersKnown, DecodedIds;
      if testId !in tables {
        call := Call(received, Id(0, 0), local, received, [], false, None);
        return [], false, true, call;
      }
      out, epochFinished, error, call := InsertKnown(testId, received, local);
      HoldsGives();
      AllAreDecoded(chunks[chunk], views);
    }
  }

  // The answer of one table is a step of the decoder, and it counts.
  lemma AnswerIsStep(chunks: seq<Chunk>, d: Decoder, id: int, received: seq<Arrival>, call: Call, d': Decoder,
                     finished: bool)
    requires d.chunk < |chunks| && d.states.Keys == chunks[d.chunk].Keys
    requires id in chunks[d.chunk] && id in d.bounds && id in d'.states
    requires Answers(chunks[d.chunk][id], d.states[id], WithReceived(d.waiting, id, received), d.bounds[id], call,
                     d'.states[id], finished)
    requires d' == d.(states := d.states[id := d'.states[id]], waiting := d.waiting[id := call.rest])
    ensures StepOf(chunks, d, Ask(id, received, call), d') && d'.states.Keys == chunks[d.chunk].Keys
    ensures DecodedIds(chunks[d.chunk], d'.states)
      == DecodedIds(chunks[d.chunk], d.states) + (if finished then {id} else {})
    ensures finished ==> id !in DecodedIds(chunks[d.chunk], d.states)
  {
    hide Inv, CallSpec, Bounds, DecodedAll, DecodedIds, WithReceived;
    DecodedStep(chunks[d.chunk], d.states, id, d'.states[id], finished);
  }

  lemma LoadableGives(loaded: map<int, TestTable>, chunk: Chunk, starts: map<int, State>)
    requires AllValid(loaded, chunk, starts)
    ensures loaded.Keys == chunk.Keys && forall id :: id in loaded ==> loaded[id].table == chunk[id].table
  {
  }

  lemma LoadedSets(bounds: SetBounds, ids: set<int>, senders: set<int>)
    ensures ids <= Loaded(bounds, ids, senders).Keys
  {
  }

  // A table that was just loaded is not decoded.
  lemma NothingDecoded(chunks: seq<Chunk>, k: nat)
    requires ValidRecording(chunks) && k < |chunks|
    ensures Starts(chunks[k]).Keys == chunks[k].Keys != {} && DecodedIds(chunks[k], Starts(chunks[k])) == {}
  {
    hide Inv, DecodedAll, InOrder, ValidRecord, Decoded;
    var c := chunks[k];
    assert c != map[];
    assert (forall id :: id !in c) ==> c.Keys == {};
    forall id | id in c ensures !DecodedAll(c[id].table, Starts(c)[id]) {
      StartsValid(c[id].table, c[id].record);
      NothingLeftMeansDecoded(c[id].table, c[id].record, Start(c[id].record));
      assert Stream(c[id].record) != [];
    }
  }
}
