// Replaying a record of several chunks: all tables of a chunk are replayed side by side, and the
// next chunk is loaded when every one of them is decoded. Over a whole run each matching set
// hands out what was recorded for it, chunk after chunk.
module ChunkRuns {
  import opened Basics
  import opened ReplayTables
  import opened ReplaySteps
  import opened DecodeOrdering
  import opened ReplayRuns
  import opened EpochReplay

  // ---------------------------------------------------------------- the bounds of a chunk's senders

  const MAX_MC_LENGTH := 1024

  // Bounds per matching set and sender.
  type SetBounds = map<int, map<int, int>>

  function ZeroBounds(senders: set<int>): map<int, int> {
    map rank | rank in senders :: 0
  }

  // The matching sets below `id` that get bounds for the first time.
  function NewBelow(bounds: SetBounds, ids: set<int>, id: int): set<int> {
    set j | j in ids && j !in bounds && j < id
  }

  // A set that has bounds already, where the number of sets known by then is not that of senders.
  predicate Clash(bounds: SetBounds, ids: set<int>, senders: set<int>, id: int) {
    id in ids && id in bounds && |bounds| + |NewBelow(bounds, ids, id)| != |senders|
  }

  // When decoding a chunk with these matching sets and senders aborts.
  ghost predicate CannotLoad(bounds: SetBounds, ids: set<int>, senders: set<int>) {
    || (bounds != map[] && |bounds| < |ids|)
    || (exists id :: Clash(bounds, ids, senders, id))
    || |senders| > MAX_MC_LENGTH
  }

  // Known sets keep their bounds, new ones start at zero for all senders of the chunk.
  function Loaded(bounds: SetBounds, ids: set<int>, senders: set<int>): SetBounds {
    map id | id in ids + bounds.Keys :: if id in bounds then bounds[id] else ZeroBounds(senders)
  }

  lemma LoadedMeans(bounds: SetBounds, ids: set<int>, senders: set<int>)
    ensures StartsAtZero(bounds, ids, senders, Loaded(bounds, ids, senders))
  {
  }

  // A set with bounds keeps them; a new one has the bound zero for every sender and no other bound.
  ghost predicate StartsAtZero(bounds: SetBounds, ids: set<int>, senders: set<int>, after: SetBounds) {
    && after.Keys == ids + bounds.Keys
    && (forall id :: id in bounds ==> id in after && after[id] == bounds[id])
    && (forall id :: id in ids && id !in bounds ==> id in after && after[id].Keys == senders)
    && (forall id, rank :: id in ids && id !in bounds && rank in senders ==>
          id in after && rank in after[id] && after[id][rank] == 0)
  }

  // The ids before position i are those below ids[i].
  lemma BeforeIsBelow(ids: seq<int>, i: nat, id: int)
    requires Increasing(ids) && i < |ids|
    ensures id in SetOf(ids[..i]) <==> id in SetOf(ids) && id < ids[i]
  {
    if id in ids && id < ids[i] {
      var k :| 0 <= k < |ids| && ids[k] == id;
      assert ids[..i][k] == id;
    }
  }

  // When the loop is at ids[i], the sets known by then.
  lemma KnownBefore(bounds: SetBounds, ids: seq<int>, senders: set<int>, i: nat)
    requires Increasing(ids) && i < |ids|
    ensures |Loaded(bounds, SetOf(ids[..i]), senders)| == |bounds| + |NewBelow(bounds, SetOf(ids), ids[i])|
  {
    hide Increasing, SetOf;
    var before := SetOf(ids[..i]);
    forall id ensures id in before <==> id in SetOf(ids) && id < ids[i] {
      BeforeIsBelow(ids, i, id);
    }
    LoadedCount(bounds, before, senders);
    assert NewBelow(bounds, SetOf(ids), ids[i]) == before - bounds.Keys;
  }

  lemma LoadedCount(bounds: SetBounds, ids: set<int>, senders: set<int>)
    ensures |Loaded(bounds, ids, senders)| == |bounds| + |ids - bounds.Keys|
  {
    var known := Loaded(bounds, ids, senders);
    assert known.Keys == bounds.Keys + (ids - bounds.Keys);
    assert |known| == |known.Keys| && |bounds| == |bounds.Keys|;
  }

  // The end of decode: bounds for the matching sets of the chunk, in ascending order of their ids.
  method LoadBounds(bounds: SetBounds, ids: seq<int>, senders: set<int>) returns (after: SetBounds, error: bool)
    requires Increasing(ids)
    ensures error <==> CannotLoad(bounds, SetOf(ids), senders)
    ensures !error ==> after == Loaded(bounds, SetOf(ids), senders)
    ensures !error ==> StartsAtZero(bounds, SetOf(ids), senders, after)
  {
    hide Loaded, NewBelow, Increasing, SetOf, StartsAtZero;
    IncreasingCount(ids);
    after := bounds;
    if |after| != 0 && |after| < |ids| {
      return after, true;
    }
    NothingLoaded(bounds, ids, senders);
    for i := 0 to |ids|
      invariant after == Loaded(bounds, SetOf(ids[..i]), senders)
      invariant forall k :: 0 <= k < i ==> !Clash(bounds, SetOf(ids), senders, ids[k])
    {
      KnownBefore(bounds, ids, senders, i);
      LoadOne(bounds, ids, senders, i);
      var known := map rank | rank in senders :: 0;
      if ids[i] in after {
        if |after| != |senders| {
          InSet(ids, i);
          assert Clash(bounds, SetOf(ids), senders, ids[i]);
          return after, true;
        }
      } else {
        after := after[ids[i] := known];
      }
    }
    assert ids[..|ids|] == ids;
    NoClash(bounds, ids, senders);
    LoadedMeans(bounds, SetOf(ids), senders);
    error := |senders| > MAX_MC_LENGTH;
  }

  lemma NoClash(bounds: SetBounds, ids: seq<int>, senders: set<int>)
    requires forall k :: 0 <= k < |ids| ==> !Clash(bounds, SetOf(ids), senders, ids[k])
    ensures forall id :: !Clash(bounds, SetOf(ids), senders, id)
  {
    hide NewBelow;
    forall id | id in SetOf(ids) ensures !Clash(bounds, SetOf(ids), senders, id) {
      var k :| 0 <= k < |ids| && ids[k] == id;
    }
  }

  lemma InSet(ids: seq<int>, i: nat)
    requires i < |ids|
    ensures ids[i] in SetOf(ids)
  {
  }

  lemma NothingLoaded(bounds: SetBounds, ids: seq<int>, senders: set<int>)
    ensures Loaded(bounds, SetOf(ids[..0]), senders) == bounds
  {
  }

  lemma LoadOne(bounds: SetBounds, ids: seq<int>, senders: set<int>, i: nat)
    requires Increasing(ids) && i < |ids|
    ensures var before, after := Loaded(bounds, SetOf(ids[..i]), senders), Loaded(bounds, SetOf(ids[..i + 1]), senders);
      && (ids[i] in before <==> ids[i] in bounds)
      && after == if ids[i] in bounds then before else before[ids[i] := ZeroBounds(senders)]
  {
    hide Increasing;
    BeforeIsBelow(ids, i, ids[i]);
    assert ids[..i + 1] == ids[..i] + [ids[i]];
    assert SetOf(ids[..i + 1]) == SetOf(ids[..i]) + {ids[i]};
    AddOne(bounds, SetOf(ids[..i]), senders, ids[i]);
  }

  lemma AddOne(bounds: SetBounds, ids: set<int>, senders: set<int>, id: int)
    requires id !in ids
    ensures var before, after := Loaded(bounds, ids, senders), Loaded(bounds, ids + {id}, senders);
      && (id in before <==> id in bounds)
      && after == if id in bounds then before else before[id := ZeroBounds(senders)]
  {
  }

  // A chunk with no new matching set loads exactly when as many sets are known as it has senders.
  lemma ReloadNeedsEqualCounts(bounds: SetBounds, ids: set<int>, senders: set<int>)
    requires ids <= bounds.Keys && ids != {}
    ensures CannotLoad(bounds, ids, senders) <==> |bounds| != |senders| || |senders| > MAX_MC_LENGTH
  {
    assert |bounds| == |bounds.Keys| && bounds.Keys == ids + (bounds.Keys - ids);
    forall id | id in ids ensures NewBelow(bounds, ids, id) == {} {
    }
    assert (forall id :: id !in ids) ==> ids == {};
    var some :| some in ids;
    assert |bounds| != |senders| ==> Clash(bounds, ids, senders, some);
  }

  // One matching set that receives from two senders: its second chunk cannot be decoded.
  lemma SecondChunkFails()
    ensures !CannotLoad(map[], {0}, {1, 2})
    ensures CannotLoad(Loaded(map[], {0}, {1, 2}), {0}, {1, 2})
  {
    var bounds := Loaded(map[], {0}, {1, 2});
    assert bounds.Keys == {0} && |bounds| == |bounds.Keys|;
    ReloadNeedsEqualCounts(bounds, {0}, {1, 2});
  }

  // A sender that is new in the chunk has no bound in a set that is known already.
  lemma NewSenderIsUnknown(bounds: SetBounds, ids: set<int>, senders: set<int>, id: int, t: Table)
    requires id in ids && (forall i :: 0 <= i < |t.epochRanks| ==> t.epochRanks[i] in senders)
    ensures SendersKnown(t, Loaded(bounds, ids, senders)[id]) <==> id !in bounds || SendersKnown(t, bounds[id])
  {
  }

  // The bounds a new set starts with hold of every recorded message, whatever has arrived.
  lemma FreshBoundsHold(bounds: SetBounds, ids: set<int>, senders: set<int>, id: int, t: Table, r: Record,
                        line: map<int, int>)
    requires id in ids && id !in bounds && (forall i :: 0 <= i < |t.epochRanks| ==> t.epochRanks[i] in senders)
    requires ValidRecord(r) && Decoded(t, r)
    ensures id in Loaded(bounds, ids, senders) && BoundsHold(r, line, Loaded(bounds, ids, senders)[id])
  {
    hide DecodedEvents, Pending;
    LoadedMeans(bounds, ids, senders);
  }

  // ---------------------------------------------------------------- chunks

  datatype RecordedTable = RecordedTable(table: Table, record: Record)

  type Chunk = map<int, RecordedTable>

  ghost predicate ValidChunk(chunk: Chunk) {
    forall id :: id in chunk ==> ValidRecord(chunk[id].record) && Decoded(chunk[id].table, chunk[id].record)
  }

  // What a chunk holds for a matching set; nothing if the set does not occur.
  function RecordOf(chunk: Chunk, id: int): Record {
    if id in chunk then chunk[id].record else Record([], map[], [], [])
  }

  function RecordsFrom(chunks: seq<Chunk>, k: nat, id: int): (r: seq<Record>)
    requires k <= |chunks|
    ensures |r| == |chunks| - k
    ensures forall i :: 0 <= i < |r| ==> r[i] == RecordOf(chunks[k + i], id)
    decreases |chunks| - k
  {
    if k == |chunks| then [] else [RecordOf(chunks[k], id)] + RecordsFrom(chunks, k + 1, id)
  }

  // Everything recorded for a matching set from chunk k on.
  function StreamsFrom(chunks: seq<Chunk>, k: nat, id: int): seq<Event>
    decreases |chunks| - k
  {
    if k >= |chunks| then [] else Stream(RecordOf(chunks[k], id)) + StreamsFrom(chunks, k + 1, id)
  }

  // A recording: in every chunk every table has something to replay, and each sender's clocks go on
  // increasing from chunk to chunk.
  ghost predicate ValidRecording(chunks: seq<Chunk>) {
    && chunks != []
    && (forall k :: 0 <= k < |chunks| ==> chunks[k] != map[] && ValidChunk(chunks[k]))
    && (forall k, id :: 0 <= k < |chunks| && id in chunks[k] ==> Stream(chunks[k][id].record) != [])
    && (forall id :: InOrder(RecordsFrom(chunks, 0, id)))
  }

  // The senders of some of a chunk's tables, and of all.
  function SendersOf(chunk: Chunk, ids: set<int>): set<int> {
    set id, rank | id in ids && id in chunk && rank in chunk[id].table.epochRanks :: rank
  }

  function Senders(chunk: Chunk): set<int> {
    SendersOf(chunk, chunk.Keys)
  }

  lemma SendersAdd(chunk: Chunk, ids: set<int>, id: int)
    requires id in chunk
    ensures SendersOf(chunk, ids + {id}) == SendersOf(chunk, ids) + set rank | rank in chunk[id].table.epochRanks
  {
    var one := set rank | rank in chunk[id].table.epochRanks;
    forall rank | rank in SendersOf(chunk, ids + {id}) ensures rank in SendersOf(chunk, ids) + one {
      var j :| j in ids + {id} && j in chunk && rank in chunk[j].table.epochRanks;
      assert j in ids || rank in one;
    }
    forall rank | rank in SendersOf(chunk, ids) + one ensures rank in SendersOf(chunk, ids + {id}) {
      if rank in one {
        assert id in ids + {id};
      }
    }
  }

  // ---------------------------------------------------------------- the decoder

  datatype Decoder = Decoder(chunk: nat, states: map<int, State>, waiting: map<int, seq<Arrival>>, bounds: SetBounds)

  datatype Turn =
    | Ask(id: int, received: seq<Arrival>, call: Call)
    | Load
    | Learn(bounds: SetBounds)

  function Starts(chunk: Chunk): map<int, State> {
    map id | id in chunk :: Start(chunk[id].record)
  }

  function Begin(chunks: seq<Chunk>): Decoder
    requires chunks != []
  {
    Decoder(0, Starts(chunks[0]), map[], Loaded(map[], chunks[0].Keys, Senders(chunks[0])))
  }

  ghost predicate AllDecoded(chunk: Chunk, states: map<int, State>) {
    forall id :: id in chunk ==> id in states && DecodedAll(chunk[id].table, states[id])
  }

  // A matching set asks for its next events, with the messages that came in for it since.
  ghost predicate AskStep(chunk: Chunk, d: Decoder, id: int, received: seq<Arrival>, call: Call, d': Decoder) {
    && id in chunk && id in d.states && id in d.bounds && id in d'.states
    && call.arrivals == WithReceived(d.waiting, id, received)
    && Bounds(chunk[id].table, d.bounds[id], call.min)
    && d' == d.(states := d.states[id := d'.states[id]], waiting := d.waiting[id := call.rest])
    && (AskAllowed(chunk[id], d.states[id], call) ==>
          CallSpec(chunk[id].table, chunk[id].record, d.states[id], call, d'.states[id]))
  }

  // What one call of decode ordering demands.
  ghost predicate AskAllowed(rec: RecordedTable, st: State, call: Call) {
    && Inv(rec.table, rec.record, st)
    && Allowed(rec.table, rec.record, st, call.arrivals, call.min)
  }

  // The next chunk is loaded when all tables are decoded; messages that wait are kept.
  ghost predicate LoadStep(chunks: seq<Chunk>, d: Decoder, d': Decoder) {
    && d.chunk + 1 < |chunks| && AllDecoded(chunks[d.chunk], d.states)
    && var next := chunks[d.chunk + 1];
    && !CannotLoad(d.bounds, next.Keys, Senders(next))
    && d' == Decoder(d.chunk + 1, Starts(next), d.waiting, Loaded(d.bounds, next.Keys, Senders(next)))
  }

  // Bounds are updated, for the same sets and senders.
  predicate SameSenders(bounds: SetBounds, after: SetBounds) {
    after.Keys == bounds.Keys && forall id :: id in bounds ==> after[id].Keys == bounds[id].Keys
  }

  ghost predicate StepOf(chunks: seq<Chunk>, d: Decoder, turn: Turn, d': Decoder) {
    && d.chunk < |chunks|
    && match turn
       case Ask(id, received, call) => AskStep(chunks[d.chunk], d, id, received, call, d')
       case Load => LoadStep(chunks, d, d')
       case Learn(bounds) => SameSenders(d.bounds, bounds) && d' == d.(bounds := bounds)
  }

  ghost predicate IsReplay(chunks: seq<Chunk>, ds: seq<Decoder>, turns: seq<Turn>) {
    && ValidRecording(chunks) && |ds| == |turns| + 1 && ds[0] == Begin(chunks)
    && forall i :: 0 <= i < |turns| ==> StepOf(chunks, ds[i], turns[i], ds[i + 1])
  }

  // What a matching set was handed out, and what came in for it.
  function HandedOut(turns: seq<Turn>, id: int): seq<Event> {
    if turns == [] then []
    else HandedOut(turns[..|turns| - 1], id) + HandedOutBy(turns[|turns| - 1], id)
  }

  function HandedOutBy(turn: Turn, id: int): seq<Event> {
    if turn.Ask? && turn.id == id then turn.call.out else []
  }

  function Received(turns: seq<Turn>, id: int): seq<Arrival> {
    if turns == [] then [] else ReceivedBy(turns[0], id) + Received(turns[1..], id)
  }

  function ReceivedBy(turn: Turn, id: int): seq<Arrival> {
    if turn.Ask? && turn.id == id then turn.received else []
  }

  // ---------------------------------------------------------------- what a decoder keeps

  ghost predicate DecoderInv(chunks: seq<Chunk>, d: Decoder) {
    && d.chunk < |chunks| && d.states.Keys == chunks[d.chunk].Keys
    && forall id :: id in d.states ==> Inv(chunks[d.chunk][id].table, chunks[d.chunk][id].record, d.states[id])
  }

  // What is left of the recording for a matching set.
  function Left(chunks: seq<Chunk>, d: Decoder, id: int): seq<Event>
    requires d.chunk < |chunks|
  {
    (if id in d.states then Remaining(RecordOf(chunks[d.chunk], id), d.states[id]) else [])
    + StreamsFrom(chunks, d.chunk + 1, id)
  }

  function Lines(d: Decoder, id: int, n: nat): (r: seq<map<int, int>>)
    ensures |r| == n
  {
    seq(n, i => if i == 0 && id in d.states then d.states[id].line else map[])
  }

  // The messages of a matching set still to be handed to its tables are in order.
  ghost predicate InOrderFor(chunks: seq<Chunk>, d: Decoder, id: int, list: seq<Arrival>)
    requires d.chunk < |chunks|
  {
    LegalOver(RecordsFrom(chunks, d.chunk, id), Lines(d, id, |chunks| - d.chunk), list)
  }

  function AtHand(d: Decoder, id: int): seq<Arrival> {
    if id in d.waiting then d.waiting[id] else []
  }

  // The bounds hold of everything still to come when a set asks.
  ghost predicate BoundsAllow(chunks: seq<Chunk>, d: Decoder, turn: Turn) {
    d.chunk < |chunks| && turn.Ask? && turn.id in chunks[d.chunk] && turn.id in d.states ==>
      var rec := chunks[d.chunk][turn.id];
      TableShape(rec.table) ==>
        Frontier(rec.record, LineAfter(rec.table, d.states[turn.id].line, turn.call.arrivals), turn.call.min)
  }

  // What a call leaves, and how far its line got.
  lemma CallLeaves(t: Table, r: Record, st: State, c: Call, st': State)
    requires Inv(t, r, st) && CallSpec(t, r, st, c, st')
    ensures TableShape(t)
    ensures Inv(t, r, st')
    ensures (c.rest == c.arrivals && st'.line == st.line)
      || (c.rest == Outside(t, c.arrivals) && st'.line == LineAfter(t, st.line, c.arrivals))
  {
    hide ValidRecord, SolidOk, UnmatchedOk, SortedArrivals, Unsolid, LineOk;
  }

  // The messages of a set are in order for its current table, so the call is allowed.
  lemma AskIsAllowed(chunks: seq<Chunk>, d: Decoder, id: int, received: seq<Arrival>, call: Call, later: seq<Arrival>)
    requires ValidRecording(chunks) && DecoderInv(chunks, d) && id in d.states
    requires call.arrivals == WithReceived(d.waiting, id, received)
    requires InOrderFor(chunks, d, id, call.arrivals + later) && BoundsAllow(chunks, d, Ask(id, received, call))
    ensures AskAllowed(chunks[d.chunk][id], d.states[id], call)
    ensures var t := chunks[d.chunk][id].table;
      var lines := Lines(d, id, |chunks| - d.chunk);
      LegalOver(RecordsFrom(chunks, d.chunk, id), lines[0 := LineAfter(t, lines[0], call.arrivals)],
                Outside(t, call.arrivals) + later)
  {
    hide Inv, LegalOver, Legal, Frontier, Decoded, ValidRecord, InOrder, LineAfter, Outside;
    var rec := chunks[d.chunk][id];
    var records := RecordsFrom(chunks, d.chunk, id);
    RecordsInOrder(chunks, d.chunk, id);
    InvGives(rec.table, rec.record, d.states[id]);
    EpochsSplit(rec.table, records, Lines(d, id, |chunks| - d.chunk), call.arrivals, later);
  }

  lemma RecordsInOrder(chunks: seq<Chunk>, k: nat, id: int)
    requires ValidRecording(chunks) && k < |chunks|
    ensures InOrder(RecordsFrom(chunks, k, id))
    ensures forall i :: 0 <= i < |chunks| - k ==> ValidRecord(RecordsFrom(chunks, k, id)[i])
  {
    hide Follows, ValidRecord, Decoded;
    var all, some := RecordsFrom(chunks, 0, id), RecordsFrom(chunks, k, id);
    assert InOrder(all);
    forall i, j | 0 <= i < j < |some| ensures Follows(some[i], some[j]) {
      assert some[i] == all[k + i] && some[j] == all[k + j];
    }
    NothingIsValid();
    forall i | 0 <= i < |some| ensures ValidRecord(some[i]) {
      assert some[i] == RecordOf(chunks[k + i], id);
    }
  }

  lemma NothingIsValid()
    ensures ValidRecord(Record([], map[], [], []))
  {
  }

  // A set that asks hands out the front of what is left.
  lemma AskConserves(chunks: seq<Chunk>, d: Decoder, id: int, received: seq<Arrival>, call: Call, d': Decoder)
    requires DecoderInv(chunks, d) && AskStep(chunks[d.chunk], d, id, received, call, d')
    requires AskAllowed(chunks[d.chunk][id], d.states[id], call)
    ensures Left(chunks, d, id) == call.out + Left(chunks, d', id)
  {
    hide Inv, CallSpec, Bounds, Remaining, Allowed, StreamsFrom;
    var rec := chunks[d.chunk][id];
    CallConserves(rec.table, rec.record, d.states[id], call, d'.states[id]);
    assert call.out + Remaining(rec.record, d'.states[id]) + StreamsFrom(chunks, d.chunk + 1, id)
      == call.out + (Remaining(rec.record, d'.states[id]) + StreamsFrom(chunks, d.chunk + 1, id));
  }

  // It keeps its messages in order, and hands out the front of what is left.
  lemma AskKeeps(chunks: seq<Chunk>, d: Decoder, id: int, received: seq<Arrival>, call: Call, d': Decoder,
                 later: seq<Arrival>)
    requires ValidRecording(chunks) && DecoderInv(chunks, d) && AskStep(chunks[d.chunk], d, id, received, call, d')
    requires InOrderFor(chunks, d, id, AtHand(d, id) + (received + later))
    requires BoundsAllow(chunks, d, Ask(id, received, call))
    ensures DecoderInv(chunks, d') && InOrderFor(chunks, d', id, AtHand(d', id) + later)
    ensures Left(chunks, d, id) == call.out + Left(chunks, d', id)
    ensures AskAllowed(chunks[d.chunk][id], d.states[id], call)
  {
    hide Inv, LegalOver, Legal, Frontier, CallSpec, Bounds, Left, AskAllowed, ValidRecording;
    var rec := chunks[d.chunk][id];
    assert AtHand(d, id) + (received + later) == call.arrivals + later;
    AskIsAllowed(chunks, d, id, received, call, later);
    AllowedGivesInv(rec, d.states[id], call);
    CallLeaves(rec.table, rec.record, d.states[id], call, d'.states[id]);
    AskConserves(chunks, d, id, received, call, d');
    var n := |chunks| - d.chunk;
    assert AtHand(d', id) == call.rest;
    assert Lines(d', id, n) == Lines(d, id, n)[0 := d'.states[id].line];
    assert Lines(d, id, n)[0 := d.states[id].line] == Lines(d, id, n);
  }

  lemma AllowedGivesInv(rec: RecordedTable, st: State, call: Call)
    requires AskAllowed(rec, st, call)
    ensures Inv(rec.table, rec.record, st)
  {
  }

  lemma AskKeepsOthers(chunks: seq<Chunk>, d: Decoder, id: int, received: seq<Arrival>, call: Call, d': Decoder,
                       other: int, list: seq<Arrival>)
    requires d.chunk < |chunks| && AskStep(chunks[d.chunk], d, id, received, call, d') && other != id
    ensures InOrderFor(chunks, d, other, list) ==> InOrderFor(chunks, d', other, list)
    ensures AtHand(d', other) == AtHand(d, other) && Left(chunks, d', other) == Left(chunks, d, other)
  {
    hide LegalOver, CallSpec, AskAllowed, Bounds;
    assert Lines(d', other, |chunks| - d.chunk) == Lines(d, other, |chunks| - d.chunk);
  }

  // A decoded table has received all its messages.
  lemma DecodedHasAll(t: Table, r: Record, st: State, id: Id)
    requires Inv(t, r, st) && DecodedAll(t, st)
    ensures !NextOfSource(r, st.line, id)
  {
    hide Decoded, UnmatchedOk, SortedArrivals, Unsolid, Boundary;
    InvGives(t, r, st);
    if SortedFrom(r, 0, id) {
      var o :| 0 <= o < |r.sorted| && r.sorted[o] == id;
      assert o < SolidEnd(st);
    }
  }

  lemma LoadKeeps(chunks: seq<Chunk>, d: Decoder, d': Decoder, id: int, list: seq<Arrival>)
    requires ValidRecording(chunks) && DecoderInv(chunks, d) && LoadStep(chunks, d, d')
    requires InOrderFor(chunks, d, id, list)
    ensures InOrderFor(chunks, d', id, list) && AtHand(d', id) == AtHand(d, id)
    ensures Left(chunks, d', id) == Left(chunks, d, id)
  {
    hide Inv, LegalOver, NextOfSource, ValidRecording, DecodedAll, CannotLoad, Left, AllDecoded;
    var n := |chunks| - d.chunk;
    forall e | e in list ensures !NextOfSource(RecordsFrom(chunks, d.chunk, id)[0], Lines(d, id, n)[0], e.id) {
      CurrentHasAll(chunks, d, id, e.id);
    }
    FirstIsDone(RecordsFrom(chunks, d.chunk, id), Lines(d, id, n), list);
    assert RecordsFrom(chunks, d.chunk, id)[1..] == RecordsFrom(chunks, d.chunk + 1, id);
    assert Lines(d, id, n)[1..] == Lines(d', id, n - 1);
    LoadConserves(chunks, d, d', id);
  }

  lemma CurrentHasAll(chunks: seq<Chunk>, d: Decoder, id: int, msg: Id)
    requires DecoderInv(chunks, d) && AllDecoded(chunks[d.chunk], d.states)
    ensures !NextOfSource(RecordOf(chunks[d.chunk], id), if id in d.states then d.states[id].line else map[], msg)
  {
    hide Inv, DecodedAll;
    if id in d.states {
      DecodedHasAll(chunks[d.chunk][id].table, chunks[d.chunk][id].record, d.states[id], msg);
    }
  }

  lemma LoadConserves(chunks: seq<Chunk>, d: Decoder, d': Decoder, id: int)
    requires DecoderInv(chunks, d) && LoadStep(chunks, d, d')
    ensures Left(chunks, d', id) == Left(chunks, d, id)
  {
    hide Inv, DecodedAll, CannotLoad;
    if id in d.states {
      NothingLeftMeansDecoded(chunks[d.chunk][id].table, chunks[d.chunk][id].record, d.states[id]);
    }
    assert StreamsFrom(chunks, d.chunk + 1, id) ==
      Stream(RecordOf(chunks[d.chunk + 1], id)) + StreamsFrom(chunks, d.chunk + 2, id);
    assert [] + StreamsFrom(chunks, d.chunk + 1, id) == StreamsFrom(chunks, d.chunk + 1, id);
    assert [] + StreamsFrom(chunks, d.chunk + 2, id) == StreamsFrom(chunks, d.chunk + 2, id);
  }

  lemma StartsHold(chunks: seq<Chunk>, d: Decoder)
    requires d.chunk < |chunks| && ValidChunk(chunks[d.chunk]) && d.states == Starts(chunks[d.chunk])
    ensures DecoderInv(chunks, d)
  {
    hide Inv, ValidRecord, Decoded;
    forall id | id in d.states
      ensures Inv(chunks[d.chunk][id].table, chunks[d.chunk][id].record, d.states[id])
    {
      StartsValid(chunks[d.chunk][id].table, chunks[d.chunk][id].record);
    }
  }

  // ---------------------------------------------------------------- whole replays

  // The messages each set receives are in order over all chunks, per sender.
  ghost predicate ReceivedInOrder(chunks: seq<Chunk>, turns: seq<Turn>) {
    forall id :: LegalOver(RecordsFrom(chunks, 0, id), seq(|chunks|, _ => map[]), Received(turns, id))
  }

  ghost predicate BoundsAlwaysAllow(chunks: seq<Chunk>, ds: seq<Decoder>, turns: seq<Turn>)
    requires |ds| == |turns| + 1
  {
    forall i :: 0 <= i < |turns| ==> BoundsAllow(chunks, ds[i], turns[i])
  }

  // Where a replay is after i turns.
  ghost predicate OnTrack(chunks: seq<Chunk>, d: Decoder, done: seq<Turn>, rest: seq<Turn>) {
    && d.chunk < |chunks| && DecoderInv(chunks, d)
    && forall id ::
         && InOrderFor(chunks, d, id, AtHand(d, id) + Received(rest, id))
         && HandedOut(done, id) + Left(chunks, d, id) == StreamsFrom(chunks, 0, id)
  }

  lemma BeginOnTrack(chunks: seq<Chunk>, turns: seq<Turn>)
    requires ValidRecording(chunks) && ReceivedInOrder(chunks, turns)
    ensures OnTrack(chunks, Begin(chunks), [], turns)
  {
    hide Inv, LegalOver, ValidRecord, Decoded;
    var d := Begin(chunks);
    StartsHold(chunks, d);
    forall id
      ensures InOrderFor(chunks, d, id, AtHand(d, id) + Received(turns, id))
      ensures HandedOut([], id) + Left(chunks, d, id) == StreamsFrom(chunks, 0, id)
    {
      assert Lines(d, id, |chunks|) == seq(|chunks|, _ => map[]);
      assert AtHand(d, id) + Received(turns, id) == Received(turns, id);
      assert HandedOut([], id) + Left(chunks, d, id) == Left(chunks, d, id);
      assert [] + StreamsFrom(chunks, 1, id) == StreamsFrom(chunks, 1, id);
    }
  }

  lemma ReceivedNext(turn: Turn, rest: seq<Turn>, id: int)
    ensures Received([turn] + rest, id) == ReceivedBy(turn, id) + Received(rest, id)
  {
    assert ([turn] + rest)[1..] == rest;
  }

  lemma HandedOutNext(done: seq<Turn>, turn: Turn, id: int)
    ensures HandedOut(done + [turn], id) == HandedOut(done, id) + HandedOutBy(turn, id)
  {
    assert (done + [turn])[..|done|] == done;
  }

  // One turn, for one matching set.
  lemma TurnKeeps(chunks: seq<Chunk>, d: Decoder, turn: Turn, d': Decoder, done: seq<Turn>, rest: seq<Turn>, id: int)
    requires ValidRecording(chunks) && OnTrack(chunks, d, done, [turn] + rest)
    requires StepOf(chunks, d, turn, d') && BoundsAllow(chunks, d, turn)
    ensures d'.chunk < |chunks| && DecoderInv(chunks, d')
    ensures InOrderFor(chunks, d', id, AtHand(d', id) + Received(rest, id))
    ensures HandedOut(done + [turn], id) + Left(chunks, d', id) == StreamsFrom(chunks, 0, id)
  {
    hide ValidRecording, Inv, InOrderFor, AskStep, LoadStep, BoundsAllow, Received, HandedOut, Left, StreamsFrom,
         AtHand;
    ReceivedNext(turn, rest, id);
    HandedOutNext(done, turn, id);
    var list := AtHand(d, id) + Received([turn] + rest, id);
    assert HandedOut(done, id) + Left(chunks, d, id) == StreamsFrom(chunks, 0, id);
    match turn {
      case Ask(asked, received, call) =>
        ReceivedNext(turn, rest, asked);
        AskKeeps(chunks, d, asked, received, call, d', Received(rest, asked));
        if asked != id {
          AskKeepsOthers(chunks, d, asked, received, call, d', id, list);
          assert [] + Received(rest, id) == Received(rest, id);
        }
      case Load =>
        assert [] + Received(rest, id) == Received(rest, id);
        LoadKeeps(chunks, d, d', id, list);
        LoadedHold(chunks, d, d');
      case Learn(_) =>
        assert [] + Received(rest, id) == Received(rest, id);
        LearnKeeps(chunks, d, d', id, list);
    }
    assert HandedOut(done, id) + (HandedOutBy(turn, id) + Left(chunks, d', id))
      == HandedOut(done, id) + HandedOutBy(turn, id) + Left(chunks, d', id);
    assert [] + Left(chunks, d', id) == Left(chunks, d', id);
  }

  lemma LoadedHold(chunks: seq<Chunk>, d: Decoder, d': Decoder)
    requires ValidRecording(chunks) && LoadStep(chunks, d, d')
    ensures DecoderInv(chunks, d')
  {
    hide Inv, ValidRecord, Decoded, CannotLoad;
    StartsHold(chunks, d');
  }

  lemma LearnKeeps(chunks: seq<Chunk>, d: Decoder, d': Decoder, id: int, list: seq<Arrival>)
    requires DecoderInv(chunks, d) && d' == d.(bounds := d'.bounds)
    ensures DecoderInv(chunks, d') && AtHand(d', id) == AtHand(d, id) && Left(chunks, d', id) == Left(chunks, d, id)
    ensures InOrderFor(chunks, d, id, list) ==> InOrderFor(chunks, d', id, list)
  {
    hide Inv, LegalOver;
    assert Lines(d', id, |chunks| - d.chunk) == Lines(d, id, |chunks| - d.chunk);
  }

  lemma {:induction false} ReplayOnTrack(chunks: seq<Chunk>, ds: seq<Decoder>, turns: seq<Turn>, i: nat)
    requires IsReplay(chunks, ds, turns) && i <= |turns|
    requires ReceivedInOrder(chunks, turns) && BoundsAlwaysAllow(chunks, ds, turns)
    ensures OnTrack(chunks, ds[i], turns[..i], turns[i..])
  {
    hide ValidRecording, DecoderInv, InOrderFor, StepOf, BoundsAllow, Received, HandedOut, Left, StreamsFrom, AtHand,
         ReceivedInOrder;
    if i == 0 {
      BeginOnTrack(chunks, turns);
      assert turns[..0] == [] && turns[0..] == turns;
    } else {
      ReplayOnTrack(chunks, ds, turns, i - 1);
      assert turns[i - 1..] == [turns[i - 1]] + turns[i..] && turns[..i] == turns[..i - 1] + [turns[i - 1]];
      assert StepOf(chunks, ds[i - 1], turns[i - 1], ds[i]) && BoundsAllow(chunks, ds[i - 1], turns[i - 1]);
      TurnKeeps(chunks, ds[i - 1], turns[i - 1], ds[i], turns[..i - 1], turns[i..], 0);
      forall id
        ensures InOrderFor(chunks, ds[i], id, AtHand(ds[i], id) + Received(turns[i..], id))
        ensures HandedOut(turns[..i], id) + Left(chunks, ds[i], id) == StreamsFrom(chunks, 0, id)
      {
        TurnKeeps(chunks, ds[i - 1], turns[i - 1], ds[i], turns[..i - 1], turns[i..], id);
      }
    }
  }

  // The last chunk is loaded and all its tables are decoded.
  ghost predicate Finished(chunks: seq<Chunk>, d: Decoder) {
    d.chunk + 1 == |chunks| && AllDecoded(chunks[d.chunk], d.states)
  }

  // A turn that asks is one decode ordering allows.
  ghost predicate CallAllowed(chunks: seq<Chunk>, d: Decoder, turn: Turn) {
    turn.Ask? ==>
      && d.chunk < |chunks| && turn.id in chunks[d.chunk] && turn.id in d.states
      && AskAllowed(chunks[d.chunk][turn.id], d.states[turn.id], turn.call)
  }

  // Every call of the replay is one decode ordering allows, whatever waits from later chunks.
  lemma CallsAreAllowed(chunks: seq<Chunk>, ds: seq<Decoder>, turns: seq<Turn>, i: nat)
    requires IsReplay(chunks, ds, turns) && i < |turns|
    requires ReceivedInOrder(chunks, turns) && BoundsAlwaysAllow(chunks, ds, turns)
    ensures CallAllowed(chunks, ds[i], turns[i])
  {
    hide ValidRecording, DecoderInv, InOrderFor, AskAllowed, CallSpec, Received, HandedOut, Left, StreamsFrom, AtHand,
         ReceivedInOrder;
    ReplayOnTrack(chunks, ds, turns, i);
    assert StepOf(chunks, ds[i], turns[i], ds[i + 1]) && BoundsAllow(chunks, ds[i], turns[i]);
    assert turns[i..] == [turns[i]] + turns[i + 1..];
    if turns[i].Ask? {
      var id := turns[i].id;
      ReceivedNext(turns[i], turns[i + 1..], id);
      AskKeeps(chunks, ds[i], id, turns[i].received, turns[i].call, ds[i + 1], Received(turns[i + 1..], id));
    }
  }

  // Nothing is left for any set exactly when the last chunk is decoded.
  lemma NothingLeftMeansFinished(chunks: seq<Chunk>, d: Decoder)
    requires ValidRecording(chunks) && DecoderInv(chunks, d)
    ensures (forall id :: Left(chunks, d, id) == []) <==> Finished(chunks, d)
  {
    hide Inv, Remaining, DecodedAll, ValidChunk, InOrder, StreamFrom;
    var now := chunks[d.chunk];
    forall id | id in now
      ensures DecodedAll(now[id].table, d.states[id]) <==> Remaining(RecordOf(now, id), d.states[id]) == []
    {
      NothingLeftMeansDecoded(now[id].table, now[id].record, d.states[id]);
    }
    if d.chunk + 1 < |chunks| {
      LaterIsLeft(chunks, d);
    } else if forall id :: Left(chunks, d, id) == [] {
      forall id | id in now ensures DecodedAll(now[id].table, d.states[id]) {
        assert Left(chunks, d, id) == [];
      }
    }
  }

  lemma LaterIsLeft(chunks: seq<Chunk>, d: Decoder)
    requires ValidRecording(chunks) && d.chunk + 1 < |chunks|
    ensures exists id :: Left(chunks, d, id) != []
  {
    hide Remaining, ValidChunk, InOrder, StreamFrom;
    var next := chunks[d.chunk + 1];
    SomeSet(next);
    var id :| id in next;
    assert Stream(next[id].record) != [];
    assert Left(chunks, d, id) != [];
  }

  lemma SomeSet(chunk: Chunk)
    requires chunk != map[]
    ensures exists id :: id in chunk
  {
    assert (forall id :: id !in chunk) ==> chunk.Keys == {};
  }

  ghost predicate PrefixHandedOut(chunks: seq<Chunk>, turns: seq<Turn>) {
    forall id :: HandedOut(turns, id) <= StreamsFrom(chunks, 0, id)
  }

  ghost predicate AllHandedOut(chunks: seq<Chunk>, turns: seq<Turn>) {
    forall id :: HandedOut(turns, id) == StreamsFrom(chunks, 0, id)
  }

  // Replay of a whole recording. For every matching set what is handed out, over all chunks, is a
  // prefix of what was recorded for it over all chunks, and everything recorded is handed out
  // exactly when the tables of the last chunk are decoded.
  lemma ReplayFollowsRecording(chunks: seq<Chunk>, ds: seq<Decoder>, turns: seq<Turn>)
    requires IsReplay(chunks, ds, turns)
    requires ReceivedInOrder(chunks, turns) && BoundsAlwaysAllow(chunks, ds, turns)
    ensures PrefixHandedOut(chunks, turns)
    ensures AllHandedOut(chunks, turns) <==> Finished(chunks, ds[|turns|])
  {
    hide ValidRecording, DecoderInv, StepOf, ReceivedInOrder, AllHandedOut, PrefixHandedOut, Finished;
    var n := |turns|;
    ReplayOnTrack(chunks, ds, turns, n);
    assert turns[..n] == turns && turns[n..] == [];
    NothingLeftMeansFinished(chunks, ds[n]);
    HandedOutWhatIsNotLeft(chunks, ds[n], turns);
  }

  lemma HandedOutWhatIsNotLeft(chunks: seq<Chunk>, d: Decoder, turns: seq<Turn>)
    requires OnTrack(chunks, d, turns, [])
    ensures PrefixHandedOut(chunks, turns)
    ensures AllHandedOut(chunks, turns) <==> forall id :: Left(chunks, d, id) == []
  {
    hide DecoderInv, InOrderFor, HandedOut, Left, StreamsFrom, AtHand;
    forall id
      ensures HandedOut(turns, id) <= StreamsFrom(chunks, 0, id)
      ensures Left(chunks, d, id) == [] <==> HandedOut(turns, id) == StreamsFrom(chunks, 0, id)
    {
      assert HandedOut(turns, id) + Left(chunks, d, id) == StreamsFrom(chunks, 0, id);
      assert HandedOut(turns, id) + [] == HandedOut(turns, id);
    }
  }
}
