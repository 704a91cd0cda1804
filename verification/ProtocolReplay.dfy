// Where the protocol and decode ordering meet: the bounds the protocol keeps are what decode
// ordering needs of its look-ahead bound, so that every replay under the protocol follows the
// recording, and the interim clock decode ordering computes is one the protocol allows to expose.
module ProtocolReplay {
  import opened ReplayTables
  import opened ReplaySteps
  import opened ReplayGroups
  import opened EpochReplay
  import opened ChunkRuns
  import LA = LookAhead
  import Safe = LookAheadSafety
  import Windows = ClockWindows

  // The messages of a recorded table as messages of a run that ends in state `end`: number[o] is
  // the number of the message at clock order o among those of its sender to p. Replay sends
  // each message with the clock it was recorded with.
  ghost predicate Resends(end: LA.Net, p: nat, r: Record, number: seq<nat>) {
    && LA.Square(end) && p < |end.ranks| && |number| == |r.sorted|
    && (forall o :: 0 <= o < |r.sorted| ==> 0 <= r.sorted[o].source < |end.ranks|)
    && (forall o :: 0 <= o < |r.sorted| ==>
          var link := LA.LinkOf(end, r.sorted[o].source, p);
          number[o] < |link.sent| && link.sent[number[o]] == r.sorted[o].clock)
  }

  // A bound that is not above the one of the protocol: that of a matching set which is not
  // known from the first update on can be lower.
  ghost predicate Lags(bound: int, link: LA.Link) {
    bound <= link.bound && LA.ValidClock(bound)
  }

  // The bounds a matching set has for its senders.
  ghost predicate BoundsLag(now: LA.Net, p: nat, next: map<int, int>) {
    && LA.Square(now) && p < |now.ranks|
    && forall q :: q in next ==> 0 <= q < |now.ranks| && Lags(next[q], LA.LinkOf(now, q, p))
  }

  // What has not arrived at the table has not been received.
  ghost predicate NotReceived(now: LA.Net, p: nat, r: Record, number: seq<nat>, line: map<int, int>) {
    && LA.Square(now) && p < |now.ranks| && |number| == |r.sorted|
    && (forall o :: 0 <= o < |r.sorted| ==> 0 <= r.sorted[o].source < |now.ranks|)
    && (forall o :: 0 <= o < |r.sorted| && Pending(r, line, o) ==>
          LA.LinkOf(now, r.sorted[o].source, p).received <= number[o])
  }

  // What the update of a sender makes of one of its bounds, from the state of its channel.
  function Learned(link: LA.Link, probed: bool, received: bool, bound: int): int
    requires link.received <= |link.sent|
  {
    var inFlight, max := LA.InFlight(link.gathered.sendCount, link.received), LA.MaxReceived(link);
    LA.NewBound(LA.HowToUpdate(probed, received, inFlight, max, bound), max, link.gathered.clock, bound)
  }

  // The bounds of all matching sets are updated together: one that lags goes on to do so.
  lemma LagStays(link: LA.Link, sender: LA.Rank, p: nat, bound: int, probed: bool, received: bool)
    requires LA.LinkOk(link, sender, p) && Lags(bound, link)
    ensures Lags(Learned(link, probed, received, bound),
                 LA.AfterLink(link, LA.Update(0, 0, probed, received), sender))
  {
  }

  // The protocol's own bounds, and zero, do at every point of every run.
  lemma OwnBoundsLag(states: seq<LA.Net>, steps: seq<LA.Step>, i: nat, r: nat, p: nat)
    requires Safe.IsRun(states, steps) && states[0] == LA.Begin(|states[0].ranks|) && i < |states|
    requires r < |states[0].ranks| && p < |states[0].ranks|
    ensures LA.Square(states[i]) && |states[i].ranks| == |states[0].ranks|
    ensures var link := LA.LinkOf(states[i], r, p); Lags(link.bound, link) && Lags(0, link)
  {
    SameRanks(states, steps, i, i);
    Safe.BeginInv(|states[0].ranks|);
    Safe.RunKeepsInv(states, steps, i);
    assert LA.LinkOk(LA.LinkOf(states[i], r, p), states[i].ranks[r], p);
  }

  // What lags goes on to lag, since the protocol's bounds never fall.
  lemma LagsLater(states: seq<LA.Net>, steps: seq<LA.Step>, i: nat, j: nat, p: nat, next: map<int, int>)
    requires Safe.IsRun(states, steps) && states[0] == LA.Begin(|states[0].ranks|) && i <= j < |states|
    requires BoundsLag(states[i], p, next)
    ensures BoundsLag(states[j], p, next)
  {
    hide Safe.IsRun;
    SameRanks(states, steps, i, j);
    Safe.BeginInv(|states[0].ranks|);
    forall q | q in next ensures 0 <= q < |states[j].ranks| && Lags(next[q], LA.LinkOf(states[j], q, p)) {
      Safe.BoundsRise(states, steps, i, j, q, p);
    }
  }

  // In every run of the protocol, bounds that lag hold of all messages of a table that have not
  // arrived.
  lemma BoundsHoldInReplay(states: seq<LA.Net>, steps: seq<LA.Step>, i: nat, j: nat, p: nat, r: Record,
                           number: seq<nat>, line: map<int, int>, next: map<int, int>)
    requires Safe.IsRun(states, steps) && states[0] == LA.Begin(|states[0].ranks|) && i <= j < |states|
    requires p < |states[0].ranks| && Resends(states[j], p, r, number) && NotReceived(states[i], p, r, number, line)
    requires BoundsLag(states[i], p, next) && forall o :: 0 <= o < |r.sorted| ==> r.sorted[o].source in next
    ensures BoundsHold(r, line, next)
  {
    hide Safe.IsRun;
    forall o: nat | o < |r.sorted| && Pending(r, line, o)
      ensures r.sorted[o].source in next && next[r.sorted[o].source] <= r.sorted[o].clock
    {
      SameRanks(states, steps, i, j);
      Safe.BoundIsSafe(states, steps, i, j, r.sorted[o].source, p, number[o]);
    }
  }

  lemma SameRanks(states: seq<LA.Net>, steps: seq<LA.Step>, i: nat, j: nat)
    requires Safe.IsRun(states, steps) && states[0] == LA.Begin(|states[0].ranks|) && i <= j < |states|
    ensures |states[i].ranks| == |states[j].ranks| == |states[0].ranks|
    ensures LA.Square(states[i]) && LA.Square(states[j])
  {
    Safe.BeginInv(|states[0].ranks|);
    Safe.RunKeepsInv(states, steps, i);
    Safe.RunKeepsInv(states, steps, j);
  }

  // So a look-ahead bound drawn from them is one decode ordering may use.
  lemma FrontierInReplay(states: seq<LA.Net>, steps: seq<LA.Step>, i: nat, j: nat, p: nat, t: Table, r: Record,
                         number: seq<nat>, line: map<int, int>, next: map<int, int>, min: Id)
    requires Safe.IsRun(states, steps) && states[0] == LA.Begin(|states[0].ranks|) && i <= j < |states|
    requires p < |states[0].ranks| && Resends(states[j], p, r, number) && NotReceived(states[i], p, r, number, line)
    requires BoundsLag(states[i], p, next)
    requires ValidRecord(r) && Decoded(t, r) && Bounds(t, next, min)
    ensures Frontier(r, line, min)
  {
    hide Safe.IsRun, ValidRecord, DecodedEvents, IsLookAhead, Frontier, Resends, NotReceived;
    forall o | 0 <= o < |r.sorted| ensures r.sorted[o].source in next {
      assert r.sorted[o].source in t.epochRanks;
    }
    BoundsHoldInReplay(states, steps, i, j, p, r, number, line, next);
    forall k | 0 <= k < |t.epochRanks| ensures !InCollective(t, next, k) {
      assert Lags(next[t.epochRanks[k]], LA.LinkOf(states[i], t.epochRanks[k], p));
    }
    BoundsGiveFrontier(t, r, line, next, min);
  }

  // ---------------------------------------------------------------- replay under the protocol

  // Every table of the recording is sent again to p in a run that ends in `end`.
  ghost predicate ResendsAll(end: LA.Net, p: nat, chunks: seq<Chunk>, numbers: seq<map<int, seq<nat>>>) {
    && |numbers| == |chunks|
    && forall k, id :: 0 <= k < |chunks| && id in chunks[k] ==>
         id in numbers[k] && Resends(end, p, chunks[k][id].record, numbers[k][id])
  }

  // The bounds of one sender are updated in all matching sets, the others stay.
  ghost predicate LearnsOf(link: LA.Link, rank: int, probed: bool, received: bool, before: SetBounds, after: SetBounds)
    requires link.received <= |link.sent|
  {
    forall id, q :: id in before && q in before[id] && id in after && q in after[id] ==>
      after[id][q] == if q == rank then Learned(link, probed, received, before[id][q]) else before[id][q]
  }

  // A turn at point i of the protocol's run. When a set asks, the messages it has not been given are
  // not received; bounds change by the update step that the run takes there.
  ghost predicate TakesPlace(states: seq<LA.Net>, steps: seq<LA.Step>, i: nat, p: nat, chunks: seq<Chunk>,
                             numbers: seq<map<int, seq<nat>>>, d: Decoder, turn: Turn)
  {
    i < |states| && d.chunk < |chunks| == |numbers| &&
    match turn
    case Ask(id, _, call) =>
      id in chunks[d.chunk] && id in numbers[d.chunk] && id in d.states ==>
        var rec := chunks[d.chunk][id];
        TableShape(rec.table) ==>
          NotReceived(states[i], p, rec.record, numbers[d.chunk][id],
                      LineAfter(rec.table, d.states[id].line, call.arrivals))
    case Load => true
    case Learn(bounds) =>
      && i < |steps| && steps[i].Update? && steps[i].p == p
      && LA.Square(states[i]) && LA.CountsMatch(states[i])
      && p < |states[i].ranks| && steps[i].source < |states[i].ranks|
      && LearnsOf(LA.LinkOf(states[i], steps[i].source, p), steps[i].source, steps[i].probed, steps[i].received,
                  d.bounds, bounds)
  }

  // Where the run is after the turn.
  function PointAfter(i: nat, turn: Turn): nat {
    if turn.Learn? then i + 1 else i
  }

  // The turns take place one after the other.
  ghost predicate AlongRun(states: seq<LA.Net>, steps: seq<LA.Step>, p: nat, chunks: seq<Chunk>,
                           numbers: seq<map<int, seq<nat>>>, ds: seq<Decoder>, turns: seq<Turn>, at: seq<nat>)
  {
    && |at| == |turns| && |ds| == |turns| + 1
    && (forall i :: 0 <= i < |turns| ==> TakesPlace(states, steps, at[i], p, chunks, numbers, ds[i], turns[i]))
    && (forall i :: 0 <= i < |turns| - 1 ==> PointAfter(at[i], turns[i]) <= at[i + 1])
  }

  ghost predicate AllLag(now: LA.Net, p: nat, bounds: SetBounds) {
    forall id :: id in bounds ==> BoundsLag(now, p, bounds[id])
  }

  lemma SendersAreRanks(end: LA.Net, p: nat, chunks: seq<Chunk>, numbers: seq<map<int, seq<nat>>>, k: nat, rank: int)
    requires ResendsAll(end, p, chunks, numbers) && k < |chunks| && ValidChunk(chunks[k]) && rank in Senders(chunks[k])
    ensures 0 <= rank < |end.ranks|
  {
    hide ValidRecord, DecodedEvents;
    var chunk := chunks[k];
    var id :| id in chunk && rank in chunk[id].table.epochRanks;
    var t, r := chunk[id].table, chunk[id].record;
    var i :| 0 <= i < |t.epochRanks| && t.epochRanks[i] == rank;
    assert EpochEntry(r, t.epochRanks[i], t.epochClocks[i]);
    assert Resends(end, p, r, numbers[k][id]);
  }

  // Loading a chunk, the first or another: new matching sets start with bounds that lag.
  lemma LoadKeepsLag(states: seq<LA.Net>, steps: seq<LA.Step>, i: nat, p: nat, chunks: seq<Chunk>,
                     numbers: seq<map<int, seq<nat>>>, k: nat, bounds: SetBounds)
    requires Safe.IsRun(states, steps) && states[0] == LA.Begin(|states[0].ranks|) && i < |states|
    requires p < |states[0].ranks| && ResendsAll(states[|states| - 1], p, chunks, numbers)
    requires k < |chunks| && ValidChunk(chunks[k]) && AllLag(states[i], p, bounds)
    ensures AllLag(states[i], p, Loaded(bounds, chunks[k].Keys, Senders(chunks[k])))
  {
    hide Safe.IsRun, ResendsAll, ValidChunk, Senders, Lags, Loaded;
    var after := Loaded(bounds, chunks[k].Keys, Senders(chunks[k]));
    LoadedMeans(bounds, chunks[k].Keys, Senders(chunks[k]));
    SameRanks(states, steps, i, |states| - 1);
    OwnBoundsLag(states, steps, i, p, p);
    forall id | id in after ensures BoundsLag(states[i], p, after[id]) {
      if id !in bounds {
        forall q | q in after[id] ensures 0 <= q < |states[i].ranks| && Lags(0, LA.LinkOf(states[i], q, p)) {
          SendersAreRanks(states[|states| - 1], p, chunks, numbers, k, q);
          OwnBoundsLag(states, steps, i, q, p);
        }
      }
    }
  }

  // An update of the run keeps what the decoder learns from it behind the protocol's bounds.
  lemma LearnKeepsLag(states: seq<LA.Net>, steps: seq<LA.Step>, i: nat, p: nat, before: SetBounds, after: SetBounds)
    requires Safe.IsRun(states, steps) && states[0] == LA.Begin(|states[0].ranks|) && i < |steps|
    requires p < |states[0].ranks| && steps[i].Update? && steps[i].p == p
    requires |states[i].ranks| == |states[0].ranks| && steps[i].source < |states[i].ranks|
    requires SameSenders(before, after) && AllLag(states[i], p, before)
    requires LearnsOf(LA.LinkOf(states[i], steps[i].source, p), steps[i].source, steps[i].probed, steps[i].received,
                      before, after)
    ensures AllLag(states[i + 1], p, after)
  {
    hide LA.LinkOk, LA.RankOk, Lags;
    var rank, probed, received := steps[i].source, steps[i].probed, steps[i].received;
    var link, sender := LA.LinkOf(states[i], rank, p), states[i].ranks[rank];
    SameRanks(states, steps, i, i + 1);
    Safe.BeginInv(|states[0].ranks|);
    Safe.RunKeepsInv(states, steps, i);
    assert LA.LinkOk(link, sender, p);
    forall id, q | id in after && q in after[id]
      ensures 0 <= q < |states[i + 1].ranks| && Lags(after[id][q], LA.LinkOf(states[i + 1], q, p))
    {
      assert BoundsLag(states[i], p, before[id]);
      if q == rank {
        LagStays(link, sender, p, before[id][q], probed, received);
        assert LA.LinkOf(states[i + 1], q, p) == LA.AfterLink(link, LA.Update(0, 0, probed, received), sender);
      } else {
        assert LA.LinkOf(states[i + 1], q, p) == LA.LinkOf(states[i], q, p);
      }
    }
  }

  // Every turn keeps the bounds behind those of the protocol.
  lemma TurnKeepsLag(states: seq<LA.Net>, steps: seq<LA.Step>, i: nat, p: nat, chunks: seq<Chunk>,
                     numbers: seq<map<int, seq<nat>>>, d: Decoder, turn: Turn, d': Decoder)
    requires Safe.IsRun(states, steps) && states[0] == LA.Begin(|states[0].ranks|)
    requires p < |states[0].ranks| && ResendsAll(states[|states| - 1], p, chunks, numbers)
    requires ValidRecording(chunks) && StepOf(chunks, d, turn, d')
    requires TakesPlace(states, steps, i, p, chunks, numbers, d, turn) && AllLag(states[i], p, d.bounds)
    ensures PointAfter(i, turn) < |states| && AllLag(states[PointAfter(i, turn)], p, d'.bounds)
  {
    hide ResendsAll, Loaded, AllDecoded, CannotLoad, BoundsLag, NotReceived, LearnsOf, AskAllowed, Bounds,
         DecodeOrdering.CallSpec;
    match turn {
      case Ask(_, _, _) =>
      case Load =>
        assert ValidChunk(chunks[d.chunk + 1]);
        LoadKeepsLag(states, steps, i, p, chunks, numbers, d.chunk + 1, d.bounds);
      case Learn(bounds) =>
        SameRanks(states, steps, i, i);
        LearnKeepsLag(states, steps, i, p, d.bounds, bounds);
    }
  }

  // From the zeros the first chunk is loaded with, through every load and update: at each turn no
  // bound is above the protocol's.
  lemma {:induction false} AlwaysLag(states: seq<LA.Net>, steps: seq<LA.Step>, p: nat, chunks: seq<Chunk>,
                                     numbers: seq<map<int, seq<nat>>>, ds: seq<Decoder>, turns: seq<Turn>,
                                     at: seq<nat>, i: nat)
    requires Safe.IsRun(states, steps) && states[0] == LA.Begin(|states[0].ranks|) && p < |states[0].ranks|
    requires ResendsAll(states[|states| - 1], p, chunks, numbers)
    requires IsReplay(chunks, ds, turns) && AlongRun(states, steps, p, chunks, numbers, ds, turns, at)
    requires i < |turns|
    ensures at[i] < |states| && AllLag(states[at[i]], p, ds[i].bounds)
  {
    hide Safe.IsRun, ResendsAll, StepOf, ValidRecording, TakesPlace, BoundsLag;
    PointInRun(states, steps, at[i], p, chunks, numbers, ds[i], turns[i]);
    if i == 0 {
      FirstChunk(chunks);
      LoadKeepsLag(states, steps, at[0], p, chunks, numbers, 0, map[]);
    } else {
      AlwaysLag(states, steps, p, chunks, numbers, ds, turns, at, i - 1);
      TurnKeepsLag(states, steps, at[i - 1], p, chunks, numbers, ds[i - 1], turns[i - 1], ds[i]);
      forall id | id in ds[i].bounds ensures BoundsLag(states[at[i]], p, ds[i].bounds[id]) {
        LagsLater(states, steps, PointAfter(at[i - 1], turns[i - 1]), at[i], p, ds[i].bounds[id]);
      }
    }
  }

  lemma PointInRun(states: seq<LA.Net>, steps: seq<LA.Step>, i: nat, p: nat, chunks: seq<Chunk>,
                   numbers: seq<map<int, seq<nat>>>, d: Decoder, turn: Turn)
    requires TakesPlace(states, steps, i, p, chunks, numbers, d, turn)
    ensures i < |states|
  {
  }

  lemma FirstChunk(chunks: seq<Chunk>)
    requires ValidRecording(chunks)
    ensures chunks != [] && ValidChunk(chunks[0])
  {
  }

  lemma TurnIsAllowed(states: seq<LA.Net>, steps: seq<LA.Step>, i: nat, p: nat, chunks: seq<Chunk>,
                      numbers: seq<map<int, seq<nat>>>, d: Decoder, turn: Turn, d': Decoder)
    requires Safe.IsRun(states, steps) && states[0] == LA.Begin(|states[0].ranks|)
    requires p < |states[0].ranks| && ResendsAll(states[|states| - 1], p, chunks, numbers)
    requires ValidRecording(chunks) && StepOf(chunks, d, turn, d')
    requires TakesPlace(states, steps, i, p, chunks, numbers, d, turn) && AllLag(states[i], p, d.bounds)
    ensures BoundsAllow(chunks, d, turn)
  {
    hide Safe.IsRun, Resends, NotReceived, BoundsLag, Bounds, Frontier, ValidRecord, Decoded, AskAllowed,
         DecodeOrdering.CallSpec;
    if turn.Ask? {
      var rec := chunks[d.chunk][turn.id];
      assert ValidChunk(chunks[d.chunk]);
      DecodedHasShape(rec);
      FrontierInReplay(states, steps, i, |states| - 1, p, rec.table, rec.record, numbers[d.chunk][turn.id],
                       LineAfter(rec.table, d.states[turn.id].line, turn.call.arrivals), d.bounds[turn.id],
                       turn.call.min);
    }
  }

  lemma DecodedHasShape(rec: RecordedTable)
    requires ValidRecord(rec.record) && Decoded(rec.table, rec.record)
    ensures TableShape(rec.table)
  {
  }

  // In every run of the protocol, whatever the interleaving, the replay of rank p follows the
  // recording: every call is allowed, what each matching set hands out is a prefix of what was
  // recorded for it, and all of it is handed out exactly when the last chunk is decoded. The bounds
  // start at the zeros of the chunks that are loaded and change by the updates of the run only.
  lemma ReplayUnderProtocol(states: seq<LA.Net>, steps: seq<LA.Step>, p: nat, chunks: seq<Chunk>,
                            numbers: seq<map<int, seq<nat>>>, ds: seq<Decoder>, turns: seq<Turn>, at: seq<nat>)
    requires Safe.IsRun(states, steps) && states[0] == LA.Begin(|states[0].ranks|) && p < |states[0].ranks|
    requires ResendsAll(states[|states| - 1], p, chunks, numbers)
    requires IsReplay(chunks, ds, turns) && ReceivedInOrder(chunks, turns)
    requires AlongRun(states, steps, p, chunks, numbers, ds, turns, at)
    ensures forall i :: 0 <= i < |turns| ==> CallAllowed(chunks, ds[i], turns[i])
    ensures PrefixHandedOut(chunks, turns)
    ensures AllHandedOut(chunks, turns) <==> Finished(chunks, ds[|turns|])
  {
    hide Safe.IsRun, ResendsAll, ReceivedInOrder, TakesPlace, StepOf, ValidRecording, BoundsAllow, CallAllowed,
         PrefixHandedOut, AllHandedOut, Finished, AllLag;
    forall i | 0 <= i < |turns| ensures BoundsAllow(chunks, ds[i], turns[i]) {
      AlwaysLag(states, steps, p, chunks, numbers, ds, turns, at, i);
      TurnIsAllowed(states, steps, at[i], p, chunks, numbers, ds[i], turns[i], ds[i + 1]);
    }
    forall i | 0 <= i < |turns| ensures CallAllowed(chunks, ds[i], turns[i]) {
      CallsAreAllowed(chunks, ds, turns, i);
    }
    ReplayFollowsRecording(chunks, ds, turns);
  }

  // What a rank's own fields make of a bound is what the protocol's update makes of it.
  lemma EndpointLearns(e: Windows.Endpoint, link: LA.Link, rank: int, probed: set<int>, received: set<int>, bound: int)
    requires e.Valid() && rank in e.predIndex && link.received <= |link.sent|
    requires e.gatherPc[e.predIndex[rank]] == link.gathered && e.recvCounts[e.predIndex[rank]] == link.received
    requires (if rank in e.maxRecved then e.maxRecved[rank] else 0) == LA.MaxReceived(link)
    ensures e.Updated(rank, probed, received, bound) == Learned(link, rank in probed, rank in received, bound)
  {
  }

  // Each clock that goes into the interim clock is one the protocol lets a waiting rank assume.
  lemma InterimIsJustified(link: LA.Link, r: Record, i: nat, slots: seq<Slot>, solid: nat, minClock: int, q: nat,
                           number: nat)
    requires ValidRecord(r) && i + |slots| <= |r.events| && q < |slots| && link.received <= |link.sent|
    requires SlotsOk(r, i, slots, solid) && RestAbove(r, solid, minClock)
    requires r.perm[i + q] < solid ==> number < link.received
    requires number < link.received ==> link.sent[number] == r.events[i + q].id.clock
    requires number >= link.received ==> minClock <= link.bound
    ensures LA.Justified(link, number, SlotClocks(slots, minClock)[q])
  {
    var k := i + q;
    assert r.events[k].id == r.sorted[r.perm[k]];
  }
}
