// One rank's side of the look-ahead protocol as the program keeps it: the window the successors
// read, the counters and snapshots of the predecessors, the local clock and the bounds. Every
// method does what the corresponding step of LookAhead does.
module ClockWindows {
  import opened Basics
  import opened LookAhead
  import opened RemoteSlots
  import opened ReplayGroups
  import Steps = ReplaySteps

  const NO_MATCHING_SET_ID := -1

  // Some bound is higher than before.
  ghost predicate Raised(before: map<int, int>, after: map<int, int>) {
    exists rank :: rank in before && rank in after && before[rank] < after[rank]
  }

  function AtOrZero(m: map<int, int>, rank: int): int {
    if rank in m then m[rank] else 0
  }

  // The clocks of the requests that were receives.
  function RecvClocks(clocks: seq<int>, isRecv: seq<bool>): seq<int>
    requires |clocks| == |isRecv|
  {
    if clocks == [] then []
    else RecvClocks(clocks[..|clocks| - 1], isRecv[..|isRecv| - 1]) +
         (if isRecv[|isRecv| - 1] then [clocks[|clocks| - 1]] else [])
  }

  lemma RecvClocksNext(clocks: seq<int>, isRecv: seq<bool>, i: nat)
    requires |clocks| == |isRecv| && i < |clocks|
    ensures RecvClocks(clocks[..i + 1], isRecv[..i + 1]) ==
      if isRecv[i] then RecvClocks(clocks[..i], isRecv[..i]) + [clocks[i]] else RecvClocks(clocks[..i], isRecv[..i])
  {
    assert clocks[..i + 1][..i] == clocks[..i] && isRecv[..i + 1][..i] == isRecv[..i];
    assert RecvClocks(clocks[..i], isRecv[..i]) + [] == RecvClocks(clocks[..i], isRecv[..i]);
  }

  // The positions that hold a receive, in order, and the clocks there.
  ghost predicate RecvsAt(clocks: seq<int>, isRecv: seq<bool>, at: seq<int>, received: seq<int>)
    requires |clocks| == |isRecv|
  {
    && |at| == |received| && Increasing(at)
    && (forall i :: 0 <= i < |clocks| && isRecv[i] ==> i in at)
    && (forall k :: 0 <= k < |at| ==>
          0 <= at[k] < |clocks| && isRecv[at[k]] && received[k] == clocks[at[k]])
  }

  lemma RecvsAtNext(clocks: seq<int>, isRecv: seq<bool>, at: seq<int>, received: seq<int>, n: nat)
    requires |clocks| == |isRecv| == n + 1 && RecvsAt(clocks[..n], isRecv[..n], at, received)
    ensures if isRecv[n] then RecvsAt(clocks, isRecv, at + [n], received + [clocks[n]])
      else RecvsAt(clocks, isRecv, at, received)
  {
    forall i | 0 <= i < n && isRecv[i] ensures i in at {
      assert isRecv[..n][i];
    }
    forall k | 0 <= k < |at| ensures 0 <= at[k] < n && isRecv[at[k]] && received[k] == clocks[at[k]] {
      assert isRecv[..n][at[k]] && clocks[..n][at[k]] == clocks[at[k]];
    }
  }

  lemma {:induction false} RecvClocksAre(clocks: seq<int>, isRecv: seq<bool>)
    requires |clocks| == |isRecv|
    ensures exists at :: RecvsAt(clocks, isRecv, at, RecvClocks(clocks, isRecv))
  {
    hide RecvsAt, RecvClocks;
    if clocks == [] {
      NoRecvs(clocks, isRecv);
    } else {
      var n := |clocks| - 1;
      RecvClocksAre(clocks[..n], isRecv[..n]);
      var at :| RecvsAt(clocks[..n], isRecv[..n], at, RecvClocks(clocks[..n], isRecv[..n]));
      RecvsAtNext(clocks, isRecv, at, RecvClocks(clocks[..n], isRecv[..n]), n);
      RecvClocksNext(clocks, isRecv, n);
      assert clocks[..n + 1] == clocks && isRecv[..n + 1] == isRecv;
    }
  }

  lemma NoRecvs(clocks: seq<int>, isRecv: seq<bool>)
    requires clocks == [] && isRecv == []
    ensures RecvsAt(clocks, isRecv, [], RecvClocks(clocks, isRecv))
  {
  }

  lemma StartOfClocks(local: int, clocks: seq<int>, isRecv: seq<bool>)
    requires |clocks| == |isRecv|
    ensures Ticks(local, RecvClocks(clocks[..0], isRecv[..0])) == local
  {
  }

  // The position of every rank of a list.
  function SlotsOf(ranks: seq<int>): map<int, nat> {
    if ranks == [] then map[] else SlotsOf(ranks[..|ranks| - 1])[ranks[|ranks| - 1] := |ranks| - 1]
  }

  lemma {:induction false} SlotsFind(ranks: seq<int>)
    requires Distinct(ranks)
    ensures forall rank :: rank in SlotsOf(ranks) <==> rank in ranks
    ensures forall rank :: rank in SlotsOf(ranks) ==>
      SlotsOf(ranks)[rank] < |ranks| && ranks[SlotsOf(ranks)[rank]] == rank
  {
    if ranks != [] {
      SlotsFind(ranks[..|ranks| - 1]);
    }
  }

  // What a local clock is exposed for: a receive that is not complete, or any other event.
  datatype ReplayingType = TypeRecv | TypeAny | TypeUnknown

  class Endpoint {
    const predRanks: seq<int>
    const predIndices: seq<nat>
    const predIndex: map<int, nat>
    const succIndex: map<int, nat>
    const scatterPc: array<Snapshot>
    const recvCounts: array<nat>
    const gatherPc: array<Snapshot>
    var scatterClock: int
    var localClock: int
    var maxRecved: map<int, int>
    var interimMinClock: map<int, int>
    // Per matching set, the bound of every sender.
    var bounds: map<int, map<int, int>>

    ghost predicate Valid()
      reads this`scatterClock, scatterPc
    {
      && recvCounts.Length == gatherPc.Length == |predRanks| == |predIndices| && scatterPc != gatherPc
      && (forall rank :: rank in predIndex <==> rank in predRanks)
      && (forall rank :: rank in predIndex ==> predIndex[rank] < gatherPc.Length && predRanks[predIndex[rank]] == rank)
      && (forall rank :: rank in succIndex ==> succIndex[rank] < scatterPc.Length)
      && (forall a, b :: a in succIndex && b in succIndex && a != b ==> succIndex[a] != succIndex[b])
      && forall i :: 0 <= i < scatterPc.Length ==> scatterPc[i].clock == scatterClock
    }

    // rempi_cp_init, after the remote indexing. The gather buffer is allocated but not cleared by
    // the source; it is taken as zero here.
    constructor (preds: seq<int>, indices: seq<nat>, succs: seq<int>)
      requires Distinct(preds) && Distinct(succs) && |indices| == |preds|
      ensures Valid() && fresh(scatterPc) && fresh(gatherPc) && fresh(recvCounts)
      ensures predRanks == preds && predIndices == indices && scatterPc.Length == |succs|
      ensures forall rank :: rank in succIndex <==> rank in succs
      ensures scatterClock == 0 && localClock == INITIAL_CLOCK && bounds == map[]
      ensures forall i :: 0 <= i < scatterPc.Length ==> scatterPc[i] == Snapshot(0, 0)
      ensures forall i :: 0 <= i < gatherPc.Length ==> gatherPc[i] == Snapshot(0, 0) && recvCounts[i] == 0
    {
      predRanks, predIndices := preds, indices;
      predIndex, succIndex := SlotsOf(preds), SlotsOf(succs);
      scatterPc := new Snapshot[|succs|](_ => Snapshot(0, 0));
      recvCounts := new nat[|preds|](_ => 0);
      gatherPc := new Snapshot[|preds|](_ => Snapshot(0, 0));
      scatterClock, localClock, maxRecved, interimMinClock, bounds := 0, INITIAL_CLOCK, map[], map[], map[];
      SlotsFind(preds);
      SlotsFind(succs);
    }

    // rempi_cp_record_send; the error is the abort for an unknown rank.
    method RecordSend(dest: int) returns (error: bool)
      requires Valid()
      modifies scatterPc
      ensures Valid() && (error <==> dest !in succIndex)
      ensures error ==> scatterPc[..] == old(scatterPc[..])
      ensures !error ==>
        scatterPc[..] == old(scatterPc[..])[succIndex[dest] :=
          Snapshot(scatterClock, old(scatterPc[succIndex[dest]].sendCount) + 1)]
    {
      if dest !in succIndex {
        return true;
      }
      error := false;
      var index := succIndex[dest];
      scatterPc[index] := scatterPc[index].(sendCount := scatterPc[index].sendCount + 1);
    }

    // rempi_cp_record_recv
    method RecordRecv(source: int) returns (error: bool)
      requires Valid()
      modifies recvCounts
      ensures error <==> source !in predIndex
      ensures error ==> recvCounts[..] == old(recvCounts[..])
      ensures !error ==>
        recvCounts[..] == old(recvCounts[..])[predIndex[source] := old(recvCounts[predIndex[source]]) + 1]
    {
      if source !in predIndex {
        return true;
      }
      error := false;
      var index := predIndex[source];
      recvCounts[index] := recvCounts[index] + 1;
    }

    // update_max_recved_clock
    method UpdateMaxRecvedClock(source: int, clock: int)
      modifies this`maxRecved
      ensures AtOrZero(maxRecved, source) == Max(AtOrZero(old(maxRecved), source), clock)
      ensures forall rank :: rank != source ==> AtOrZero(maxRecved, rank) == AtOrZero(old(maxRecved), rank)
    {
      var oldClock := if source in maxRecved then maxRecved[source] else 0;
      if oldClock < clock {
        maxRecved := maxRecved[source := clock];
      }
    }

    // rempi_cp_gather_clocks: from the window of each predecessor the slot that is this rank's.
    method GatherClocks(windows: seq<seq<Snapshot>>)
      requires Valid() && RanksBelow(predRanks, |windows|)
      requires forall i :: 0 <= i < |predRanks| ==> predIndices[i] < |windows[predRanks[i]]|
      modifies gatherPc
      ensures Valid()
      ensures forall i :: 0 <= i < gatherPc.Length ==> gatherPc[i] == windows[predRanks[i]][predIndices[i]]
    {
      for i := 0 to gatherPc.Length
        invariant Valid()
        invariant forall k :: 0 <= k < i ==> gatherPc[k] == windows[predRanks[k]][predIndices[k]]
      {
        gatherPc[i] := windows[predRanks[i]][predIndices[i]];
      }
    }

    // rempi_cp_set_scatter_clock: every successor sees the clock; the counters stay.
    method SetScatterClock(clock: int)
      requires Valid()
      modifies this`scatterClock, scatterPc
      ensures Valid() && scatterClock == clock
      ensures forall i :: 0 <= i < scatterPc.Length ==> scatterPc[i] == Snapshot(clock, old(scatterPc[i].sendCount))
    {
      scatterClock := clock;
      for i := 0 to scatterPc.Length
        invariant scatterClock == clock
        invariant forall k :: 0 <= k < i ==> scatterPc[k] == Snapshot(clock, old(scatterPc[k].sendCount))
        invariant forall k :: i <= k < scatterPc.Length ==> scatterPc[k] == old(scatterPc[k])
      {
        scatterPc[i] := scatterPc[i].(clock := clock);
      }
    }

    // The interim clock of a matching set, as decode ordering leaves it.
    method StoreInterim(setId: int, clock: int)
      modifies this`interimMinClock
      ensures interimMinClock == old(interimMinClock)[setId := clock]
    {
      interimMinClock := interimMinClock[setId := clock];
    }

    // update_local_look_ahead_send_clock; the error is the abort for an unknown type.
    method UpdateSendClock(replaying: ReplayingType, setId: int) returns (error: bool)
      requires Valid()
      modifies this`scatterClock, scatterPc
      ensures Valid() && (error <==> replaying == TypeUnknown)
      ensures error ==> scatterClock == old(scatterClock)
      ensures replaying == TypeAny ==> scatterClock == Max(old(scatterClock), localClock)
      ensures replaying == TypeRecv ==>
        scatterClock == Max(old(scatterClock), if setId in interimMinClock then interimMinClock[setId] else 0)
      ensures forall i :: 0 <= i < scatterPc.Length ==> scatterPc[i].sendCount == old(scatterPc[i].sendCount)
    {
      var nextClock;
      error := false;
      match replaying {
        case TypeRecv =>
          if setId in interimMinClock {
            nextClock := interimMinClock[setId];
          } else {
            nextClock := 0;
          }
        case TypeAny =>
          nextClock := localClock;
        case TypeUnknown =>
          return true;
      }
      if scatterClock < nextClock {
        SetScatterClock(nextClock);
      }
    }

    // While a receive of a set is incomplete: the interim clock decode ordering leaves is exposed, and
    // every successor sees at least that.
    method ExposeInterim(setId: int, clock: int)
      requires Valid()
      modifies this`interimMinClock, this`scatterClock, scatterPc
      ensures Valid() && scatterClock == Max(old(scatterClock), clock)
      ensures forall i :: 0 <= i < scatterPc.Length ==>
        scatterPc[i].clock >= clock && scatterPc[i].sendCount == old(scatterPc[i].sendCount)
    {
      StoreInterim(setId, clock);
      var error := UpdateSendClock(TypeRecv, setId);
    }

    // replay_isend: count, send with the local clock, tick, expose. The complaint is about an
    // exposed clock above the one sent.
    method ReplayIsend(dest: int) returns (sentClock: int, complaint: bool, error: bool)
      requires Valid()
      modifies this`localClock, this`scatterClock, scatterPc
      ensures Valid() && (error <==> dest !in succIndex)
      ensures !error ==> sentClock == old(localClock) && localClock == old(localClock) + 1
      ensures !error ==> (complaint <==> old(localClock) < old(scatterClock))
      ensures !error ==> scatterClock == Max(old(scatterClock), localClock)
      ensures !error ==> forall i :: 0 <= i < scatterPc.Length ==>
        scatterPc[i].sendCount == old(scatterPc[i].sendCount) + (if i == succIndex[dest] then 1 else 0)
    {
      sentClock, complaint := 0, false;
      error := RecordSend(dest);
      if error {
        return;
      }
      sentClock := localClock;
      localClock := localClock + 1;
      complaint := sentClock < scatterClock;
      error := UpdateSendClock(TypeAny, NO_MATCHING_SET_ID);
    }

    // rempi_clock_sync_clock: receives move the clock, a failed test does in REP mode.
    method SyncClock(clocks: seq<int>, isRecv: seq<bool>, repMode: bool)
      requires |clocks| == |isRecv|
      modifies this`localClock
      ensures localClock ==
        Ticks(old(localClock), RecvClocks(clocks, isRecv)) + (if repMode && clocks == [] then 1 else 0)
      // the clock is past every message received, and stays if there is none
      ensures localClock >= old(localClock)
      ensures forall i :: 0 <= i < |clocks| && isRecv[i] ==> localClock > clocks[i]
      ensures (forall i :: 0 <= i < |clocks| ==> !isRecv[i]) && (clocks != [] || !repMode) ==>
        localClock == old(localClock)
    {
      hide Ticks, RecvClocks;
      StartOfClocks(localClock, clocks, isRecv);
      for i := 0 to |clocks|
        invariant localClock == Ticks(old(localClock), RecvClocks(clocks[..i], isRecv[..i]))
        invariant localClock >= old(localClock)
        invariant forall k :: 0 <= k < i && isRecv[k] ==> localClock > clocks[k]
        invariant (forall k :: 0 <= k < i ==> !isRecv[k]) ==> localClock == old(localClock)
      {
        RecvClocksNext(clocks, isRecv, i);
        TicksSnoc(old(localClock), RecvClocks(clocks[..i], isRecv[..i]), clocks[i]);
        if isRecv[i] {
          if localClock < clocks[i] {
            localClock := clocks[i];
          }
          localClock := localClock + 1;
        }
      }
      assert clocks[..|clocks|] == clocks && isRecv[..|isRecv|] == isRecv;
      if repMode && |clocks| == 0 {
        localClock := localClock + 1;
      }
    }

    // rempi_cp_has_in_flight_msgs
    method HasInFlightMsgs(source: int) returns (has: bool, error: bool)
      requires Valid()
      ensures error <==> source !in predIndex
      ensures !error ==> (has <==> gatherPc[predIndex[source]].sendCount > recvCounts[predIndex[source]])
    {
      if source !in predIndex {
        return false, true;
      }
      error := false;
      var index := predIndex[source];
      if gatherPc[index].sendCount <= recvCounts[index] {
        has := false;
      } else {
        has := true;
      }
    }

    predicate IsInFlight(rank: int)
      reads gatherPc, recvCounts
      requires rank in predIndex ==> predIndex[rank] < gatherPc.Length == recvCounts.Length
    {
      rank in predIndex && InFlight(gatherPc[predIndex[rank]].sendCount, recvCounts[predIndex[rank]])
    }

    // The bound of one sender after an update.
    ghost function Updated(rank: int, probed: set<int>, received: set<int>, bound: int): int
      requires Valid()
      reads this`scatterClock, this`maxRecved, scatterPc, gatherPc, recvCounts
    {
      var howTo := HowToUpdate(rank in probed, rank in received, IsInFlight(rank), AtOrZero(maxRecved, rank), bound);
      var gathered := if rank in predIndex then gatherPc[predIndex[rank]].clock else 0;
      NewBound(howTo, AtOrZero(maxRecved, rank), gathered, bound)
    }

    // What an update makes of a bound. With nothing of the sender on the way it becomes the snapshot's
    // clock, if that is higher or the collective marker; with something on the way the highest clock
    // received, if that is higher; after a probe it stays.
    ghost predicate LooksAhead(rank: int, probed: set<int>, received: set<int>, bound: int, after: int)
      requires Valid()
      reads this`scatterClock, this`maxRecved, scatterPc, gatherPc, recvCounts
    {
      && (rank in probed ==> after == bound)
      && (rank !in probed && rank !in received && rank in predIndex ==>
            var gathered, index := gatherPc[predIndex[rank]], predIndex[rank];
            gathered.sendCount <= recvCounts[index] ==>
              after == if gathered.clock == Steps.COLLECTIVE_CLOCK then gathered.clock else Max(bound, gathered.clock))
      && (rank !in probed
          && (rank in received
              || (rank in predIndex && gatherPc[predIndex[rank]].sendCount > recvCounts[predIndex[rank]]))
          ==> after == if rank in maxRecved && maxRecved[rank] != 0 then Max(bound, maxRecved[rank]) else bound)
    }

    lemma UpdatedLooksAhead(rank: int, probed: set<int>, received: set<int>, bound: int)
      requires Valid()
      ensures LooksAhead(rank, probed, received, bound, Updated(rank, probed, received, bound))
    {
    }

    // Every listed sender of a set is treated so, and the others keep their bound.
    ghost predicate SetLooksAhead(before: map<int, int>, after: map<int, int>, ranks: seq<int>, probed: set<int>,
                                  received: set<int>)
      requires Valid()
      reads this`scatterClock, this`maxRecved, scatterPc, gatherPc, recvCounts
    {
      after.Keys == before.Keys && forall rank :: rank in before ==>
        if rank in ranks then LooksAhead(rank, probed, received, before[rank], after[rank])
        else after[rank] == before[rank]
    }

    lemma UpdatedSetLooksAhead(before: map<int, int>, after: map<int, int>, ranks: seq<int>, probed: set<int>,
                               received: set<int>)
      requires Valid() && SetUpdated(before, after, ranks, probed, received)
      ensures SetLooksAhead(before, after, ranks, probed, received)
    {
      hide LooksAhead, Updated;
      forall rank | rank in before && rank in ranks
        ensures LooksAhead(rank, probed, received, before[rank], after[rank])
      {
        UpdatedLooksAhead(rank, probed, received, before[rank]);
      }
    }

    // When updating the bound of a sender aborts: it is no predecessor, or it has no bound although one
    // is looked up.
    ghost predicate Misses(rank: int, probed: set<int>, received: set<int>, next: map<int, int>)
      requires Valid()
      reads this`scatterClock, this`maxRecved, scatterPc, gatherPc, recvCounts
    {
      rank !in probed && (
        || (rank !in received && rank !in predIndex)
        || (rank !in next && ((rank !in received && !IsInFlight(rank)) || AtOrZero(maxRecved, rank) != 0)))
    }

    // howto_update_look_ahead_recv_clock
    method ChooseUpdate(rank: int, probed: set<int>, received: set<int>, next: map<int, int>)
      returns (howTo: HowTo, error: bool)
      requires Valid()
      ensures error ==> Misses(rank, probed, received, next)
      ensures !error ==> (Misses(rank, probed, received, next) <==> howTo != NoUpdate && rank !in next)
      ensures !error ==>
        howTo == HowToUpdate(rank in probed, rank in received, IsInFlight(rank), AtOrZero(maxRecved, rank),
                             AtOrZero(next, rank))
      ensures !error && howTo == LookAheadUpdate ==> rank in predIndex
    {
      error := false;
      if rank in probed {
        howTo := NoUpdate;
      } else if rank in received {
        howTo := LastRecvUpdate;
      } else {
        var inFlight;
        inFlight, error := HasInFlightMsgs(rank);
        if error {
          return NoUpdate, true;
        }
        howTo := if inFlight then LastRecvUpdate else LookAheadUpdate;
      }
      if howTo == LastRecvUpdate {
        var maxRecvedClock := if rank in maxRecved then maxRecved[rank] else 0;
        if maxRecvedClock == 0 {
          howTo := NoUpdate;
        } else if rank !in next {
          error := true;
        } else if maxRecvedClock + 1 < next[rank] {
          howTo := NoUpdate;
        }
      }
    }

    // One sender's turn: its bound, if it has one, and whether the flag is set or overwritten.
    method UpdateOne(next: map<int, int>, rank: int, probed: set<int>, received: set<int>, wasUpdated: bool)
      returns (after: map<int, int>, isUpdated: bool, error: bool)
      requires Valid()
      ensures error <==> Misses(rank, probed, received, next)
      ensures !error ==>
        after == if rank in next then next[rank := Updated(rank, probed, received, next[rank])] else next
      ensures !error && rank in next ==> LooksAhead(rank, probed, received, next[rank], after[rank])
      ensures !error && isUpdated ==> wasUpdated || (rank in next && next[rank] < after[rank])
    {
      after, isUpdated := next, wasUpdated;
      var howTo;
      howTo, error := ChooseUpdate(rank, probed, received, next);
      error := error || (howTo != NoUpdate && rank !in next);
      if error {
        return;
      }
      var maxRecvedClock := if rank in maxRecved then maxRecved[rank] else 0;
      match howTo {
        case NoUpdate =>
        case LastRecvUpdate =>
          if next[rank] < maxRecvedClock {
            after, isUpdated := next[rank := maxRecvedClock], true;
          }
        case LookAheadUpdate =>
          var gathered := gatherPc[predIndex[rank]].clock;
          isUpdated := next[rank] < gathered;
          if isUpdated || gathered == Steps.COLLECTIVE_CLOCK {
            after := next[rank := gathered];
          }
      }
    }

    // One matching set's turn of update_local_look_ahead_recv_clock. A look-ahead update overwrites
    // the flag, so that it only tells that some bound was raised, not that none was.
    method UpdateSet(next: map<int, int>, ranks: seq<int>, probed: set<int>, received: set<int>, wasUpdated: bool)
      returns (after: map<int, int>, isUpdated: bool, error: bool)
      requires Valid() && Distinct(ranks)
      ensures error <==> SetMisses(next, ranks, probed, received)
      ensures !error ==> SetUpdated(next, after, ranks, probed, received)
      ensures !error ==> SetLooksAhead(next, after, ranks, probed, received)
      ensures !error && isUpdated ==> wasUpdated || Raised(next, after)
    {
      hide Updated;
      after, isUpdated := next, wasUpdated;
      for i := 0 to |ranks|
        invariant after.Keys == next.Keys
        invariant forall k :: 0 <= k < i ==> !Misses(ranks[k], probed, received, next)
        invariant forall rank :: rank in next ==>
          after[rank] == if rank in ranks[..i] then Updated(rank, probed, received, next[rank]) else next[rank]
        invariant isUpdated ==> wasUpdated || Raised(next, after)
      {
        var rank := ranks[i];
        assert rank !in ranks[..i] && ranks[..i + 1] == ranks[..i] + [rank];
        SameMisses(rank, probed, received, next, after);
        after, isUpdated, error := UpdateOne(after, rank, probed, received, isUpdated);
        if error {
          return;
        }
      }
      error := false;
      assert ranks[..|ranks|] == ranks;
      UpdatedSetLooksAhead(next, after, ranks, probed, received);
    }

    lemma SameMisses(rank: int, probed: set<int>, received: set<int>, next: map<int, int>, after: map<int, int>)
      requires Valid() && after.Keys == next.Keys
      ensures Misses(rank, probed, received, next) <==> Misses(rank, probed, received, after)
    {
    }

    // Every bound of a set is updated once.
    ghost predicate SetUpdated(before: map<int, int>, after: map<int, int>, ranks: seq<int>, probed: set<int>,
                               received: set<int>)
      requires Valid()
      reads this`scatterClock, this`maxRecved, scatterPc, gatherPc, recvCounts
    {
      after.Keys == before.Keys && forall rank :: rank in before ==>
        after[rank] == if rank in ranks then Updated(rank, probed, received, before[rank]) else before[rank]
    }

    ghost predicate SetMisses(before: map<int, int>, ranks: seq<int>, probed: set<int>, received: set<int>)
      requires Valid()
      reads this`scatterClock, this`maxRecved, scatterPc, gatherPc, recvCounts
    {
      exists rank :: rank in ranks && Misses(rank, probed, received, before)
    }

    // A set that is done: updated, with nothing missing.
    ghost predicate SetDone(before: map<int, int>, after: map<int, int>, ranks: seq<int>, probed: set<int>,
                            received: set<int>)
      requires Valid()
      reads this`scatterClock, this`maxRecved, scatterPc, gatherPc, recvCounts
    {
      SetUpdated(before, after, ranks, probed, received) && !SetMisses(before, ranks, probed, received)
    }

    // update_local_look_ahead_recv_clock: the bounds of all matching sets, in any order. The error is
    // the abort for a sender that some set has no bound for.
    method UpdateRecvClocks(ranks: seq<int>, probed: set<int>, received: set<int>)
      returns (isUpdated: bool, error: bool)
      requires Valid() && Distinct(ranks)
      modifies this`bounds
      ensures Valid()
      ensures error <==> exists id :: id in old(bounds) && SetMisses(old(bounds)[id], ranks, probed, received)
      ensures !error ==> bounds.Keys == old(bounds.Keys)
      ensures !error ==> forall id :: id in bounds ==> SetUpdated(old(bounds)[id], bounds[id], ranks, probed, received)
      ensures !error ==>
        forall id :: id in bounds ==> SetLooksAhead(old(bounds)[id], bounds[id], ranks, probed, received)
      ensures !error && isUpdated ==> exists id :: id in bounds && Raised(old(bounds)[id], bounds[id])
    {
      hide SetMisses, SetUpdated, Raised, SetLooksAhead;
      isUpdated := false;
      var left := bounds.Keys;
      while left != {}
        invariant Valid() && left <= old(bounds.Keys) == bounds.Keys
        invariant forall id :: id in left ==> bounds[id] == old(bounds)[id]
        invariant forall id :: id in bounds && id !in left ==>
          SetDone(old(bounds)[id], bounds[id], ranks, probed, received)
        invariant isUpdated ==> exists id :: id in bounds && id !in left && Raised(old(bounds)[id], bounds[id])
      {
        assert (forall id :: id !in left) ==> left == {};
        var id :| id in left;
        var after;
        after, isUpdated, error := UpdateSet(bounds[id], ranks, probed, received, isUpdated);
        if error {
          return;
        }
        bounds := bounds[id := after];
        left := left - {id};
        assert SetDone(old(bounds)[id], bounds[id], ranks, probed, received);
      }
      error := false;
      assert forall id :: id in bounds ==> SetDone(old(bounds)[id], bounds[id], ranks, probed, received);
      forall id | id in bounds
        ensures SetLooksAhead(old(bounds)[id], bounds[id], ranks, probed, received)
      {
        UpdatedSetLooksAhead(old(bounds)[id], bounds[id], ranks, probed, received);
      }
    }
  }
}
