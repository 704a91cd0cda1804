// Whole replays of one table: any sequence of decode-ordering calls, with any arrival order
// and any look-ahead bounds the calls allow.
module ReplayRuns {
  import opened ReplayTables
  import opened ReplaySteps
  import opened ReplayGroups
  import opened DecodeOrdering

  ghost predicate IsRun(t: Table, r: Record, states: seq<State>, calls: seq<Call>) {
    && |states| == |calls| + 1
    && (forall i :: 0 <= i < |states| ==> Inv(t, r, states[i]))
    && (forall i :: 0 <= i < |calls| ==> CallSpec(t, r, states[i], calls[i], states[i + 1]))
  }

  function Outputs(calls: seq<Call>): seq<Event> {
    if calls == [] then [] else Outputs(calls[..|calls| - 1]) + calls[|calls| - 1].out
  }

  function TimesFinished(calls: seq<Call>): nat {
    if calls == [] then 0
    else TimesFinished(calls[..|calls| - 1]) + (if calls[|calls| - 1].finished then 1 else 0)
  }

  // ---------------------------------------------------------------- one call

  // What a call hands out is what it takes off the front of the recorded stream.
  lemma CallConserves(t: Table, r: Record, st: State, c: Call, st': State)
    requires Inv(t, r, st) && CallSpec(t, r, st, c, st')
    ensures Remaining(r, st) == c.out + Remaining(r, st')
  {
    hide Inv, IsGroup, GroupStep;
    if DecodedAll(t, st) {
      assert [] + Remaining(r, st) == Remaining(r, st);
    } else if st.replayed in st.unmatched {
      StreamUnmatched(r.events, st.unmatched, st.replayed);
    } else {
      var n :| GroupStep(t, r, st, c, st', n);
      GroupConserves(t, r, st, c, st', n);
    }
  }

  lemma GroupConserves(t: Table, r: Record, st: State, c: Call, st': State, n: nat)
    requires Inv(t, r, st) && GroupStep(t, r, st, c, st', n) && st.replayed !in st.unmatched
    ensures Remaining(r, st) == c.out + Remaining(r, st')
  {
    hide Inv, ValidRecord, Decoded, UnmatchedOk, IsGroup, Ready, Solidable, InterimOk, LineAfter, Outside, StreamFrom,
         SolidEnd;
    InvGives(t, r, st);
    InvUnmatched(t, r, st);
    GroupFits(r.events, st.replayed, n);
    if c.out == [] {
      assert [] + Remaining(r, st) == Remaining(r, st);
    } else {
      NothingInsideGroup(r, st, n);
      StreamGroup(r.events, st.unmatched, st.replayed, n);
    }
  }

  // The call that completes the table, and only that one, reports it.
  lemma CallFinishes(t: Table, r: Record, st: State, c: Call, st': State)
    requires Inv(t, r, st) && CallSpec(t, r, st, c, st')
    ensures c.finished <==> !DecodedAll(t, st) && DecodedAll(t, st')
    ensures DecodedAll(t, st) ==> DecodedAll(t, st')
  {
    hide Inv, GroupStep;
  }

  // When all messages of the table have arrived everything is solid.
  lemma AllSolid(t: Table, r: Record, st: State)
    requires Inv(t, r, st) && Reached(t, st.line) && st.ordered == []
    ensures SolidEnd(st) == |r.sorted|
  {
    var s := SolidEnd(st);
    if s < |r.sorted| {
      ReachedMeansAllArrived(t, r, st.line, s);
    }
  }

  // Once the epoch line is reached no call on an unfinished table comes back empty-handed.
  lemma CallProgresses(t: Table, r: Record, st: State, c: Call, st': State)
    requires Inv(t, r, st) && CallSpec(t, r, st, c, st') && !DecodedAll(t, st)
    requires Reached(t, LineAfter(t, st.line, c.arrivals))
    ensures c.out != [] && |Remaining(r, st')| < |Remaining(r, st)|
  {
    hide Inv, IsGroup, GroupStep, Ready, Reached;
    CallConserves(t, r, st, c, st');
    if st.replayed !in st.unmatched {
      var n :| GroupStep(t, r, st, c, st', n);
      GroupProgresses(t, r, st, c, st', n);
    }
  }

  lemma GroupProgresses(t: Table, r: Record, st: State, c: Call, st': State, n: nat)
    requires Inv(t, r, st) && Inv(t, r, st') && GroupStep(t, r, st, c, st', n)
    requires Reached(t, LineAfter(t, st.line, c.arrivals))
    ensures c.out != []
  {
    hide Inv, Decoded, Reached, InterimOk;
    AllSolid(t, r, st');
    InvGives(t, r, st);
    assert Ready(r, st.replayed, n, SolidEnd(st'));
  }

  ghost predicate HeldBack(r: Record, st: State, st': State, min: Id, k: nat)
    requires ValidRecord(r)
  {
    && st.replayed <= k < |r.events| && r.perm[k] >= SolidEnd(st')
    && (Pending(r, st'.line, r.perm[k]) || Less(min, r.sorted[r.perm[k]]))
  }

  // The only reason to hand out nothing: a member of the group has not arrived, or is still
  // above the look-ahead bound, so that something smaller might come.
  lemma WhyNothing(t: Table, r: Record, st: State, c: Call, st': State)
    requires ValidRecord(r) && Inv(t, r, st) && CallSpec(t, r, st, c, st') && !DecodedAll(t, st) && c.out == []
    ensures exists k :: HeldBack(r, st, st', c.min, k)
  {
    hide Inv, ValidRecord, Decoded, Solidable, InterimOk;
    InvGives(t, r, st);
    var n :| GroupStep(t, r, st, c, st', n);
    var k :| st.replayed <= k < st.replayed + n && !(r.perm[k] < SolidEnd(st'));
    PermInRange(r, k);
    NotSolidYet(t, r, st', c.min, r.perm[k]);
    assert HeldBack(r, st, st', c.min, k);
  }

  lemma PermInRange(r: Record, k: nat)
    requires ValidRecord(r) && k < |r.events|
    ensures k < |r.perm| && r.perm[k] < |r.sorted|
  {
  }

  lemma NotSolidYet(t: Table, r: Record, st: State, min: Id, o: nat)
    requires Inv(t, r, st) && SolidEnd(st) <= o < |r.sorted|
    requires st.ordered != [] ==> !Solidable(t, st.line, min, st.ordered[0])
    ensures Pending(r, st.line, o) || Less(min, r.sorted[o])
  {
    hide ValidRecord, Decoded, Unsolid, UnmatchedOk, SolidOk, Reached, Boundary;
    if !Pending(r, st.line, o) {
      var i :| 0 <= i < |st.ordered| && st.ordered[i].id == r.sorted[o];
      assert i == 0 || Less(st.ordered[0].id, st.ordered[i].id);
    }
  }

  // ---------------------------------------------------------------- whole runs

  lemma {:induction false} RunConserves(t: Table, r: Record, states: seq<State>, calls: seq<Call>)
    requires IsRun(t, r, states, calls)
    ensures Remaining(r, states[0]) == Outputs(calls) + Remaining(r, states[|calls|])
    ensures TimesFinished(calls) == (if !DecodedAll(t, states[0]) && DecodedAll(t, states[|calls|]) then 1 else 0)
    ensures DecodedAll(t, states[0]) ==> DecodedAll(t, states[|calls|])
    ensures SolidEnd(states[0]) <= SolidEnd(states[|calls|])
    decreases |calls|
  {
    hide Inv, CallSpec, DecodedAll;
    var n := |calls|;
    if n > 0 {
      RunConserves(t, r, states[..n], calls[..n - 1]);
      CallConserves(t, r, states[n - 1], calls[n - 1], states[n]);
      CallFinishes(t, r, states[n - 1], calls[n - 1], states[n]);
      SolidGrows(t, r, states[n - 1], calls[n - 1], states[n]);
    }
  }

  lemma SolidGrows(t: Table, r: Record, st: State, c: Call, st': State)
    requires Inv(t, r, st) && CallSpec(t, r, st, c, st')
    ensures SolidEnd(st) <= SolidEnd(st')
  {
    hide Inv, IsGroup, Ready, InterimOk;
  }

  // Replay refinement. Whatever order the messages arrive in and however the bounds are drawn,
  // what has been handed out is a prefix of what was recorded, and it is all of it exactly when
  // the table is decoded.
  lemma {:induction false} ReplayRefinesRecording(t: Table, r: Record, states: seq<State>, calls: seq<Call>)
    requires IsRun(t, r, states, calls) && states[0] == Start(r)
    ensures Outputs(calls) <= Stream(r)
    ensures Outputs(calls) == Stream(r) <==> DecodedAll(t, states[|calls|])
  {
    hide Inv, CallSpec, DecodedAll;
    RunConserves(t, r, states, calls);
    NothingLeftMeansDecoded(t, r, states[|calls|]);
  }

  // Exactly one call reports that the table is finished, the one that hands out the last event.
  lemma {:induction false} EndIsReportedOnce(t: Table, r: Record, states: seq<State>, calls: seq<Call>)
    requires IsRun(t, r, states, calls) && states[0] == Start(r)
    ensures TimesFinished(calls) == (if Stream(r) != [] && Outputs(calls) == Stream(r) then 1 else 0)
  {
    hide Inv, CallSpec, DecodedAll;
    RunConserves(t, r, states, calls);
    NothingLeftMeansDecoded(t, r, states[0]);
    NothingLeftMeansDecoded(t, r, states[|calls|]);
  }

  lemma InvUnmatched(t: Table, r: Record, st: State)
    requires Inv(t, r, st)
    ensures UnmatchedOk(r, st) && st.replayed <= |r.events|
  {
  }

  // Two replays of one recording never disagree: the shorter output starts the longer.
  lemma {:induction false} ReplaysAgree(t: Table, r: Record, s1: seq<State>, c1: seq<Call>, s2: seq<State>,
                                        c2: seq<Call>)
    requires IsRun(t, r, s1, c1) && IsRun(t, r, s2, c2) && s1[0] == s2[0] == Start(r)
    ensures Outputs(c1) <= Outputs(c2) || Outputs(c2) <= Outputs(c1)
  {
    hide Inv, CallSpec, DecodedAll;
    ReplayRefinesRecording(t, r, s1, c1);
    ReplayRefinesRecording(t, r, s2, c2);
    PrefixesCompare(Outputs(c1), Outputs(c2), Stream(r));
  }

  lemma PrefixesCompare(a: seq<Event>, b: seq<Event>, whole: seq<Event>)
    requires a <= whole && b <= whole
    ensures a <= b || b <= a
  {
    assert a == whole[..|a|] && b == whole[..|b|];
  }

  lemma NothingLeftMeansDecoded(t: Table, r: Record, st: State)
    requires Inv(t, r, st)
    ensures DecodedAll(t, st) <==> Remaining(r, st) == []
  {
    hide Inv, DecodedAll, Remaining;
    InvGives(t, r, st);
    InvUnmatched(t, r, st);
    DecodedIffNothingRemains(t, r, st);
  }

  // Every call of the run is made with all the table's messages available.
  ghost predicate AllArrived(t: Table, states: seq<State>, calls: seq<Call>)
    requires |states| == |calls| + 1 && TableShape(t)
  {
    forall i :: 0 <= i < |calls| ==> Reached(t, LineAfter(t, states[i].line, calls[i].arrivals))
  }

  // Then the replay finishes within as many calls as there is stream left.
  lemma {:induction false} ReplayFinishes(t: Table, r: Record, states: seq<State>, calls: seq<Call>)
    requires IsRun(t, r, states, calls) && TableShape(t) && AllArrived(t, states, calls)
    ensures DecodedAll(t, states[|calls|]) || |Remaining(r, states[|calls|])| + |calls| <= |Remaining(r, states[0])|
    ensures |calls| >= |Remaining(r, states[0])| ==> DecodedAll(t, states[|calls|])
    decreases |calls|
  {
    hide Inv, CallSpec, DecodedAll, Reached;
    var n := |calls|;
    NothingLeftMeansDecoded(t, r, states[n]);
    if n > 0 {
      ReplayFinishes(t, r, states[..n], calls[..n - 1]);
      CallFinishes(t, r, states[n - 1], calls[n - 1], states[n]);
      if !DecodedAll(t, states[n - 1]) {
        CallProgresses(t, r, states[n - 1], calls[n - 1], states[n]);
      }
    }
  }

  ghost predicate AllLegal(t: Table, r: Record, states: seq<State>, calls: seq<Call>)
    requires |states| == |calls| + 1 && TableShape(t)
  {
    forall i :: 0 <= i < |calls| ==> Legal(t, r, states[i].line, calls[i].arrivals)
  }

  // From call m on, every message of the table has arrived.
  ghost predicate ArrivedFrom(t: Table, r: Record, states: seq<State>, calls: seq<Call>, m: nat)
    requires |states| == |calls| + 1 && TableShape(t)
  {
    forall i, o :: m <= i < |calls| && 0 <= o < |r.sorted| ==>
      !Pending(r, LineAfter(t, states[i].line, calls[i].arrivals), o)
  }

  lemma CallLine(t: Table, r: Record, st: State, c: Call, st': State)
    requires TableShape(t) && Inv(t, r, st) && CallSpec(t, r, st, c, st')
    ensures st'.line == st.line || st'.line == LineAfter(t, st.line, c.arrivals)
  {
    hide Inv, LineAfter, InterimOk, AllSolidable, Solidable, Ready, IsGroup, Outside;
  }

  lemma {:induction false} LinesRecorded(t: Table, r: Record, states: seq<State>, calls: seq<Call>, i: nat)
    requires IsRun(t, r, states, calls) && states[0] == Start(r) && TableShape(t) && AllLegal(t, r, states, calls)
    requires i <= |calls|
    ensures LineRecorded(r, states[i].line)
  {
    hide Inv, CallSpec, Legal, LineAfter;
    if i > 0 {
      LinesRecorded(t, r, states, calls, i - 1);
      CallLine(t, r, states[i - 1], calls[i - 1], states[i]);
      LineAfterRecorded(t, r, states[i - 1].line, calls[i - 1].arrivals);
    }
  }

  lemma InvShape(t: Table, r: Record, st: State)
    requires Inv(t, r, st)
    ensures ValidRecord(r) && Decoded(t, r) && TableShape(t)
  {
  }

  lemma LaterRun(t: Table, r: Record, states: seq<State>, calls: seq<Call>, m: nat)
    requires IsRun(t, r, states, calls) && m <= |calls|
    ensures IsRun(t, r, states[m..], calls[m..])
    ensures m > 0 ==> IsRun(t, r, states[..m + 1], calls[..m])
  {
    hide Inv, CallSpec;
  }

  // Once all messages are there, a replay from the start needs no more calls than the stream is long.
  lemma FinishesOnceArrived(t: Table, r: Record, states: seq<State>, calls: seq<Call>, m: nat)
    requires IsRun(t, r, states, calls) && states[0] == Start(r) && TableShape(t) && AllLegal(t, r, states, calls)
    requires m + |Stream(r)| <= |calls| && ArrivedFrom(t, r, states, calls, m)
    ensures DecodedAll(t, states[|calls|])
  {
    hide Inv, CallSpec, Legal, LineAfter, DecodedAll, Remaining, Stream, Reached, AllLegal, LineRecorded;
    var after, rest := states[m..], calls[m..];
    LaterRun(t, r, states, calls, m);
    InvShape(t, r, states[0]);
    forall i | 0 <= i < |rest| ensures Reached(t, LineAfter(t, after[i].line, rest[i].arrivals)) {
      assert after[i] == states[m + i] && rest[i] == calls[m + i];
      LinesRecorded(t, r, states, calls, m + i);
      CallIsLegal(t, r, states, calls, m + i);
      LineAfterRecorded(t, r, states[m + i].line, calls[m + i].arrivals);
      AllThere(t, r, states, calls, m, m + i);
      ReachedIffAllArrived(t, r, LineAfter(t, states[m + i].line, calls[m + i].arrivals));
    }
    NothingMoreRemains(t, r, states, calls, m);
    ReplayFinishes(t, r, after, rest);
  }

  lemma CallIsLegal(t: Table, r: Record, states: seq<State>, calls: seq<Call>, i: nat)
    requires |states| == |calls| + 1 && TableShape(t) && AllLegal(t, r, states, calls) && i < |calls|
    ensures Legal(t, r, states[i].line, calls[i].arrivals)
  {
  }

  lemma AllThere(t: Table, r: Record, states: seq<State>, calls: seq<Call>, m: nat, i: nat)
    requires |states| == |calls| + 1 && TableShape(t) && ArrivedFrom(t, r, states, calls, m) && m <= i < |calls|
    ensures forall o :: 0 <= o < |r.sorted| ==>
      r.sorted[o].clock <= LineOf(LineAfter(t, states[i].line, calls[i].arrivals), r.sorted[o].source)
  {
    hide LineAfter;
    forall o | 0 <= o < |r.sorted|
      ensures r.sorted[o].clock <= LineOf(LineAfter(t, states[i].line, calls[i].arrivals), r.sorted[o].source)
    {
      assert !Pending(r, LineAfter(t, states[i].line, calls[i].arrivals), o);
    }
  }

  lemma NothingMoreRemains(t: Table, r: Record, states: seq<State>, calls: seq<Call>, m: nat)
    requires IsRun(t, r, states, calls) && states[0] == Start(r) && m <= |calls|
    ensures |Remaining(r, states[m])| <= |Stream(r)|
  {
    hide Inv, CallSpec;
    if m > 0 {
      LaterRun(t, r, states, calls, m);
      RunConserves(t, r, states[..m + 1], calls[..m]);
    }
  }

  // The order given to a solid message is the one the recorder gave it, and never changes.
  lemma SolidOrderIsRecorded(t: Table, r: Record, st: State, e: Arrival)
    requires Inv(t, r, st)
    ensures e in st.solid <==>
      0 <= e.clockOrder < SolidEnd(st) && e.id == r.sorted[e.clockOrder] && t.indices[e.clockOrder] >= st.replayed
  {
    WaitingMembers(t, r, SolidEnd(st), st.replayed, e);
  }
}
