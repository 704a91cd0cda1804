// The variant without a record: what has arrived is handed out in clock order as soon as the
// look-ahead bound allows. The stream that comes out does not depend on the arrival order.
module RepOrdering {
  import opened ReplayTables
  import opened ReplaySteps

  datatype RepCall = RepCall(arrivals: seq<Arrival>, min: Id, out: seq<Arrival>)

  predicate RepSolid(min: Id, e: Arrival) {
    min.clock == COLLECTIVE_CLOCK || !Less(min, e.id)
  }

  // What is handed out and what stays are the sorted messages, cut where the bound is.
  ghost predicate RepSpec(ordered: seq<Arrival>, c: RepCall, ordered': seq<Arrival>) {
    && c.out + ordered' == SortByClock(ordered + c.arrivals)
    && (forall e :: e in c.out ==> RepSolid(c.min, e))
    && (ordered' != [] ==> !RepSolid(c.min, ordered'[0]))
  }

  class RepTable {
    var ordered: seq<Arrival>
    var solid: seq<Arrival>
    var line: map<int, int>

    constructor ()
      ensures ordered == [] && solid == []
    {
      ordered, solid, line := [], [], map[];
    }

    method CountSolid(min: Id) returns (count: nat)
      ensures count <= |ordered|
      ensures forall i :: 0 <= i < count ==> RepSolid(min, ordered[i])
      ensures count < |ordered| ==> !RepSolid(min, ordered[count])
    {
      if min.clock == COLLECTIVE_CLOCK {
        return |ordered|;
      }
      count := 0;
      while count < |ordered|
        invariant count <= |ordered|
        invariant forall i :: 0 <= i < count ==> RepSolid(min, ordered[i])
      {
        if !Less(min, ordered[count].id) {
          count := count + 1;
        } else {
          break;
        }
      }
    }

    // The clock order is numbered afresh in every call and not used afterwards.
    method CdcDecodeOrdering(arrivals: seq<Arrival>, min: Id) returns (out: seq<Arrival>, error: bool)
      requires solid == [] && forall i, j :: 0 <= i < j < |ordered + arrivals| ==>
        (ordered + arrivals)[i].id != (ordered + arrivals)[j].id
      modifies this
      ensures solid == [] && !error
      ensures RepSpec(old(ordered), RepCall(arrivals, min, out), ordered)
      // outside collectives what goes out is at or below the bound, and what stays is above it
      ensures min.clock != COLLECTIVE_CLOCK ==>
        && (forall e :: e in out ==>
              e.id.clock < min.clock || (e.id.clock == min.clock && e.id.source <= min.source))
        && (forall e :: e in ordered ==>
              min.clock < e.id.clock || (min.clock == e.id.clock && min.source < e.id.source))
      // nothing is lost, and in a collective everything goes out
      ensures forall e :: e in out || e in ordered <==> e in old(ordered) || e in arrivals
      ensures |out| + |ordered| == |old(ordered)| + |arrivals|
      ensures min.clock == COLLECTIVE_CLOCK ==> ordered == []
      ensures forall i, j :: 0 <= i < j < |out| ==>
        out[i].id.clock < out[j].id.clock || (out[i].id.clock == out[j].id.clock && out[i].id.source < out[j].id.source)
    {
      hide SortByClock, Less, LessEq;
      ghost var was := ordered;
      for i := 0 to |arrivals|
        invariant ordered == was + arrivals[..i] && solid == []
      {
        ordered := ordered + [arrivals[i]];
        line := line[arrivals[i].id.source := arrivals[i].id.clock];
      }
      assert arrivals[..|arrivals|] == arrivals;
      ordered := SortByClock(ordered);
      SortSorts(was + arrivals);
      var count := CountSolid(min);
      error := false;
      ghost var sorted := ordered;
      for i := 0 to count
        invariant solid == sorted[..i] && ordered == sorted[i..] && !error
      {
        if |solid| > 0 {
          error := error || !Less(solid[|solid| - 1].id, ordered[0].id);
        }
        solid := solid + [ordered[0]];
        ordered := ordered[1..];
      }
      out := [];
      for i := 0 to |solid|
        invariant out == solid[..i] && solid == sorted[..count] && ordered == sorted[count..]
      {
        out := out + [solid[i]];
      }
      solid := [];
      assert sorted == out + ordered;
      RepSpecMeans(was, RepCall(arrivals, min, out), ordered);
    }
  }

  // The specification in terms of clocks and senders.
  lemma RepSpecMeans(ordered: seq<Arrival>, c: RepCall, ordered': seq<Arrival>)
    requires RepSpec(ordered, c, ordered') && DistinctArrivals(ordered + c.arrivals)
    ensures c.min.clock != COLLECTIVE_CLOCK ==>
      && (forall e :: e in c.out ==>
            e.id.clock < c.min.clock || (e.id.clock == c.min.clock && e.id.source <= c.min.source))
      && (forall e :: e in ordered' ==>
            c.min.clock < e.id.clock || (c.min.clock == e.id.clock && c.min.source < e.id.source))
    ensures forall e :: e in c.out || e in ordered' <==> e in ordered || e in c.arrivals
    ensures |c.out| + |ordered'| == |ordered| + |c.arrivals|
    ensures c.min.clock == COLLECTIVE_CLOCK ==> ordered' == []
    ensures forall i, j :: 0 <= i < j < |c.out| ==>
      c.out[i].id.clock < c.out[j].id.clock
      || (c.out[i].id.clock == c.out[j].id.clock && c.out[i].id.source < c.out[j].id.source)
  {
    hide SortByClock;
    var sorted := SortByClock(ordered + c.arrivals);
    SortSorts(ordered + c.arrivals);
    forall e ensures e in c.out || e in ordered' <==> e in ordered || e in c.arrivals {
      SortHas(ordered + c.arrivals, e);
      assert e in sorted <==> e in c.out || e in ordered';
    }
    SortHas(ordered + c.arrivals, Arrival(c.min, 0));
    forall e | e in ordered' ensures !RepSolid(c.min, e) {
      var i :| 0 <= i < |ordered'| && ordered'[i] == e;
      assert sorted[|c.out|] == ordered'[0] && sorted[|c.out| + i] == e;
    }
    forall i, j | 0 <= i < j < |c.out| ensures Less(c.out[i].id, c.out[j].id) {
      assert sorted[i] == c.out[i] && sorted[j] == c.out[j];
    }
  }

  // A bound at or above everything that waits or comes in leaves nothing waiting.
  lemma HighBoundEmpties(ordered: seq<Arrival>, c: RepCall, ordered': seq<Arrival>)
    requires RepSpec(ordered, c, ordered')
    requires forall e :: e in ordered + c.arrivals ==>
      e.id.clock < c.min.clock || (e.id.clock == c.min.clock && e.id.source <= c.min.source)
    ensures ordered' == []
  {
    hide SortByClock;
    if ordered' != [] {
      assert ordered'[0] in c.out + ordered';
      SortHas(ordered + c.arrivals, ordered'[0]);
    }
  }

  // ---------------------------------------------------------------- whole runs

  function Arrived(calls: seq<RepCall>): seq<Arrival> {
    if calls == [] then [] else Arrived(calls[..|calls| - 1]) + calls[|calls| - 1].arrivals
  }

  function Emitted(calls: seq<RepCall>): seq<Arrival> {
    if calls == [] then [] else Emitted(calls[..|calls| - 1]) + calls[|calls| - 1].out
  }

  ghost predicate IsRepRun(ordered: seq<seq<Arrival>>, calls: seq<RepCall>) {
    && |ordered| == |calls| + 1 && ordered[0] == []
    && forall i :: 0 <= i < |calls| ==> RepSpec(ordered[i], calls[i], ordered[i + 1])
  }

  // Whatever arrives after call i is at or above its bound, and in the collective case above
  // everything that had arrived.
  ghost predicate LaterIsAbove(calls: seq<RepCall>, i: nat, a: Arrival)
    requires i < |calls|
  {
    if calls[i].min.clock == COLLECTIVE_CLOCK then forall e :: e in Arrived(calls[..i + 1]) ==> Less(e.id, a.id)
    else LessEq(calls[i].min, a.id)
  }

  ghost predicate RepFrontier(calls: seq<RepCall>) {
    && DistinctArrivals(Arrived(calls))
    && forall i, j, a :: 0 <= i < j < |calls| && a in calls[j].arrivals ==> LaterIsAbove(calls, i, a)
  }

  lemma InitMembers(a: seq<Arrival>, x: Arrival)
    requires a != [] && SortedArrivals(a)
    ensures x in a[..|a| - 1] <==> x in a && x != a[|a| - 1]
  {
    assert a == a[..|a| - 1] + [a[|a| - 1]];
  }

  // A strictly sorted list is determined by its members.
  lemma {:induction false} SortedUnique(a: seq<Arrival>, b: seq<Arrival>)
    requires SortedArrivals(a) && SortedArrivals(b) && forall x :: x in a <==> x in b
    ensures a == b
    decreases |a|
  {
    if a == [] {
      assert forall k :: 0 <= k < |b| ==> b[k] in b;
    } else {
      var last := a[|a| - 1];
      assert last in b && b[|b| - 1] in a;
      var k :| 0 <= k < |b| && b[k] == last;
      assert b[|b| - 1] == last;
      var a', b' := a[..|a| - 1], b[..|b| - 1];
      forall x ensures x in a' <==> x in b' {
        InitMembers(a, x);
        InitMembers(b, x);
      }
      SortedUnique(a', b');
    }
  }

  // ---------------------------------------------------------------- the emitted stream is sorted

  lemma ArrivedSnoc(calls: seq<RepCall>, c: RepCall)
    ensures Arrived(calls + [c]) == Arrived(calls) + c.arrivals && Emitted(calls + [c]) == Emitted(calls) + c.out
  {
    assert (calls + [c])[..|calls|] == calls;
  }

  lemma FrontierInit(calls: seq<RepCall>)
    requires calls != [] && RepFrontier(calls)
    ensures RepFrontier(calls[..|calls| - 1])
  {
    var init := calls[..|calls| - 1];
    forall i, j, a | 0 <= i < j < |init| && a in init[j].arrivals ensures LaterIsAbove(init, i, a) {
      assert LaterIsAbove(calls, i, a);
      assert calls[..i + 1] == init[..i + 1];
    }
    PrefixDistinct(Arrived(init), calls[|calls| - 1].arrivals);
  }

  lemma PrefixDistinct(a: seq<Arrival>, b: seq<Arrival>)
    requires DistinctArrivals(a + b)
    ensures DistinctArrivals(a)
  {
    forall i, j | 0 <= i < j < |a| ensures a[i].id != a[j].id {
      assert (a + b)[i] == a[i] && (a + b)[j] == a[j];
    }
  }

  // Everything that was handed out is below everything that arrives later.
  lemma EmittedBelow(ordered: seq<seq<Arrival>>, calls: seq<RepCall>, i: nat, e: Arrival, a: Arrival)
    requires IsRepRun(ordered, calls) && i < |calls| && e in calls[i].out && LaterIsAbove(calls, i, a)
    requires e in Arrived(calls[..i + 1]) && e.id != a.id
    ensures Less(e.id, a.id)
  {
    assert RepSpec(ordered[i], calls[i], ordered[i + 1]);
  }

  lemma {:induction false} EmittedBy(calls: seq<RepCall>, e: Arrival) returns (i: nat)
    requires e in Emitted(calls)
    ensures i < |calls| && e in calls[i].out
  {
    if e in calls[|calls| - 1].out {
      i := |calls| - 1;
    } else {
      i := EmittedBy(calls[..|calls| - 1], e);
    }
  }

  lemma RunInit(ordered: seq<seq<Arrival>>, calls: seq<RepCall>)
    requires IsRepRun(ordered, calls) && calls != []
    ensures IsRepRun(ordered[..|calls|], calls[..|calls| - 1])
  {
  }

  // At every point of a run, what has been handed out followed by what is waiting is all that
  // has arrived, sorted.
  lemma {:induction false} EmittedIsSorted(ordered: seq<seq<Arrival>>, calls: seq<RepCall>)
    requires IsRepRun(ordered, calls) && RepFrontier(calls)
    ensures Emitted(calls) + ordered[|calls|] == SortByClock(Arrived(calls))
    decreases |calls|
  {
    if calls != [] {
      var n := |calls| - 1;
      var init, c := calls[..n], calls[n];
      RunInit(ordered, calls);
      FrontierInit(calls);
      EmittedIsSorted(ordered[..n + 1], init);
      ArrivedSnoc(init, c);
      assert init + [c] == calls;
      NextIsSortedToo(ordered, calls);
    }
  }

  // One more call: the merged list has the right members and is sorted.
  lemma NextIsSortedToo(ordered: seq<seq<Arrival>>, calls: seq<RepCall>)
    requires IsRepRun(ordered, calls) && RepFrontier(calls) && calls != []
    requires Emitted(calls[..|calls| - 1]) + ordered[|calls| - 1] == SortByClock(Arrived(calls[..|calls| - 1]))
    ensures Emitted(calls) + ordered[|calls|] == SortByClock(Arrived(calls))
  {
    var n := |calls| - 1;
    var c, before, waiting, all := calls[n], Emitted(calls[..n]), ordered[n], Arrived(calls[..n]);
    var merged := SortByClock(waiting + c.arrivals);
    assert Emitted(calls) + ordered[n + 1] == before + merged;
    forall x ensures x in before + merged <==> x in SortByClock(all + c.arrivals) {
      SortHas(waiting + c.arrivals, x);
      SortHas(all + c.arrivals, x);
      SortHas(all, x);
      assert x in before + waiting <==> x in all;
    }
    SortSorts(all + c.arrivals);
    StillSorted(ordered, calls);
    SortedUnique(before + merged, SortByClock(all + c.arrivals));
  }

  lemma {:induction false} ArrivedBy(calls: seq<RepCall>, i: nat, e: Arrival, ordered: seq<seq<Arrival>>)
    requires IsRepRun(ordered, calls) && i < |calls|
    requires e in calls[i].out || e in ordered[i + 1]
    ensures e in Arrived(calls[..i + 1])
    decreases i
  {
    assert RepSpec(ordered[i], calls[i], ordered[i + 1]);
    SortHas(ordered[i] + calls[i].arrivals, e);
    assert e in calls[i].out + ordered[i + 1];
    assert calls[..i + 1][..i] == calls[..i];
    if e in ordered[i] && i > 0 {
      ArrivedBy(calls, i - 1, e, ordered);
    }
  }

  lemma StillSorted(ordered: seq<seq<Arrival>>, calls: seq<RepCall>)
    requires IsRepRun(ordered, calls) && RepFrontier(calls) && calls != []
    requires Emitted(calls[..|calls| - 1]) + ordered[|calls| - 1] == SortByClock(Arrived(calls[..|calls| - 1]))
    ensures SortedArrivals(Emitted(calls[..|calls| - 1])
                           + SortByClock(ordered[|calls| - 1] + calls[|calls| - 1].arrivals))
  {
    var n := |calls| - 1;
    var c, before, waiting, all := calls[n], Emitted(calls[..n]), ordered[n], Arrived(calls[..n]);
    FrontierInit(calls);
    SortSorts(all);
    forall x ensures x in before + waiting <==> x in all {
      SortHas(all, x);
    }
    assert Arrived(calls) == all + c.arrivals;
    WaitingDistinct(before, waiting, all, c.arrivals);
    SortSorts(waiting + c.arrivals);
    var merged := SortByClock(waiting + c.arrivals);
    forall e, x | e in before && x in merged ensures Less(e.id, x.id) {
      SortHas(waiting + c.arrivals, x);
      if x in waiting {
        SortedSplit(before, waiting, e, x);
      } else {
        var i := EmittedBy(calls[..n], e);
        ArrivedBy(calls, i, e, ordered);
        assert LaterIsAbove(calls, i, x);
        DistinctSplit(all, c.arrivals, e, x);
        EmittedBelow(ordered, calls, i, e, x);
      }
    }
    SortedJoin(before, merged);
  }

  lemma SortedSplit(a: seq<Arrival>, b: seq<Arrival>, e: Arrival, x: Arrival)
    requires SortedArrivals(a + b) && e in a && x in b
    ensures Less(e.id, x.id)
  {
    var i :| 0 <= i < |a| && a[i] == e;
    var j :| 0 <= j < |b| && b[j] == x;
    assert (a + b)[i] == e && (a + b)[|a| + j] == x;
  }

  lemma DistinctSplit(a: seq<Arrival>, b: seq<Arrival>, e: Arrival, x: Arrival)
    requires DistinctArrivals(a + b) && e in a && x in b
    ensures e.id != x.id
  {
    var i :| 0 <= i < |a| && a[i] == e;
    var j :| 0 <= j < |b| && b[j] == x;
    assert (a + b)[i] == e && (a + b)[|a| + j] == x;
  }

  lemma SortedJoin(a: seq<Arrival>, b: seq<Arrival>)
    requires SortedArrivals(b) && (forall i, j :: 0 <= i < j < |a| ==> Less(a[i].id, a[j].id))
    requires forall e, x :: e in a && x in b ==> Less(e.id, x.id)
    ensures SortedArrivals(a + b)
  {
  }

  lemma WaitingDistinct(before: seq<Arrival>, waiting: seq<Arrival>, all: seq<Arrival>, arrivals: seq<Arrival>)
    requires SortedArrivals(before + waiting) && DistinctArrivals(all + arrivals)
    requires forall x :: x in before + waiting ==> x in all
    ensures DistinctArrivals(waiting + arrivals) && SortedArrivals(before)
  {
    forall i, j | 0 <= i < j < |waiting + arrivals| ensures (waiting + arrivals)[i].id != (waiting + arrivals)[j].id {
      if j < |waiting| {
        assert (before + waiting)[|before| + i] == waiting[i] && (before + waiting)[|before| + j] == waiting[j];
      } else if i < |waiting| {
        assert (before + waiting)[|before| + i] == waiting[i];
        DistinctSplit(all, arrivals, waiting[i], arrivals[j - |waiting|]);
      } else {
        assert (all + arrivals)[|all| + i - |waiting|] == arrivals[i - |waiting|];
        assert (all + arrivals)[|all| + j - |waiting|] == arrivals[j - |waiting|];
      }
    }
    forall i, j | 0 <= i < j < |before| ensures Less(before[i].id, before[j].id) {
      assert (before + waiting)[i] == before[i] && (before + waiting)[j] == before[j];
    }
  }

  // Two runs that received the same messages, in whatever order, hand out the same stream.
  lemma ArrivalOrderDoesNotMatter(o1: seq<seq<Arrival>>, c1: seq<RepCall>, o2: seq<seq<Arrival>>, c2: seq<RepCall>)
    requires IsRepRun(o1, c1) && RepFrontier(c1) && IsRepRun(o2, c2) && RepFrontier(c2)
    requires forall x :: x in Arrived(c1) <==> x in Arrived(c2)
    requires o1[|c1|] == [] && o2[|c2|] == []
    ensures Emitted(c1) == Emitted(c2) && SortedArrivals(Emitted(c1))
  {
    EmittedIsSorted(o1, c1);
    EmittedIsSorted(o2, c2);
    SortSorts(Arrived(c1));
    SortSorts(Arrived(c2));
    forall x ensures x in SortByClock(Arrived(c1)) <==> x in SortByClock(Arrived(c2)) {
      SortHas(Arrived(c1), x);
      SortHas(Arrived(c2), x);
    }
    SortedUnique(SortByClock(Arrived(c1)), SortByClock(Arrived(c2)));
    assert Emitted(c1) + [] == Emitted(c1) && Emitted(c2) + [] == Emitted(c2);
  }
}
