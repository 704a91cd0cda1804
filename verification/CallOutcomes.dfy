// The specification of a decode-ordering call leaves no choice: state, messages, bound and local
// clock determine what comes out and what the table keeps.
module CallOutcomes {
  import opened Options
  import opened ReplayTables
  import opened ReplaySteps
  import opened ReplayGroups
  import opened DecodeOrdering

  // Same messages, in the same order.
  ghost predicate SameIds(a: seq<Arrival>, b: seq<Arrival>) {
    |a| == |b| && forall i :: 0 <= i < |a| ==> a[i].id == b[i].id
  }

  lemma {:induction false} SortedSame(a: seq<Arrival>, b: seq<Arrival>)
    requires SortedArrivals(a) && SortedArrivals(b) && (forall id :: HasId(a, id) <==> HasId(b, id))
    ensures SameIds(a, b)
    decreases |a|
  {
    if a != [] && b != [] {
      LastIsLast(a, b);
      LastIsLast(b, a);
      var a', b' := a[..|a| - 1], b[..|b| - 1];
      forall id ensures HasId(a', id) <==> HasId(b', id) {
        WithoutLast(a, id);
        WithoutLast(b, id);
      }
      SortedSame(a', b');
    } else if a != [] {
      assert HasId(a, a[0].id);
    } else if b != [] {
      assert HasId(b, b[0].id);
    }
  }

  lemma LastIsLast(a: seq<Arrival>, b: seq<Arrival>)
    requires a != [] && SortedArrivals(a) && SortedArrivals(b) && (forall id :: HasId(b, id) ==> HasId(a, id))
    ensures b != [] ==> LessEq(b[|b| - 1].id, a[|a| - 1].id)
  {
    if b != [] {
      assert HasId(b, b[|b| - 1].id);
      var i :| 0 <= i < |a| && a[i].id == b[|b| - 1].id;
    }
  }

  lemma WithoutLast(a: seq<Arrival>, id: Id)
    requires a != [] && SortedArrivals(a)
    ensures HasId(a[..|a| - 1], id) <==> HasId(a, id) && id != a[|a| - 1].id
  {
    if HasId(a, id) && id != a[|a| - 1].id {
      var i :| 0 <= i < |a| && a[i].id == id;
      assert a[..|a| - 1][i].id == id;
    }
  }

  // The waiting messages are those of the table that have arrived and are not solid.
  lemma OrderedMembers(t: Table, r: Record, st: State, id: Id)
    requires Inv(t, r, st)
    ensures HasId(st.ordered, id) <==>
      exists o :: SolidEnd(st) <= o < |r.sorted| && r.sorted[o] == id && !Pending(r, st.line, o)
  {
    hide Decoded, UnmatchedOk, SolidOk, Boundary, SortedArrivals;
    if HasId(st.ordered, id) {
      var i :| 0 <= i < |st.ordered| && st.ordered[i].id == id;
      assert SortedFrom(r, SolidEnd(st), id);
      var o :| SolidEnd(st) <= o < |r.sorted| && r.sorted[o] == id;
      assert !Pending(r, st.line, o);
    }
  }

  // If the next of the clock order has arrived, it is the first of the waiting messages.
  lemma NextIsFirst(t: Table, r: Record, st: State)
    requires Inv(t, r, st) && SolidEnd(st) < |r.sorted| && !Pending(r, st.line, SolidEnd(st))
    ensures st.ordered != [] && st.ordered[0].id == r.sorted[SolidEnd(st)]
  {
    hide Inv;
    InvGives(t, r, st);
    InvSorted(t, r, st);
    var s := SolidEnd(st);
    OrderedMembers(t, r, st, r.sorted[s]);
    var i :| 0 <= i < |st.ordered| && st.ordered[i].id == r.sorted[s];
    OrderedMembers(t, r, st, st.ordered[0].id);
    assert HasId(st.ordered, st.ordered[0].id);
    var o :| s <= o < |r.sorted| && r.sorted[o] == st.ordered[0].id;
    LeastIsNext(r, s, o, st.ordered, i);
  }

  lemma LeastIsNext(r: Record, s: nat, o: nat, ordered: seq<Arrival>, i: nat)
    requires StrictlySorted(r.sorted) && SortedArrivals(ordered) && s <= o < |r.sorted| && i < |ordered|
    requires ordered[0].id == r.sorted[o] && ordered[i].id == r.sorted[s]
    ensures ordered[0].id == r.sorted[s]
  {
    assert i == 0 || Less(ordered[0].id, ordered[i].id);
  }

  lemma SolidHasArrived(t: Table, r: Record, st: State, o: nat)
    requires Inv(t, r, st) && o < SolidEnd(st)
    ensures o < |r.sorted| && !Pending(r, st.line, o)
  {
    hide Decoded, UnmatchedOk, Boundary;
  }

  // Neither of two calls can have made more solid than the other.
  lemma SolidNotShorter(t: Table, r: Record, st: State, c: Call, one: State, two: State)
    requires Inv(t, r, st) && Inv(t, r, one) && Inv(t, r, two) && one.line == two.line
    requires one.ordered != [] ==> !Solidable(t, one.line, c.min, one.ordered[0])
    requires AllSolidable(t, r, two.line, c.min, SolidEnd(st), SolidEnd(two)) && SolidEnd(st) <= SolidEnd(one)
    ensures SolidEnd(one) >= SolidEnd(two)
  {
    hide Inv, Reached;
    InvGives(t, r, two);
    var s := SolidEnd(one);
    if s < SolidEnd(two) {
      SolidHasArrived(t, r, two, s);
      NextIsFirst(t, r, one);
    }
  }

  // The two states hold the same: only the order numbers of waiting messages, which mean nothing
  // until they are solid, may differ.
  ghost predicate SameState(one: State, two: State) {
    && one.replayed == two.replayed && one.unmatched == two.unmatched && one.line == two.line
    && one.solid == two.solid && SameIds(one.ordered, two.ordered)
  }

  lemma SameSolid(t: Table, r: Record, one: State, two: State)
    requires Inv(t, r, one) && Inv(t, r, two) && one.line == two.line
    requires one.replayed == two.replayed && SolidEnd(one) == SolidEnd(two)
    ensures one.solid == two.solid && SameIds(one.ordered, two.ordered)
  {
    hide ValidRecord, Decoded, UnmatchedOk, Boundary, SortedArrivals, Unsolid, LineOk;
    forall id ensures HasId(one.ordered, id) <==> HasId(two.ordered, id) {
      OrderedMembers(t, r, one, id);
      OrderedMembers(t, r, two, id);
    }
    InvSorted(t, r, one);
    InvSorted(t, r, two);
    SortedSame(one.ordered, two.ordered);
  }

  lemma InvSorted(t: Table, r: Record, st: State)
    requires Inv(t, r, st)
    ensures SortedArrivals(st.ordered)
  {
  }

  lemma GroupIsDetermined(t: Table, r: Record, st: State, c: Call, one: State, n: nat, d: Call, two: State, m: nat)
    requires Inv(t, r, st) && Inv(t, r, one) && Inv(t, r, two)
    requires c.arrivals == d.arrivals && c.min == d.min && c.local == d.local
    requires GroupStep(t, r, st, c, one, n) && GroupStep(t, r, st, d, two, m)
    ensures c.out == d.out && c.rest == d.rest && c.interim == d.interim && SameState(one, two)
  {
    hide Inv, GroupStep, Ready, IsGroup, Solidable, AllSolidable, LineAfter, Outside, SameIds;
    InvGives(t, r, st);
    StepGives(t, r, st, c, one, n);
    StepGives(t, r, st, d, two, m);
    GroupIsUnique(r.events, st.replayed, n, m);
    SolidNotShorter(t, r, st, c, one, two);
    SolidNotShorter(t, r, st, c, two, one);
    GroupOutcome(t, r, st, c, one, n);
    GroupOutcome(t, r, st, d, two, n);
    InterimsAgree(t, r, st, c, one, d, two, n);
    SameSolid(t, r, one, two);
  }

  lemma StepGives(t: Table, r: Record, st: State, c: Call, st': State, n: nat)
    requires Inv(t, r, st) && GroupStep(t, r, st, c, st', n)
    ensures TableShape(t) && IsGroup(r.events, st.replayed, n) && st'.line == LineAfter(t, st.line, c.arrivals)
    ensures SolidEnd(st) <= SolidEnd(st') && AllSolidable(t, r, st'.line, c.min, SolidEnd(st), SolidEnd(st'))
    ensures st'.ordered != [] ==> !Solidable(t, st'.line, c.min, st'.ordered[0])
  {
    hide Ready, IsGroup, Solidable, AllSolidable, LineAfter, Outside;
  }

  // What comes out depends only on how far the solid prefix reaches.
  lemma GroupOutcome(t: Table, r: Record, st: State, c: Call, st': State, n: nat)
    requires Inv(t, r, st) && GroupStep(t, r, st, c, st', n)
    ensures TableShape(t) && ValidRecord(r) && st.replayed + n <= |r.events|
    ensures c.rest == Outside(t, c.arrivals) && st'.unmatched == st.unmatched
    ensures c.out == if Ready(r, st.replayed, n, SolidEnd(st')) then r.events[st.replayed..st.replayed + n] else []
    ensures st'.replayed == st.replayed + |c.out|
  {
    hide Inv, Solidable, AllSolidable, LineAfter, Ready, InterimOk;
    InvGives(t, r, st);
  }

  // And so does the interim clock.
  lemma InterimsAgree(t: Table, r: Record, st: State, c: Call, one: State, d: Call, two: State, n: nat)
    requires Inv(t, r, st) && GroupStep(t, r, st, c, one, n) && GroupStep(t, r, st, d, two, n)
    requires c.min == d.min && c.local == d.local && SolidEnd(one) == SolidEnd(two)
    ensures c.interim == d.interim
  {
    hide Inv, Solidable, AllSolidable, LineAfter, Outside, Ready, IsGroup, Ticks;
  }

  // Two calls in the same state with the same messages, bound and local clock hand out the same,
  // leave the same, report the same and expose the same.
  lemma CallIsDetermined(t: Table, r: Record, st: State, c: Call, one: State, d: Call, two: State)
    requires Inv(t, r, st) && CallSpec(t, r, st, c, one) && CallSpec(t, r, st, d, two)
    requires c.arrivals == d.arrivals && c.min == d.min && c.local == d.local
    ensures c == d && SameState(one, two)
  {
    hide Inv, GroupStep;
    if !DecodedAll(t, st) && st.replayed !in st.unmatched {
      var n :| GroupStep(t, r, st, c, one, n);
      var m :| GroupStep(t, r, st, d, two, m);
      GroupIsDetermined(t, r, st, c, one, n, d, two, m);
    }
  }
}
