// What the parts of one decode-ordering call do to a table's lists, as functions and lemmas:
// admitting arrived messages, sorting them, and gathering the next group of events.
module ReplaySteps {
  import opened ReplayTables

  // ---------------------------------------------------------------- admitting messages

  ghost predicate TableShape(t: Table) {
    |t.epochRanks| == |t.epochClocks|
  }

  function Inside(t: Table, list: seq<Arrival>): seq<Arrival>
    requires TableShape(t)
  {
    if list == [] then []
    else (if Within(t, list[0]) then [list[0]] else []) + Inside(t, list[1..])
  }

  function Outside(t: Table, list: seq<Arrival>): seq<Arrival>
    requires TableShape(t)
  {
    if list == [] then []
    else (if Within(t, list[0]) then [] else [list[0]]) + Outside(t, list[1..])
  }

  function LineAfter(t: Table, line: map<int, int>, list: seq<Arrival>): map<int, int>
    requires TableShape(t)
    decreases |list|
  {
    if list == [] then line
    else if Within(t, list[0]) then LineAfter(t, line[list[0].id.source := list[0].id.clock], list[1..])
    else LineAfter(t, line, list[1..])
  }

  // The next message of its sender: first in, first out.
  ghost predicate NextOfSource(r: Record, line: map<int, int>, id: Id) {
    && SortedFrom(r, 0, id)
    && LineOf(line, id.source) < id.clock
    && (forall o :: 0 <= o < |r.sorted| && r.sorted[o].source == id.source && r.sorted[o].clock < id.clock ==>
          r.sorted[o].clock <= LineOf(line, id.source))
  }

  // Messages come per sender in the order they were recorded; messages of later epochs may be among them.
  ghost predicate Legal(t: Table, r: Record, line: map<int, int>, list: seq<Arrival>)
    requires TableShape(t)
    decreases |list|
  {
    list != [] ==>
      if Within(t, list[0]) then
        NextOfSource(r, line, list[0].id) && Legal(t, r, line[list[0].id.source := list[0].id.clock], list[1..])
      else Legal(t, r, line, list[1..])
  }

  // The messages that have arrived but are not solid are exactly those the line says.
  ghost predicate Admitted(r: Record, s: nat, ordered: seq<Arrival>, line: map<int, int>) {
    DistinctArrivals(ordered) && Unsolid(r, s, ordered) && LineOk(r, s, ordered, line)
  }

  lemma HasIdSnoc(list: seq<Arrival>, e: Arrival, id: Id)
    ensures HasId(list + [e], id) <==> HasId(list, id) || e.id == id
  {
    if HasId(list, id) {
      var i :| 0 <= i < |list| && list[i].id == id;
      assert (list + [e])[i].id == id;
    }
    assert (list + [e])[|list|] == e;
  }

  lemma NewcomerIsDistinct(r: Record, s: nat, ordered: seq<Arrival>, line: map<int, int>, e: Arrival)
    requires Admitted(r, s, ordered, line) && NextOfSource(r, line, e.id)
    ensures !HasId(ordered, e.id)
    ensures SortedFrom(r, s, e.id)
  {
    var o :| 0 <= o < |r.sorted| && r.sorted[o] == e.id;
    assert !(o < s || HasId(ordered, r.sorted[o]));
  }

  lemma AdmitKeepsLine(r: Record, s: nat, ordered: seq<Arrival>, line: map<int, int>, e: Arrival)
    requires Admitted(r, s, ordered, line) && NextOfSource(r, line, e.id) && StrictlySorted(r.sorted)
    ensures LineOk(r, s, ordered + [e], line[e.id.source := e.id.clock])
  {
    forall o | 0 <= o < |r.sorted|
      ensures (o < s || HasId(ordered + [e], r.sorted[o])) <==>
              r.sorted[o].clock <= LineOf(line[e.id.source := e.id.clock], r.sorted[o].source)
    {
      HasIdSnoc(ordered, e, r.sorted[o]);
      assert r.sorted[o].source == e.id.source && r.sorted[o].clock == e.id.clock ==> r.sorted[o] == e.id;
    }
  }

  lemma AdmitOne(r: Record, s: nat, ordered: seq<Arrival>, line: map<int, int>, e: Arrival)
    requires Admitted(r, s, ordered, line) && NextOfSource(r, line, e.id) && StrictlySorted(r.sorted)
    ensures Admitted(r, s, ordered + [e], line[e.id.source := e.id.clock])
  {
    NewcomerIsDistinct(r, s, ordered, line, e);
    AdmitKeepsLine(r, s, ordered, line, e);
  }

  lemma {:induction false} AdmitAll(t: Table, r: Record, s: nat, ordered: seq<Arrival>, line: map<int, int>,
                                    list: seq<Arrival>)
    requires TableShape(t) && StrictlySorted(r.sorted)
    requires Admitted(r, s, ordered, line) && Legal(t, r, line, list)
    ensures Admitted(r, s, ordered + Inside(t, list), LineAfter(t, line, list))
    decreases |list|
  {
    if list == [] {
      assert ordered + [] == ordered;
    } else if Within(t, list[0]) {
      AdmitOne(r, s, ordered, line, list[0]);
      AdmitAll(t, r, s, ordered + [list[0]], line[list[0].id.source := list[0].id.clock], list[1..]);
      assert ordered + Inside(t, list) == ordered + [list[0]] + Inside(t, list[1..]);
    } else {
      AdmitAll(t, r, s, ordered, line, list[1..]);
      assert Inside(t, list) == Inside(t, list[1..]);
    }
  }

  // ---------------------------------------------------------------- sorting

  function InsertByClock(list: seq<Arrival>, e: Arrival): seq<Arrival> {
    if list == [] || Less(list[|list| - 1].id, e.id) then list + [e]
    else InsertByClock(list[..|list| - 1], e) + [list[|list| - 1]]
  }

  // std::list::sort with the (clock, sender) comparison.
  function SortByClock(list: seq<Arrival>): seq<Arrival> {
    if list == [] then [] else InsertByClock(SortByClock(list[..|list| - 1]), list[|list| - 1])
  }

  lemma {:induction false} InsertMembers(list: seq<Arrival>, e: Arrival, id: Id)
    ensures HasId(InsertByClock(list, e), id) <==> HasId(list, id) || e.id == id
  {
    if list == [] || Less(list[|list| - 1].id, e.id) {
      HasIdSnoc(list, e, id);
    } else {
      var init, last := list[..|list| - 1], list[|list| - 1];
      InsertMembers(init, e, id);
      HasIdSnoc(InsertByClock(init, e), last, id);
      HasIdSnoc(init, last, id);
      assert init + [last] == list;
    }
  }

  lemma {:induction false} SortMembers(list: seq<Arrival>, id: Id)
    ensures HasId(SortByClock(list), id) <==> HasId(list, id)
  {
    if list != [] {
      var init, last := list[..|list| - 1], list[|list| - 1];
      SortMembers(init, id);
      InsertMembers(SortByClock(init), last, id);
      HasIdSnoc(init, last, id);
      assert init + [last] == list;
    }
  }

  lemma {:induction false} InsertHas(list: seq<Arrival>, e: Arrival, x: Arrival)
    ensures x in InsertByClock(list, e) <==> x in list || x == e
    ensures |InsertByClock(list, e)| == |list| + 1
  {
    if !(list == [] || Less(list[|list| - 1].id, e.id)) {
      var init, last := list[..|list| - 1], list[|list| - 1];
      InsertHas(init, e, x);
      assert init + [last] == list;
    }
  }

  lemma {:induction false} SortHas(list: seq<Arrival>, x: Arrival)
    ensures x in SortByClock(list) <==> x in list
    ensures |SortByClock(list)| == |list|
  {
    if list != [] {
      var init, last := list[..|list| - 1], list[|list| - 1];
      SortHas(init, x);
      InsertHas(SortByClock(init), last, x);
      assert init + [last] == list;
    }
  }

  lemma SnocSorted(list: seq<Arrival>, e: Arrival)
    requires SortedArrivals(list) && (list == [] || Less(list[|list| - 1].id, e.id))
    ensures SortedArrivals(list + [e])
  {
  }

  lemma {:induction false} InsertSorts(list: seq<Arrival>, e: Arrival)
    requires SortedArrivals(list) && !HasId(list, e.id)
    ensures SortedArrivals(InsertByClock(list, e))
  {
    if list == [] || Less(list[|list| - 1].id, e.id) {
      SnocSorted(list, e);
    } else {
      var init, last := list[..|list| - 1], list[|list| - 1];
      assert forall i :: 0 <= i < |init| ==> init[i].id != e.id;
      InsertSorts(init, e);
      var inserted := InsertByClock(init, e);
      InsertedBelow(init, e, last);
      SnocSorted(inserted, last);
    }
  }

  lemma InsertedBelow(init: seq<Arrival>, e: Arrival, last: Arrival)
    requires (forall i :: 0 <= i < |init| ==> Less(init[i].id, last.id)) && Less(e.id, last.id)
    ensures forall i :: 0 <= i < |InsertByClock(init, e)| ==> Less(InsertByClock(init, e)[i].id, last.id)
  {
    var inserted := InsertByClock(init, e);
    forall i | 0 <= i < |inserted| ensures Less(inserted[i].id, last.id) {
      assert HasId(inserted, inserted[i].id);
      InsertMembers(init, e, inserted[i].id);
    }
  }

  lemma {:induction false} SortSorts(list: seq<Arrival>)
    requires DistinctArrivals(list)
    ensures SortedArrivals(SortByClock(list))
  {
    if list != [] {
      var init, last := list[..|list| - 1], list[|list| - 1];
      SortSorts(init);
      SortMembers(init, last.id);
      InsertSorts(SortByClock(init), last);
    }
  }

  // Sorting distinct messages puts smaller clocks first, and smaller senders where clocks are equal.
  lemma SortsByClockThenSource(list: seq<Arrival>)
    requires forall i, j :: 0 <= i < j < |list| ==>
      list[i].id.clock != list[j].id.clock || list[i].id.source != list[j].id.source
    ensures |SortByClock(list)| == |list| && forall e :: e in SortByClock(list) <==> e in list
    ensures var sorted := SortByClock(list);
      forall i, j :: 0 <= i < j < |sorted| ==>
        sorted[i].id.clock < sorted[j].id.clock
        || (sorted[i].id.clock == sorted[j].id.clock && sorted[i].id.source < sorted[j].id.source)
  {
    hide SortByClock;
    SortHas(list, Arrival(Id(0, 0), 0));
    forall e ensures e in SortByClock(list) <==> e in list {
      SortHas(list, e);
    }
    SortSorts(list);
  }

  lemma SortUnsolid(r: Record, s: nat, list: seq<Arrival>)
    requires Unsolid(r, s, list)
    ensures Unsolid(r, s, SortByClock(list))
  {
    var sorted := SortByClock(list);
    forall i | 0 <= i < |sorted| ensures SortedFrom(r, s, sorted[i].id) {
      assert HasId(sorted, sorted[i].id);
      SortMembers(list, sorted[i].id);
    }
  }

  lemma SortLine(r: Record, s: nat, list: seq<Arrival>, line: map<int, int>)
    requires LineOk(r, s, list, line)
    ensures LineOk(r, s, SortByClock(list), line)
  {
    forall o | 0 <= o < |r.sorted|
      ensures (o < s || HasId(SortByClock(list), r.sorted[o])) <==>
        r.sorted[o].clock <= LineOf(line, r.sorted[o].source)
    {
      SortMembers(list, r.sorted[o]);
    }
  }

  // ---------------------------------------------------------------- solidifying

  const COLLECTIVE_CLOCK := 3

  // Position o of the clock order has not arrived.
  predicate Pending(r: Record, line: map<int, int>, o: nat)
    requires o < |r.sorted|
  {
    r.sorted[o].clock > LineOf(line, r.sorted[o].source)
  }

  // The look-ahead bound: everything still to come is at or above `min`; while all senders are
  // in a collective, everything still to come is above what has arrived.
  ghost predicate Frontier(r: Record, line: map<int, int>, min: Id) {
    if min.clock == COLLECTIVE_CLOCK then
      forall o, p :: 0 <= o < |r.sorted| && 0 <= p < |r.sorted| && Pending(r, line, o) && !Pending(r, line, p) ==>
        Less(r.sorted[p], r.sorted[o])
    else
      forall o :: 0 <= o < |r.sorted| && Pending(r, line, o) ==> LessEq(min, r.sorted[o])
  }

  predicate Solidable(t: Table, line: map<int, int>, min: Id, e: Arrival)
    requires |t.epochRanks| == |t.epochClocks|
  {
    min.clock == COLLECTIVE_CLOCK || !Less(min, e.id) || Reached(t, line)
  }

  // The bound allows every position of the clock order between the two to be solid.
  ghost predicate AllSolidable(t: Table, r: Record, line: map<int, int>, min: Id, from: nat, to: nat)
    requires TableShape(t)
  {
    forall o :: from <= o < to && o < |r.sorted| ==> Solidable(t, line, min, Arrival(r.sorted[o], o))
  }

  // Once the epoch line is reached, every message of the table has arrived.
  lemma ReachedMeansAllArrived(t: Table, r: Record, line: map<int, int>, o: nat)
    requires ValidRecord(r) && Decoded(t, r) && Reached(t, line) && o < |r.sorted|
    ensures !Pending(r, line, o)
  {
    var i :| 0 <= i < |t.epochRanks| && t.epochRanks[i] == r.sorted[o].source;
    assert EpochEntry(r, t.epochRanks[i], t.epochClocks[i]);
  }

  // A sender's line is the clock of a recorded message, once there is one.
  ghost predicate LineRecorded(r: Record, line: map<int, int>) {
    forall rank :: rank in line ==> SortedFrom(r, 0, Id(line[rank], rank))
  }

  lemma {:induction false} LineAfterRecorded(t: Table, r: Record, line: map<int, int>, list: seq<Arrival>)
    requires TableShape(t) && LineRecorded(r, line) && Legal(t, r, line, list)
    ensures LineRecorded(r, LineAfter(t, line, list))
    decreases |list|
  {
    hide SortedFrom;
    if list != [] {
      var id := list[0].id;
      if Within(t, list[0]) {
        assert id == Id(id.clock, id.source);
        LineAfterRecorded(t, r, line[id.source := id.clock], list[1..]);
      } else {
        LineAfterRecorded(t, r, line, list[1..]);
      }
    }
  }

  // The epoch line is reached exactly when every message of the table has arrived.
  lemma ReachedIffAllArrived(t: Table, r: Record, line: map<int, int>)
    requires ValidRecord(r) && Decoded(t, r) && LineRecorded(r, line)
    ensures Reached(t, line) <==> forall o :: 0 <= o < |r.sorted| ==>
      r.sorted[o].clock <= LineOf(line, r.sorted[o].source)
  {
    hide DecodedEvents;
    if Reached(t, line) {
      forall o | 0 <= o < |r.sorted| ensures r.sorted[o].clock <= LineOf(line, r.sorted[o].source) {
        ReachedMeansAllArrived(t, r, line, o);
      }
    }
    if forall o :: 0 <= o < |r.sorted| ==> r.sorted[o].clock <= LineOf(line, r.sorted[o].source) {
      forall i | 0 <= i < |t.epochRanks| ensures LineOf(line, t.epochRanks[i]) == t.epochClocks[i] {
        EntryIsReached(t, r, line, i);
      }
    }
  }

  lemma EntryIsReached(t: Table, r: Record, line: map<int, int>, i: nat)
    requires ValidRecord(r) && Decoded(t, r) && LineRecorded(r, line) && i < |t.epochRanks|
    requires forall o :: 0 <= o < |r.sorted| ==> r.sorted[o].clock <= LineOf(line, r.sorted[o].source)
    ensures LineOf(line, t.epochRanks[i]) == t.epochClocks[i]
  {
    hide DecodedEvents;
    var rank := t.epochRanks[i];
    assert EpochEntry(r, rank, t.epochClocks[i]);
    var last :| 0 <= last < |r.sorted| && r.sorted[last] == Id(t.epochClocks[i], rank);
    assert rank in line && SortedFrom(r, 0, Id(line[rank], rank));
    var o :| 0 <= o < |r.sorted| && r.sorted[o] == Id(line[rank], rank);
  }

  lemma ValidIsSorted(r: Record)
    requires ValidRecord(r)
    ensures StrictlySorted(r.sorted)
  {
  }

  lemma SolidableIsFinal(t: Table, r: Record, s: nat, ordered: seq<Arrival>, line: map<int, int>, min: Id, i: nat)
    requires ValidRecord(r) && Decoded(t, r) && LineOk(r, s, ordered, line) && Unsolid(r, s, ordered)
    requires Frontier(r, line, min) && i < |ordered| && Solidable(t, line, min, ordered[i])
    ensures NothingBelow(r, s, ordered, ordered[i].id)
  {
    hide ValidRecord, DecodedEvents, Reached;
    ValidIsSorted(r);
    forall o | s <= o < |r.sorted| && !HasId(ordered, r.sorted[o])
      ensures Less(ordered[i].id, r.sorted[o])
    {
      assert Pending(r, line, o);
      var p :| s <= p < |r.sorted| && r.sorted[p] == ordered[i].id;
      assert HasId(ordered, r.sorted[p]);
      assert !Pending(r, line, p);
      if Reached(t, line) {
        ReachedMeansAllArrived(t, r, line, o);
      }
    }
  }

  lemma TailUnsolid(r: Record, s: nat, ordered: seq<Arrival>, k: nat)
    requires StrictlySorted(r.sorted) && SortedArrivals(ordered) && Unsolid(r, s, ordered)
    requires k <= |ordered| && s + k <= |r.sorted| && forall i :: 0 <= i < k ==> ordered[i].id == r.sorted[s + i]
    ensures Unsolid(r, s + k, ordered[k..])
  {
    var rest := ordered[k..];
    forall i | 0 <= i < |rest| ensures SortedFrom(r, s + k, rest[i].id) {
      assert rest[i] == ordered[k + i];
      var o :| s <= o < |r.sorted| && r.sorted[o] == ordered[k + i].id;
      PastPrefix(r, s, ordered, k, k + i, o);
    }
  }

  lemma PastPrefix(r: Record, s: nat, ordered: seq<Arrival>, k: nat, j: nat, o: nat)
    requires SortedArrivals(ordered) && k <= j < |ordered| && s <= o < |r.sorted| && r.sorted[o] == ordered[j].id
    requires s + k <= |r.sorted| && forall i :: 0 <= i < k ==> ordered[i].id == r.sorted[s + i]
    ensures o >= s + k
  {
    var i := o - s;
    assert o == s + i;
    assert i < k ==> Less(ordered[i].id, ordered[j].id);
  }

  lemma TailLine(r: Record, s: nat, ordered: seq<Arrival>, line: map<int, int>, k: nat)
    requires StrictlySorted(r.sorted) && SortedArrivals(ordered) && LineOk(r, s, ordered, line)
    requires k <= |ordered| && s + k <= |r.sorted| && forall i :: 0 <= i < k ==> ordered[i].id == r.sorted[s + i]
    ensures LineOk(r, s + k, ordered[k..], line)
  {
    forall o | 0 <= o < |r.sorted|
      ensures (o < s + k || HasId(ordered[k..], r.sorted[o])) <==> (o < s || HasId(ordered, r.sorted[o]))
    {
      TailMember(r, s, ordered, k, o);
    }
  }

  lemma TailMember(r: Record, s: nat, ordered: seq<Arrival>, k: nat, o: nat)
    requires StrictlySorted(r.sorted) && SortedArrivals(ordered) && o < |r.sorted|
    requires k <= |ordered| && s + k <= |r.sorted| && forall i :: 0 <= i < k ==> ordered[i].id == r.sorted[s + i]
    ensures (o < s + k || HasId(ordered[k..], r.sorted[o])) <==> (o < s || HasId(ordered, r.sorted[o]))
  {
    if o < s + k {
      if o >= s {
        var i := o - s;
        assert ordered[i].id == r.sorted[s + i];
      }
    } else if HasId(ordered, r.sorted[o]) {
      var j :| 0 <= j < |ordered| && ordered[j].id == r.sorted[o];
      assert j < k ==> Less(r.sorted[s + j], r.sorted[o]);
      assert ordered[k..][j - k] == ordered[j];
    }
  }
}
