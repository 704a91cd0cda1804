// One matching set of one chunk: what was recorded, what is read back, and the state replay
// keeps for it. The invariant says the solid list is exactly the not yet replayed part of a
// prefix of the clock-sorted order, whatever order messages arrived in.
module ReplayTables {

  // Messages are ordered by Lamport clock, then by sender.
  datatype Id = Id(clock: int, source: int)

  predicate Less(a: Id, b: Id) {
    a.clock < b.clock || (a.clock == b.clock && a.source < b.source)
  }

  predicate LessEq(a: Id, b: Id) {
    a == b || Less(a, b)
  }

  // An event handed to the application: `count` failed tests, or one matched receive.
  datatype Event = Unmatched(count: nat) | Matched(id: Id, withNext: bool, index: int)

  // A received message waiting to be replayed; its clock order is -1 until it is solid.
  datatype Arrival = Arrival(id: Id, clockOrder: int)

  // A table as recorded: matched events in observed order, failed tests by position, the ids in
  // clock order, and the clock order of every event.
  datatype Record = Record(events: seq<Event>, unmatched: map<nat, nat>, sorted: seq<Id>, perm: seq<nat>)

  ghost predicate StrictlySorted(ids: seq<Id>) {
    forall i, j :: 0 <= i < j < |ids| ==> Less(ids[i], ids[j])
  }

  // No with_next group is open between position i - 1 and i.
  predicate Boundary(r: Record, i: nat) {
    i == 0 || (i <= |r.events| && r.events[i - 1].Matched? && !r.events[i - 1].withNext)
  }

  ghost predicate ValidRecord(r: Record) {
    && |r.sorted| == |r.perm| == |r.events|
    && StrictlySorted(r.sorted)
    && (forall o :: 0 <= o < |r.sorted| ==> r.sorted[o].clock > 0)
    && (forall k :: 0 <= k < |r.events| ==>
          r.perm[k] < |r.sorted| && r.events[k].Matched? && r.events[k].id == r.sorted[r.perm[k]])
    && Boundary(r, |r.events|)
    && (forall i :: i in r.unmatched ==> i <= |r.events| && Boundary(r, i))
  }

  // A table as decoded from a chunk.
  datatype Table = Table(count: nat, epochRanks: seq<int>, epochClocks: seq<int>,
                         withNext: seq<bool>, matchedIndex: seq<int>, indices: seq<int>)

  // Position i of the epoch line: the last clock of one sender in this table.
  ghost predicate EpochEntry(r: Record, rank: int, clock: int) {
    && (exists o :: 0 <= o < |r.sorted| && r.sorted[o] == Id(clock, rank))
    && (forall o :: 0 <= o < |r.sorted| && r.sorted[o].source == rank ==> r.sorted[o].clock <= clock)
  }

  ghost predicate DecodedEvents(t: Table, r: Record)
    requires ValidRecord(r)
  {
    && t.count == |r.events| == |t.indices| == |t.matchedIndex|
    && (forall k :: 0 <= k < t.count ==> t.indices[r.perm[k]] == k)
    && (forall o :: 0 <= o < t.count ==> 0 <= t.indices[o] < t.count && r.perm[t.indices[o]] == o)
    && (forall k :: 0 <= k < t.count ==> t.matchedIndex[k] == r.events[k].index)
    && (t.withNext == [] || |t.withNext| == t.count)
    && (forall k :: 0 <= k < t.count ==> r.events[k].withNext == (t.withNext != [] && t.withNext[k]))
  }

  ghost predicate DecodedEpoch(t: Table, r: Record) {
    && |t.epochRanks| == |t.epochClocks|
    && (forall i, j :: 0 <= i < j < |t.epochRanks| ==> t.epochRanks[i] != t.epochRanks[j])
    && (forall i :: 0 <= i < |t.epochRanks| ==> EpochEntry(r, t.epochRanks[i], t.epochClocks[i]))
    && (forall o :: 0 <= o < |r.sorted| ==> r.sorted[o].source in t.epochRanks)
  }

  // A table that decoding made from a record.
  ghost predicate Decoded(t: Table, r: Record)
    requires ValidRecord(r)
  {
    DecodedEvents(t, r) && DecodedEpoch(t, r)
  }

  // Maps default to 0, as operator[] of the source's unordered_map does.
  function LineOf(line: map<int, int>, rank: int): int {
    if rank in line then line[rank] else 0
  }

  function EpochLine(t: Table, rank: int): int
    requires |t.epochRanks| == |t.epochClocks|
  {
    EpochLineFrom(t, rank, 0)
  }

  function EpochLineFrom(t: Table, rank: int, i: nat): int
    requires |t.epochRanks| == |t.epochClocks|
    decreases |t.epochRanks| - i
  {
    if i >= |t.epochRanks| then 0
    else if t.epochRanks[i] == rank then t.epochClocks[i]
    else EpochLineFrom(t, rank, i + 1)
  }

  // within_epoch
  predicate Within(t: Table, e: Arrival)
    requires |t.epochRanks| == |t.epochClocks|
  {
    e.id.clock <= EpochLine(t, e.id.source)
  }

  // is_reached_epoch_line
  predicate Reached(t: Table, line: map<int, int>)
    requires |t.epochRanks| == |t.epochClocks|
  {
    forall i :: 0 <= i < |t.epochRanks| ==> LineOf(line, t.epochRanks[i]) == t.epochClocks[i]
  }

  datatype State = State(replayed: nat, unmatched: map<nat, nat>, ordered: seq<Arrival>,
                         solid: seq<Arrival>, line: map<int, int>)

  // is_decoded_all
  predicate DecodedAll(t: Table, st: State) {
    st.unmatched == map[] && !(st.replayed < t.count && t.count != 0)
  }

  // Clock-sorted positions below `s` that are still to be replayed.
  function Waiting(t: Table, r: Record, s: nat, replayed: nat): seq<Arrival>
    requires s <= |r.sorted| && s <= |t.indices|
  {
    if s == 0 then []
    else
      Waiting(t, r, s - 1, replayed)
      + (if t.indices[s - 1] >= replayed then [Arrival(r.sorted[s - 1], s - 1)] else [])
  }

  ghost predicate HasId(list: seq<Arrival>, id: Id) {
    exists i :: 0 <= i < |list| && list[i].id == id
  }

  ghost predicate SortedArrivals(list: seq<Arrival>) {
    forall i, j :: 0 <= i < j < |list| ==> Less(list[i].id, list[j].id)
  }

  ghost predicate SortedFrom(r: Record, s: nat, id: Id) {
    exists o :: s <= o < |r.sorted| && r.sorted[o] == id
  }

  // Every listed message belongs to the table and is not solid yet.
  ghost predicate Unsolid(r: Record, s: nat, list: seq<Arrival>) {
    forall i :: 0 <= i < |list| ==> SortedFrom(r, s, list[i].id)
  }

  ghost predicate DistinctArrivals(list: seq<Arrival>) {
    forall i, j :: 0 <= i < j < |list| ==> list[i].id != list[j].id
  }

  // A message has arrived exactly when its sender's line has reached its clock.
  ghost predicate LineOk(r: Record, s: nat, ordered: seq<Arrival>, line: map<int, int>) {
    forall o :: 0 <= o < |r.sorted| ==>
      ((o < s || HasId(ordered, r.sorted[o])) <==> r.sorted[o].clock <= LineOf(line, r.sorted[o].source))
  }

  ghost predicate UnmatchedOk(r: Record, st: State) {
    && (forall i :: i in st.unmatched ==> i >= st.replayed && i in r.unmatched && st.unmatched[i] == r.unmatched[i])
    && (forall i :: i in r.unmatched && i > st.replayed ==> i in st.unmatched)
  }

  // The events before `replayed` have been replayed, the first `s` of clock order are solid.
  ghost predicate SolidOk(t: Table, r: Record, s: nat, replayed: nat, solid: seq<Arrival>)
    requires ValidRecord(r) && Decoded(t, r)
  {
    && replayed <= |r.events| && s <= |r.sorted| && |solid| + replayed == s
    && (forall k :: 0 <= k < replayed ==> r.perm[k] < s)
    && solid == Waiting(t, r, s, replayed)
  }

  function SolidEnd(st: State): nat {
    st.replayed + |st.solid|
  }

  ghost predicate Inv(t: Table, r: Record, st: State) {
    && ValidRecord(r) && Decoded(t, r)
    && SolidOk(t, r, SolidEnd(st), st.replayed, st.solid)
    && Boundary(r, st.replayed)
    && UnmatchedOk(r, st)
    && SortedArrivals(st.ordered) && Unsolid(r, SolidEnd(st), st.ordered)
    && LineOk(r, SolidEnd(st), st.ordered, st.line)
  }

  // ---------------------------------------------------------------- the recorded stream

  // What is left to replay: failed tests recorded before position i, then event i, and so on.
  function StreamFrom(events: seq<Event>, unmatched: map<nat, nat>, i: nat): seq<Event>
    decreases |events| - i
  {
    (if i in unmatched then [Unmatched(unmatched[i])] else [])
    + (if i < |events| then [events[i]] + StreamFrom(events, unmatched, i + 1) else [])
  }

  function Stream(r: Record): seq<Event> {
    StreamFrom(r.events, r.unmatched, 0)
  }

  function Remaining(r: Record, st: State): seq<Event> {
    StreamFrom(r.events, st.unmatched, st.replayed)
  }

  lemma {:induction false} StreamFrame(events: seq<Event>, u1: map<nat, nat>, u2: map<nat, nat>, i: nat)
    requires forall k :: k >= i ==> (k in u1 <==> k in u2)
    requires forall k :: k >= i && k in u1 ==> u1[k] == u2[k]
    ensures StreamFrom(events, u1, i) == StreamFrom(events, u2, i)
    decreases |events| - i
  {
    if i < |events| {
      StreamFrame(events, u1, u2, i + 1);
    }
  }

  // Taking the failed tests at the front of the stream.
  lemma StreamUnmatched(events: seq<Event>, unmatched: map<nat, nat>, i: nat)
    requires i in unmatched
    ensures StreamFrom(events, unmatched, i) == [Unmatched(unmatched[i])] + StreamFrom(events, unmatched - {i}, i)
  {
    if i < |events| {
      StreamFrame(events, unmatched, unmatched - {i}, i + 1);
    }
  }

  // Taking a run of matched events with no failed tests in between.
  lemma {:induction false} StreamGroup(events: seq<Event>, unmatched: map<nat, nat>, i: nat, n: nat)
    requires i + n <= |events|
    requires forall k :: i <= k < i + n ==> k !in unmatched
    ensures StreamFrom(events, unmatched, i) == events[i..i + n] + StreamFrom(events, unmatched, i + n)
    decreases n
  {
    if n > 0 {
      StreamGroup(events, unmatched, i + 1, n - 1);
      assert events[i..i + n] == [events[i]] + events[i + 1..i + n];
    } else {
      assert events[i..i + n] == [];
    }
  }

  lemma {:induction false} StreamEmpty(events: seq<Event>, unmatched: map<nat, nat>, i: nat)
    requires i <= |events| && StreamFrom(events, unmatched, i) == []
    ensures i == |events| && i !in unmatched
  {
  }

  lemma NoKeys(m: map<nat, nat>)
    requires forall i :: i !in m
    ensures m == map[]
  {
    assert m.Keys == {};
  }

  lemma NothingAfterTheLast(r: Record, st: State)
    requires UnmatchedOk(r, st) && forall i :: i in r.unmatched ==> i <= |r.events|
    requires st.replayed >= |r.events| && st.replayed !in st.unmatched
    ensures st.unmatched == map[]
  {
    forall i ensures i !in st.unmatched {
    }
    NoKeys(st.unmatched);
  }

  // A table is decoded exactly when nothing remains of its stream.
  lemma DecodedIffNothingRemains(t: Table, r: Record, st: State)
    requires t.count == |r.events| && st.replayed <= |r.events| && UnmatchedOk(r, st)
    requires forall i :: i in r.unmatched ==> i <= |r.events|
    ensures DecodedAll(t, st) <==> Remaining(r, st) == []
  {
    if Remaining(r, st) == [] {
      StreamEmpty(r.events, st.unmatched, st.replayed);
      NothingAfterTheLast(r, st);
    }
  }

  // ---------------------------------------------------------------- the solid list

  lemma {:induction false} WaitingMembers(t: Table, r: Record, s: nat, replayed: nat, e: Arrival)
    requires s <= |r.sorted| && s <= |t.indices|
    ensures e in Waiting(t, r, s, replayed) <==>
            0 <= e.clockOrder < s && t.indices[e.clockOrder] >= replayed && e.id == r.sorted[e.clockOrder]
  {
    if s > 0 {
      WaitingMembers(t, r, s - 1, replayed, e);
    }
  }

  // Making the next sorted position solid: it cannot have been replayed already.
  lemma WaitingGrows(t: Table, r: Record, s: nat, replayed: nat)
    requires ValidRecord(r) && Decoded(t, r) && s < |r.sorted|
    requires forall k :: 0 <= k < replayed <= |r.events| ==> r.perm[k] < s
    requires replayed <= |r.events|
    ensures Waiting(t, r, s + 1, replayed) == Waiting(t, r, s, replayed) + [Arrival(r.sorted[s], s)]
  {
    assert r.perm[t.indices[s]] == s;
  }

  function RemoveEvent(list: seq<Arrival>, e: Arrival): seq<Arrival> {
    if list == [] then []
    else RemoveEvent(list[..|list| - 1], e) + (if list[|list| - 1] == e then [] else [list[|list| - 1]])
  }

  lemma RemoveEventSnoc(list: seq<Arrival>, last: Arrival, e: Arrival)
    ensures RemoveEvent(list + [last], e) == RemoveEvent(list, e) + (if last == e then [] else [last])
  {
    assert (list + [last])[..|list|] == list;
  }

  // Replaying event `replayed` takes exactly its arrival out of the solid list.
  lemma {:induction false} WaitingShrinks(t: Table, r: Record, s: nat, replayed: nat, o: nat)
    requires s <= |r.sorted| && s <= |t.indices| && o < |r.sorted|
    requires forall k :: 0 <= k < s ==> (t.indices[k] == replayed <==> k == o)
    ensures RemoveEvent(Waiting(t, r, s, replayed), Arrival(r.sorted[o], o)) == Waiting(t, r, s, replayed + 1)
    ensures |Waiting(t, r, s, replayed)| == |Waiting(t, r, s, replayed + 1)| + (if o < s then 1 else 0)
  {
    if s > 0 {
      var last := s - 1;
      WaitingShrinks(t, r, last, replayed, o);
      var init, rest := Waiting(t, r, last, replayed), Waiting(t, r, last, replayed + 1);
      if t.indices[last] >= replayed {
        RemoveEventSnoc(init, Arrival(r.sorted[last], last), Arrival(r.sorted[o], o));
        assert rest + [] == rest;
      } else {
        assert init + [] == init && rest + [] == rest;
      }
    }
  }

  // ---------------------------------------------------------------- solidifying

  // Every message of the table that has not arrived is above `id`.
  ghost predicate NothingBelow(r: Record, s: nat, ordered: seq<Arrival>, id: Id) {
    forall o :: s <= o < |r.sorted| && !HasId(ordered, r.sorted[o]) ==> Less(id, r.sorted[o])
  }

  // If everything that can still come is above the first k waiting messages, they are the next
  // k of the sorted order: their order is final.
  lemma {:induction false} SolidPrefix(r: Record, s: nat, ordered: seq<Arrival>, k: nat)
    requires ValidRecord(r) && s <= |r.sorted| && k <= |ordered|
    requires SortedArrivals(ordered) && Unsolid(r, s, ordered)
    requires forall i :: 0 <= i < k ==> NothingBelow(r, s, ordered, ordered[i].id)
    ensures s + k <= |r.sorted|
    ensures forall i :: 0 <= i < k ==> ordered[i].id == r.sorted[s + i]
    decreases k
  {
    if k > 0 {
      SolidPrefix(r, s, ordered, k - 1);
      NextIsSorted(r, s, ordered, k - 1);
    }
  }

  // An arrived position cannot be passed over by a higher one.
  lemma NotBeforeNext(r: Record, s: nat, ordered: seq<Arrival>, k: nat, o: nat)
    requires StrictlySorted(r.sorted) && k < |ordered| && s <= o < |r.sorted| && r.sorted[o] == ordered[k].id
    requires SortedArrivals(ordered) && s + k <= |r.sorted|
    requires forall i :: 0 <= i < k ==> ordered[i].id == r.sorted[s + i]
    ensures o >= s + k
  {
    var i := o - s;
    assert o == s + i;
    assert i < k ==> Less(ordered[i].id, ordered[k].id);
  }

  lemma NotAfterNext(r: Record, s: nat, ordered: seq<Arrival>, k: nat, o: nat)
    requires StrictlySorted(r.sorted) && k < |ordered| && s <= o < |r.sorted| && r.sorted[o] == ordered[k].id
    requires SortedArrivals(ordered) && s + k <= |r.sorted|
    requires forall i :: 0 <= i < k ==> ordered[i].id == r.sorted[s + i]
    requires NothingBelow(r, s, ordered, ordered[k].id)
    ensures o <= s + k
  {
    if s + k < |r.sorted| {
      forall j | 0 <= j < |ordered| && ordered[j].id == r.sorted[s + k] ensures j >= k {
        assert j < k ==> Less(r.sorted[s + j], r.sorted[s + k]);
      }
      assert o > s + k ==> Less(r.sorted[s + k], r.sorted[o]);
    }
  }

  lemma NextIsSorted(r: Record, s: nat, ordered: seq<Arrival>, k: nat)
    requires StrictlySorted(r.sorted) && k < |ordered| && s + k <= |r.sorted|
    requires SortedArrivals(ordered) && Unsolid(r, s, ordered)
    requires forall i :: 0 <= i < k ==> ordered[i].id == r.sorted[s + i]
    requires NothingBelow(r, s, ordered, ordered[k].id)
    ensures s + k < |r.sorted| && ordered[k].id == r.sorted[s + k]
  {
    var o :| s <= o < |r.sorted| && r.sorted[o] == ordered[k].id;
    NotBeforeNext(r, s, ordered, k, o);
    NotAfterNext(r, s, ordered, k, o);
  }
}
