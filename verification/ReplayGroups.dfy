// The next group of events: which arrivals fill its slots, and what the group does to the
// local clock.
module ReplayGroups {
  import opened ReplayTables

  // Events from i up to and including the first without with_next.
  ghost predicate IsGroup(events: seq<Event>, i: nat, n: nat) {
    && n >= 1 && i + n <= |events|
    && (forall k :: i <= k < i + n ==> events[k].Matched? && (events[k].withNext <==> k < i + n - 1))
  }

  lemma GroupIsUnique(events: seq<Event>, i: nat, n: nat, m: nat)
    requires IsGroup(events, i, n) && IsGroup(events, i, m)
    ensures n == m
  {
    assert events[i + n - 1].Matched? && events[i + m - 1].Matched?;
  }

  // No failed tests are recorded inside a group, and the group ends at a boundary.
  lemma NothingInsideGroup(r: Record, st: State, n: nat)
    requires ValidRecord(r) && UnmatchedOk(r, st) && IsGroup(r.events, st.replayed, n)
    requires st.replayed !in st.unmatched
    ensures forall k :: st.replayed <= k < st.replayed + n ==> k !in st.unmatched
    ensures Boundary(r, st.replayed + n)
  {
    forall k | st.replayed <= k < st.replayed + n ensures k !in st.unmatched {
    }
    assert !r.events[st.replayed + n - 1].withNext;
  }

  // ---------------------------------------------------------------- slots

  datatype Slot = Empty | Filled(event: Arrival)

  // The arrival that event k stands for.
  function Target(r: Record, k: nat): Arrival
    requires k < |r.perm| && r.perm[k] < |r.sorted|
  {
    Arrival(r.sorted[r.perm[k]], r.perm[k])
  }

  // The group's arrivals among `seen` are in their slots, the other slots are empty.
  ghost predicate SlotsHold(r: Record, i: nat, slots: seq<Slot>, seen: seq<Arrival>)
    requires ValidRecord(r) && i + |slots| <= |r.events|
  {
    forall p :: 0 <= p < |slots| ==>
      slots[p] == if Target(r, i + p) in seen then Filled(Target(r, i + p)) else Empty
  }

  function NumFilled(slots: seq<Slot>): (n: nat)
    ensures n <= |slots|
    ensures n == |slots| <==> forall p :: 0 <= p < |slots| ==> slots[p].Filled?
  {
    if slots == [] then 0
    else NumFilled(slots[..|slots| - 1]) + (if slots[|slots| - 1].Filled? then 1 else 0)
  }

  lemma {:induction false} FillCounts(slots: seq<Slot>, p: nat, e: Arrival)
    requires p < |slots| && slots[p] == Empty
    ensures NumFilled(slots[p := Filled(e)]) == NumFilled(slots) + 1
  {
    var last := |slots| - 1;
    if p < last {
      FillCounts(slots[..last], p, e);
      assert slots[p := Filled(e)][..last] == slots[..last][p := Filled(e)];
    } else {
      assert slots[p := Filled(e)][..last] == slots[..last];
    }
  }

  lemma {:induction false} NoneFilled(slots: seq<Slot>)
    requires forall p :: 0 <= p < |slots| ==> slots[p] == Empty
    ensures NumFilled(slots) == 0
  {
    if slots != [] {
      NoneFilled(slots[..|slots| - 1]);
    }
  }

  ghost predicate OrdersIncrease(list: seq<Arrival>) {
    forall i, j :: 0 <= i < j < |list| ==> list[i].clockOrder < list[j].clockOrder
  }

  lemma {:induction false} WaitingIncreasing(t: Table, r: Record, s: nat, replayed: nat)
    requires s <= |r.sorted| && s <= |t.indices|
    ensures OrdersIncrease(Waiting(t, r, s, replayed))
  {
    if s > 0 {
      var init := Waiting(t, r, s - 1, replayed);
      WaitingIncreasing(t, r, s - 1, replayed);
      forall i | 0 <= i < |init| ensures init[i].clockOrder < s - 1 {
        WaitingMembers(t, r, s - 1, replayed, init[i]);
      }
    }
  }

  // The next solid arrival belongs to the group exactly when its decoded index does.
  lemma IndexIsTarget(t: Table, r: Record, e: Arrival, k: nat)
    requires ValidRecord(r) && Decoded(t, r) && k < |r.events|
    requires 0 <= e.clockOrder < |r.sorted| && e.id == r.sorted[e.clockOrder]
    ensures Target(r, k) == e <==> t.indices[e.clockOrder] == k
  {
  }

  lemma SlotsStep(t: Table, r: Record, i: nat, slots: seq<Slot>, solid: seq<Arrival>, j: nat)
    requires ValidRecord(r) && Decoded(t, r) && i + |slots| <= |r.events|
    requires j < |solid| && OrdersIncrease(solid) && SlotsHold(r, i, slots, solid[..j])
    requires 0 <= solid[j].clockOrder < |r.sorted| && solid[j].id == r.sorted[solid[j].clockOrder]
    ensures var p := t.indices[solid[j].clockOrder] - i;
      if 0 <= p < |slots| then slots[p] == Empty && SlotsHold(r, i, slots[p := Filled(solid[j])], solid[..j + 1])
      else SlotsHold(r, i, slots, solid[..j + 1])
  {
    var e := solid[j];
    var p := t.indices[e.clockOrder] - i;
    assert solid[..j + 1] == solid[..j] + [e];
    assert e !in solid[..j] by {
      assert forall x :: x in solid[..j] ==> x.clockOrder < e.clockOrder;
    }
    forall k: nat | i <= k < i + |slots| ensures Target(r, k) == e <==> k == i + p {
      IndexIsTarget(t, r, e, k);
    }
  }

  // Against the whole solid list, a slot is filled exactly when its arrival is solid.
  ghost predicate SlotsOk(r: Record, i: nat, slots: seq<Slot>, s: nat)
    requires ValidRecord(r) && i + |slots| <= |r.events|
  {
    forall p :: 0 <= p < |slots| ==>
      slots[p] == if r.perm[i + p] < s then Filled(Target(r, i + p)) else Empty
  }

  // When the scan stops early because every slot is full, the rest would not change anything.
  lemma ScanIsComplete(t: Table, r: Record, s: nat, i: nat, slots: seq<Slot>, solid: seq<Arrival>, j: nat)
    requires ValidRecord(r) && Decoded(t, r) && SolidOk(t, r, s, i, solid) && i + |slots| <= |r.events|
    requires j <= |solid| && SlotsHold(r, i, slots, solid[..j])
    requires j == |solid| || NumFilled(slots) == |slots|
    ensures SlotsOk(r, i, slots, s)
  {
    hide ValidRecord, Decoded, SolidOk, NumFilled, Target;
    PositionsInRange(r);
    forall p: nat | p < |slots|
      ensures slots[p] == if r.perm[i + p] < s then Filled(Target(r, i + p)) else Empty
    {
      TargetIsSolid(t, r, s, i, solid, i + p);
      SeenMeansSolid(slots, solid, j, p, Target(r, i + p));
    }
  }

  // An arrival among those seen is solid, and a solid one has been seen unless every slot is full.
  lemma SeenMeansSolid(slots: seq<Slot>, solid: seq<Arrival>, j: nat, p: nat, e: Arrival)
    requires j <= |solid| && p < |slots| && slots[p] == if e in solid[..j] then Filled(e) else Empty
    requires j == |solid| || NumFilled(slots) == |slots|
    ensures slots[p] == if e in solid then Filled(e) else Empty
  {
    hide NumFilled;
    if j == |solid| {
      assert solid[..j] == solid;
    } else {
      assert slots[p].Filled?;
    }
  }

  lemma PositionsInRange(r: Record)
    requires ValidRecord(r)
    ensures |r.perm| == |r.events| && forall k :: 0 <= k < |r.perm| ==> r.perm[k] < |r.sorted|
  {
  }

  // An arrival of a later position is in the solid list exactly when its clock order is below s.
  lemma TargetIsSolid(t: Table, r: Record, s: nat, i: nat, solid: seq<Arrival>, k: nat)
    requires ValidRecord(r) && Decoded(t, r) && SolidOk(t, r, s, i, solid) && i <= k < |r.events|
    ensures k < |r.perm| && r.perm[k] < |r.sorted|
    ensures Target(r, k) in solid <==> r.perm[k] < s
  {
    hide Waiting;
    WaitingMembers(t, r, s, i, Target(r, k));
  }

  // The group can be replayed: all its members are solid.
  ghost predicate Ready(r: Record, i: nat, n: nat, s: nat)
    requires ValidRecord(r) && i + n <= |r.events|
  {
    forall k :: i <= k < i + n ==> r.perm[k] < s
  }

  lemma FullMeansReady(r: Record, i: nat, slots: seq<Slot>, s: nat)
    requires ValidRecord(r) && i + |slots| <= |r.events| && SlotsOk(r, i, slots, s)
    ensures NumFilled(slots) == |slots| <==> Ready(r, i, |slots|, s)
  {
    forall k | i <= k < i + |slots| ensures slots[k - i].Filled? <==> r.perm[k] < s {
      var p := k - i;
      assert i + p == k;
    }
    assert forall p :: 0 <= p < |slots| ==> (slots[p].Filled? <==> r.perm[i + p] < s);
  }

  // ---------------------------------------------------------------- the local clock after the group

  // Receiving a message moves the local clock past it.
  function Tick(local: int, clock: int): int {
    (if local < clock then clock else local) + 1
  }

  function Ticks(local: int, clocks: seq<int>): int {
    if clocks == [] then local else Tick(Ticks(local, clocks[..|clocks| - 1]), clocks[|clocks| - 1])
  }

  lemma {:induction false} TicksMonotone(x: int, y: int, a: seq<int>, b: seq<int>)
    requires x <= y && |a| == |b| && forall i :: 0 <= i < |a| ==> a[i] <= b[i]
    ensures Ticks(x, a) <= Ticks(y, b)
  {
    if a != [] {
      TicksMonotone(x, y, a[..|a| - 1], b[..|b| - 1]);
    }
  }

  lemma TicksSnoc(local: int, clocks: seq<int>, c: int)
    ensures Ticks(local, clocks + [c]) == Tick(Ticks(local, clocks), c)
  {
    assert (clocks + [c])[..|clocks|] == clocks;
  }

  // n messages move the clock n places at least, and each one past its own clock and on by one for
  // every message behind it; no further than one of these makes it go.
  lemma {:induction false} TicksPass(local: int, clocks: seq<int>)
    ensures Ticks(local, clocks) >= local + |clocks|
    ensures forall i :: 0 <= i < |clocks| ==> Ticks(local, clocks) >= clocks[i] + |clocks| - i
    ensures Ticks(local, clocks) == local + |clocks|
      || exists i :: 0 <= i < |clocks| && Ticks(local, clocks) == clocks[i] + |clocks| - i
  {
    if clocks != [] {
      var init, n := clocks[..|clocks| - 1], |clocks| - 1;
      TicksPass(local, init);
      assert Ticks(local, init) < clocks[n] ==> Ticks(local, clocks) == clocks[n] + |clocks| - n;
      assert forall i :: 0 <= i < n ==> init[i] == clocks[i];
    }
  }

  function GroupClocks(events: seq<Event>, i: nat, n: nat): (c: seq<int>)
    requires i + n <= |events| && forall k :: i <= k < i + n ==> events[k].Matched?
    ensures |c| == n && forall p :: 0 <= p < n ==> c[p] == events[i + p].id.clock
  {
    seq(n, p requires 0 <= p < n => events[i + p].id.clock)
  }

  // A lower bound for the clock of each slot: its own clock, or that of the look-ahead bound.
  function SlotClocks(slots: seq<Slot>, minClock: int): (c: seq<int>)
    ensures |c| == |slots|
    ensures forall p :: 0 <= p < |slots| ==> c[p] == if slots[p].Filled? then slots[p].event.id.clock else minClock
  {
    seq(|slots|, p requires 0 <= p < |slots| => if slots[p].Filled? then slots[p].event.id.clock else minClock)
  }

  // What is known of the group's clocks when the first s of clock order are solid.
  ghost function KnownClocks(r: Record, i: nat, n: nat, s: nat, minClock: int): (c: seq<int>)
    requires ValidRecord(r) && i + n <= |r.events|
    ensures |c| == n
    ensures forall p :: 0 <= p < n ==> c[p] == if r.perm[i + p] < s then r.events[i + p].id.clock else minClock
  {
    seq(n, p requires 0 <= p < n => if r.perm[i + p] < s then r.events[i + p].id.clock else minClock)
  }

  // Everything that is not solid has at least the clock of the look-ahead bound.
  ghost predicate RestAbove(r: Record, s: nat, minClock: int) {
    forall o :: s <= o < |r.sorted| ==> minClock <= r.sorted[o].clock
  }

  // The interim clock never overshoots the clock the rank has after the group.
  lemma InterimIsBelow(r: Record, i: nat, slots: seq<Slot>, s: nat, local: int, minClock: int)
    requires ValidRecord(r) && i + |slots| <= |r.events| && SlotsOk(r, i, slots, s) && RestAbove(r, s, minClock)
    ensures SlotClocks(slots, minClock) == KnownClocks(r, i, |slots|, s, minClock)
    ensures Ticks(local, SlotClocks(slots, minClock)) <= Ticks(local, GroupClocks(r.events, i, |slots|))
    ensures Ready(r, i, |slots|, s) ==> SlotClocks(slots, minClock) == GroupClocks(r.events, i, |slots|)
  {
    var low, high := SlotClocks(slots, minClock), GroupClocks(r.events, i, |slots|);
    forall p | 0 <= p < |slots|
      ensures low[p] <= high[p] && (Ready(r, i, |slots|, s) ==> low[p] == high[p])
      ensures low[p] == KnownClocks(r, i, |slots|, s, minClock)[p]
    {
      var k := i + p;
      assert r.events[k].id == r.sorted[r.perm[k]];
    }
    TicksMonotone(local, local, low, high);
  }
}
