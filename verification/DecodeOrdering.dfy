// Replaying one table: each call takes the messages that have arrived and a look-ahead bound,
// and hands out the next failed tests or the next complete group of receives.
module DecodeOrdering {
  import opened Options
  import opened ReplayTables
  import opened ReplaySteps
  import opened ReplayGroups

  // What goes into one call and what comes out of it.
  datatype Call = Call(arrivals: seq<Arrival>, min: Id, local: int,
                       rest: seq<Arrival>, out: seq<Event>, finished: bool, interim: Option<int>)

  // What the caller owes: per-sender order of arrivals, and a bound that holds of all to come.
  ghost predicate Allowed(t: Table, r: Record, st: State, arrivals: seq<Arrival>, min: Id)
    requires TableShape(t)
  {
    && Legal(t, r, st.line, arrivals)
    && Frontier(r, LineAfter(t, st.line, arrivals), min)
  }

  // The interim clock is what the local clock becomes with the known clocks of the group, the
  // bound standing in for the others: never more than the clock after the group, and that clock
  // if the group is complete.
  ghost predicate InterimOk(r: Record, i: nat, n: nat, s: nat, min: Id, local: int, complete: bool,
                            interim: Option<int>)
    requires ValidRecord(r) && IsGroup(r.events, i, n)
  {
    && (interim.None? <==> min.clock == COLLECTIVE_CLOCK)
    && (interim.Some? ==> interim.value == Ticks(local, KnownClocks(r, i, n, s, min.clock)))
    && (interim.Some? ==> interim.value <= Ticks(local, GroupClocks(r.events, i, n)))
    && (interim.Some? && complete ==> interim.value == Ticks(local, GroupClocks(r.events, i, n)))
  }

  // What a call does to a table that is waiting for a group.
  ghost predicate GroupStep(t: Table, r: Record, st: State, c: Call, st': State, n: nat)
    requires Inv(t, r, st)
  {
    && IsGroup(r.events, st.replayed, n)
    && st'.unmatched == st.unmatched
    && st'.line == LineAfter(t, st.line, c.arrivals)
    && c.rest == Outside(t, c.arrivals)
    // as much of the clock order as the bound allows is solid, and stays so
    && SolidEnd(st) <= SolidEnd(st')
    && AllSolidable(t, r, st'.line, c.min, SolidEnd(st), SolidEnd(st'))
    && (st'.ordered != [] ==> !Solidable(t, st'.line, c.min, st'.ordered[0]))
    // the group comes out exactly when all its members are solid
    && c.out == (if Ready(r, st.replayed, n, SolidEnd(st')) then r.events[st.replayed..st.replayed + n] else [])
    && st'.replayed == st.replayed + |c.out|
    && InterimOk(r, st.replayed, n, SolidEnd(st'), c.min, c.local, c.out != [], c.interim)
  }

  ghost predicate CallSpec(t: Table, r: Record, st: State, c: Call, st': State)
    requires Inv(t, r, st)
  {
    && Inv(t, r, st')
    && (if DecodedAll(t, st) then
          st' == st && c.out == [] && !c.finished && c.rest == c.arrivals && c.interim == None
        else if st.replayed in st.unmatched then
          && st' == st.(unmatched := st.unmatched - {st.replayed})
          && c.out == [Unmatched(st.unmatched[st.replayed])]
          && c.finished == DecodedAll(t, st') && c.rest == c.arrivals && c.interim == None
        else
          c.finished == DecodedAll(t, st') && exists n :: GroupStep(t, r, st, c, st', n))
  }

  // A table before its first call.
  function Start(r: Record): State {
    State(0, r.unmatched, [], [], map[])
  }

  lemma StartsValid(t: Table, r: Record)
    requires ValidRecord(r) && Decoded(t, r)
    ensures Inv(t, r, Start(r)) && Remaining(r, Start(r)) == Stream(r)
  {
  }

  class TestTable {
    const table: Table
    ghost const record: Record
    var replayed: nat
    var unmatched: map<nat, nat>
    var ordered: seq<Arrival>
    var solid: seq<Arrival>
    var line: map<int, int>
    // An inconsistency for which the tool would abort the run.
    var error: bool

    ghost function View(): State
      reads this
    {
      State(replayed, unmatched, ordered, solid, line)
    }

    ghost predicate Valid()
      reads this
    {
      Inv(table, record, View()) && !error
    }

    constructor (t: Table, failedTests: map<nat, nat>, ghost r: Record)
      requires ValidRecord(r) && Decoded(t, r) && failedTests == r.unmatched
      ensures Valid() && table == t && record == r && View() == Start(r)
    {
      table, record := t, r;
      replayed, unmatched, ordered, solid, line := 0, failedTests, [], [], map[];
      error := false;
      hide Inv;
      StartsValid(t, r);
    }

    method IsDecodedAll() returns (b: bool)
      ensures b == DecodedAll(table, View())
    {
      if unmatched != map[] {
        return false;
      }
      if replayed < table.count && table.count != 0 {
        return false;
      }
      return true;
    }

    method IsReachedEpochLine() returns (b: bool)
      requires TableShape(table)
      ensures b == Reached(table, line)
    {
      for i := 0 to |table.epochRanks|
        invariant forall j :: 0 <= j < i ==> LineOf(line, table.epochRanks[j]) == table.epochClocks[j]
      {
        if table.epochClocks[i] != LineOf(line, table.epochRanks[i]) {
          return false;
        }
      }
      return true;
    }

    // Moves this epoch's messages from the event list to the ordered list; the others stay.
    method AdmitEvents(arrivals: seq<Arrival>) returns (rest: seq<Arrival>)
      requires TableShape(table)
      modifies this`ordered, this`line
      ensures rest == Outside(table, arrivals)
      ensures ordered == old(ordered) + Inside(table, arrivals)
      ensures line == LineAfter(table, old(line), arrivals)
    {
      hide Within, Outside, Inside, LineAfter;
      rest := [];
      var i := 0;
      assert arrivals[0..] == arrivals && [] + Outside(table, arrivals) == Outside(table, arrivals);
      while i < |arrivals|
        invariant 0 <= i <= |arrivals|
        invariant rest + Outside(table, arrivals[i..]) == Outside(table, arrivals)
        invariant ordered + Inside(table, arrivals[i..]) == old(ordered) + Inside(table, arrivals)
        invariant LineAfter(table, line, arrivals[i..]) == LineAfter(table, old(line), arrivals)
      {
        var e := arrivals[i];
        AdmitFirst(table, line, arrivals, i);
        ghost var inside, outside := Inside(table, arrivals[i + 1..]), Outside(table, arrivals[i + 1..]);
        assert rest + ([e] + outside) == rest + [e] + outside && rest + ([] + outside) == rest + outside;
        assert ordered + ([e] + inside) == ordered + [e] + inside && ordered + ([] + inside) == ordered + inside;
        if !Within(table, e) {
          rest := rest + [e];
        } else {
          ordered := ordered + [e];
          line := line[e.id.source := e.id.clock];
        }
        i := i + 1;
      }
      NothingToAdmit(table, line, arrivals[|arrivals|..]);
      assert rest + [] == rest && ordered + [] == ordered;
    }

    // Counts the waiting messages whose place in the clock order can no longer change.
    method CountSolid(min: Id) returns (count: nat)
      requires TableShape(table)
      ensures count <= |ordered|
      ensures forall i :: 0 <= i < count ==> Solidable(table, line, min, ordered[i])
      ensures count < |ordered| ==> !Solidable(table, line, min, ordered[count])
    {
      if min.clock == COLLECTIVE_CLOCK {
        return |ordered|;
      }
      count := 0;
      while count < |ordered|
        invariant count <= |ordered|
        invariant forall i :: 0 <= i < count ==> Solidable(table, line, min, ordered[i])
      {
        var reached := IsReachedEpochLine();
        if !Less(min, ordered[count].id) || reached {
          count := count + 1;
        } else {
          break;
        }
      }
    }

    // Moves the first messages of the ordered list to the solid list and numbers them.
    method MoveSolid(count: nat)
      requires ValidRecord(record) && Decoded(table, record) && count <= |ordered|
      requires SolidOk(table, record, replayed + |solid|, replayed, solid)
      requires NextSorted(record, replayed + |solid|, ordered, count)
      modifies this`ordered, this`solid, this`error
      ensures SolidOk(table, record, old(replayed + |solid|) + count, replayed, solid)
      ensures ordered == old(ordered)[count..] && error == old(error)
    {
      hide ValidRecord, Decoded, SolidOk;
      ghost var all := ordered;
      var nextClockOrder := |solid| + replayed;
      var i := 0;
      while i < count
        invariant 0 <= i <= count
        invariant nextClockOrder == old(replayed + |solid|) + i
        invariant SolidOk(table, record, nextClockOrder, replayed, solid)
        invariant ordered == all[i..] && error == old(error)
      {
        var event := ordered[0];
        assert event == all[i];
        SolidStep(table, record, nextClockOrder, replayed, solid);
        if |solid| > 0 {
          error := error || !Less(solid[|solid| - 1].id, event.id);
        }
        ordered := ordered[1..];
        solid := solid + [Arrival(event.id, nextClockOrder)];
        nextClockOrder := nextClockOrder + 1;
        i := i + 1;
      }
    }

    // The size of the group at the current position.
    method ComputeOutcount() returns (outcount: nat)
      requires ValidRecord(record) && Decoded(table, record) && replayed < table.count
      ensures IsGroup(record.events, replayed, outcount)
    {
      outcount := 1;
      if |table.withNext| > 0 {
        var i := replayed;
        while table.withNext[i]
          invariant replayed <= i < table.count && outcount == i - replayed + 1
          invariant forall k :: replayed <= k < i ==> record.events[k].withNext
          decreases table.count - i
        {
          assert record.events[i].withNext && i != |record.events| - 1;
          outcount := outcount + 1;
          i := i + 1;
        }
      }
    }

    // Puts each solid message of the group in its slot.
    method FillSlots(outcount: nat) returns (slots: seq<Slot>, added: nat)
      requires ValidRecord(record) && Decoded(table, record) && replayed + outcount <= |record.events|
      requires SolidOk(table, record, replayed + |solid|, replayed, solid)
      modifies this`error
      ensures |slots| == outcount && added == NumFilled(slots)
      ensures SlotsOk(record, replayed, slots, replayed + |solid|) && error == old(error)
    {
      hide ValidRecord, Decoded, SolidOk, SlotsHold, SlotsOk;
      slots := seq(outcount, _ => Empty);
      added := 0;
      ghost var s := replayed + |solid|;
      ScanStarts(table, record, s, replayed, solid, slots);
      var j := 0;
      while j < |solid|
        invariant 0 <= j <= |solid| && |slots| == outcount && error == old(error)
        invariant Scanning(table, record, s, replayed, solid, slots, added, j)
      {
        var e := solid[j];
        ScanStep(table, record, s, replayed, solid, slots, added, j);
        var permutatedIndex := table.indices[e.clockOrder] - replayed;
        if 0 <= permutatedIndex < outcount {
          slots := slots[permutatedIndex := Filled(e)];
          added := added + 1;
          if |slots| == added {
            j := j + 1;
            break;
          }
        } else {
          error := error || permutatedIndex < 0;
        }
        j := j + 1;
      }
      ScanIsComplete(table, record, s, replayed, slots, solid, j);
    }

    // Admits this epoch's arrivals and sorts what is waiting.
    method Admit(arrivals: seq<Arrival>) returns (rest: seq<Arrival>)
      requires Valid() && Legal(table, record, line, arrivals)
      modifies this`ordered, this`line
      ensures Valid() && rest == Outside(table, arrivals) && line == LineAfter(table, old(line), arrivals)
    {
      hide Inv, Legal, ValidRecord, Decoded;
      ghost var st := View();
      InvGives(table, record, st);
      rest := AdmitEvents(arrivals);
      ordered := SortByClock(ordered);
      AdmitKeepsInv(table, record, st, arrivals, View());
    }

    // Makes solid whatever can no longer be overtaken.
    method Solidify(min: Id)
      requires Valid() && Frontier(record, line, min)
      modifies this`ordered, this`solid, this`error
      ensures Valid() && SolidEnd(old(View())) <= SolidEnd(View())
      ensures AllSolidable(table, record, line, min, SolidEnd(old(View())), SolidEnd(View()))
      ensures ordered != [] ==> !Solidable(table, line, min, ordered[0])
    {
      hide Inv, Frontier, Solidable, AllSolidable, SolidOk, ValidRecord, Decoded, NextSorted;
      ghost var st := View();
      InvGives(table, record, st);
      var count := CountSolid(min);
      SolidIsNext(table, record, st, min, count);
      CountedAreSolidable(table, record, st, min, count);
      MoveSolid(count);
      MoveKeepsInv(table, record, st, count, View());
    }

    // The clock the rank will at least have after the group, from what is known of its members.
    method InterimClock(min: Id, local: int, slots: seq<Slot>) returns (interim: int)
      ensures interim == Ticks(local, Guesses(slots, ordered, 0, min.clock))
      // past every member that has arrived, and past the bound for every one that has not
      ensures interim >= local + |slots|
      ensures forall p :: 0 <= p < |slots| && slots[p].Filled? ==> interim >= slots[p].event.id.clock + |slots| - p
      ensures (forall k :: 0 <= k < |ordered| ==> min.clock <= ordered[k].id.clock) ==>
        forall p :: 0 <= p < |slots| && slots[p].Empty? ==> interim >= min.clock + |slots| - p
    {
      hide Guesses;
      interim := local;
      var cit := 0;
      var i := 0;
      assert slots[0..] == slots;
      while i < |slots|
        invariant 0 <= i <= |slots| && 0 <= cit <= |ordered|
        invariant Ticks(local, Guesses(slots, ordered, 0, min.clock))
          == Ticks(interim, Guesses(slots[i..], ordered, cit, min.clock))
      {
        ghost var before, from := interim, cit;
        GuessesFirst(slots, ordered, cit, min.clock, i);
        var replayingClock;
        if slots[i].Empty? {
          if cit == |ordered| {
            replayingClock := min.clock;
          } else if ordered[cit].id.clock < min.clock {
            replayingClock := ordered[cit].id.clock;
            cit := cit + 1;
          } else {
            replayingClock := min.clock;
          }
        } else {
          replayingClock := slots[i].event.id.clock;
        }
        if interim < replayingClock {
          interim := replayingClock;
        }
        interim := interim + 1;
        TicksHead(before, replayingClock, Guesses(slots[i + 1..], ordered, cit, min.clock));
        i := i + 1;
      }
      NoGuesses(slots[|slots|..], ordered, cit, min.clock);
      InterimPasses(local, slots, ordered, min.clock);
    }

    // The events of a complete group, with their with_next flags and request indices.
    method GroupEvents(slots: seq<Slot>) returns (out: seq<Event>)
      requires ValidRecord(record) && Decoded(table, record) && IsGroup(record.events, replayed, |slots|)
      requires SlotsOk(record, replayed, slots, replayed + |solid|) && NumFilled(slots) == |slots|
      ensures out == record.events[replayed..replayed + |slots|]
    {
      hide ValidRecord, Decoded, SlotsOk, NumFilled;
      AllAreFilled(slots);
      DecodedGives(table, record);
      var n := |slots|;
      out := seq(n, i requires 0 <= i < n => Matched(slots[i].event.id, false, 0));
      ghost var bare := out;
      var i := 0;
      while i < n
        invariant 0 <= i <= n == |out|
        invariant forall k :: 0 <= k < n ==> out[k] == bare[k].(withNext := k < i)
      {
        out := out[i := out[i].(withNext := true)];
        i := i + 1;
      }
      out := out[n - 1 := out[n - 1].(withNext := false)];
      ghost var flagged := out;
      if |table.matchedIndex| > 0 {
        i := 0;
        while i < n
          invariant 0 <= i <= n == |out|
          invariant forall k :: 0 <= k < n ==>
            out[k] == if k < i then flagged[k].(index := table.matchedIndex[replayed + k]) else flagged[k]
        {
          out := out[i := out[i].(index := table.matchedIndex[replayed + i])];
          i := i + 1;
        }
      }
      GroupIsRecorded(table, record, replayed, slots, replayed + |solid|, out);
    }

    // Takes a replayed group out of the solid list.
    method RemoveReplayed(slots: seq<Slot>)
      requires ValidRecord(record) && Decoded(table, record) && IsGroup(record.events, replayed, |slots|)
      requires SolidOk(table, record, replayed + |solid|, replayed, solid)
      requires SlotsOk(record, replayed, slots, replayed + |solid|) && NumFilled(slots) == |slots|
      modifies this`solid, this`replayed
      ensures replayed == old(replayed) + |slots| && SolidEnd(View()) == SolidEnd(old(View()))
      ensures SolidOk(table, record, SolidEnd(View()), replayed, solid)
    {
      hide ValidRecord, Decoded, SolidOk, SlotsOk;
      ghost var s := replayed + |solid|;
      FullMeansReady(record, replayed, slots, s);
      var i := 0;
      while i < |slots|
        invariant 0 <= i <= |slots|
        invariant replayed == old(replayed) && |solid| + replayed + i == s
        invariant SolidOk(table, record, s, replayed + i, solid)
      {
        RemoveStep(table, record, s, replayed, i, slots, solid);
        solid := RemoveEvent(solid, slots[i].event);
        i := i + 1;
      }
      replayed := replayed + |slots|;
    }

    // Looks up the members of the next group, and what they say about the clock after it.
    method GatherGroup(min: Id, local: int) returns (slots: seq<Slot>, added: nat, interim: Option<int>)
      requires Valid() && !DecodedAll(table, View()) && replayed !in unmatched
      requires Frontier(record, line, min) && (ordered != [] ==> !Solidable(table, line, min, ordered[0]))
      modifies this`error
      ensures Valid() && added == NumFilled(slots) && IsGroup(record.events, replayed, |slots|)
      ensures SlotsOk(record, replayed, slots, SolidEnd(View()))
      ensures InterimOk(record, replayed, |slots|, SolidEnd(View()), min, local, added == |slots|, interim)
    {
      hide Inv, ValidRecord, Decoded, Frontier, Solidable, SolidOk, SlotsOk, RestAbove, IsGroup;
      ghost var st := View();
      InvGives(table, record, st);
      NextIsEvent(table, record, st);
      var outcount := ComputeOutcount();
      GroupFits(record.events, replayed, outcount);
      slots, added := FillSlots(outcount);
      interim := None;
      if min.clock != COLLECTIVE_CLOCK {
        var clock := InterimClock(min, local, slots);
        InterimHolds(table, record, st, slots, min, local, clock);
        interim := Some(clock);
      }
    }

    // Hands out the gathered group if it is complete.
    method HandOutGroup(slots: seq<Slot>, added: nat) returns (out: seq<Event>)
      requires Valid() && !DecodedAll(table, View()) && replayed !in unmatched
      requires added == NumFilled(slots) && IsGroup(record.events, replayed, |slots|)
      requires SlotsOk(record, replayed, slots, replayed + |solid|)
      modifies this`solid, this`replayed, this`error
      ensures Valid() && SolidEnd(View()) == SolidEnd(old(View()))
      ensures out == if added == |slots| then record.events[old(replayed)..old(replayed) + |slots|] else []
      ensures replayed == old(replayed) + |out|
    {
      hide Inv, ValidRecord, Decoded, SolidOk, SlotsOk, IsGroup;
      ghost var st := View();
      InvGives(table, record, st);
      GroupFits(record.events, replayed, |slots|);
      if added != |slots| {
        out := [];
        var done := IsDecodedAll();
        error := error || done;
      } else {
        out := GroupEvents(slots);
        RemoveReplayed(slots);
        GroupKeepsInv(table, record, st, |slots|, View());
      }
    }

    // Hands out the next group exactly when all its messages are solid.
    method ReplayNext(min: Id, local: int) returns (out: seq<Event>, interim: Option<int>, ghost n: nat)
      requires Valid() && !DecodedAll(table, View()) && replayed !in unmatched
      requires Frontier(record, line, min) && (ordered != [] ==> !Solidable(table, line, min, ordered[0]))
      modifies this`solid, this`replayed, this`error
      ensures Valid() && SolidEnd(View()) == SolidEnd(old(View())) && IsGroup(record.events, old(replayed), n)
      ensures out == if Ready(record, old(replayed), n, SolidEnd(View()))
        then record.events[old(replayed)..old(replayed) + n] else []
      ensures replayed == old(replayed) + |out|
      ensures InterimOk(record, old(replayed), n, SolidEnd(View()), min, local, out != [], interim)
    {
      hide Inv, Frontier, Solidable, ValidRecord, Decoded, IsGroup, SlotsOk, Ready, InterimOk;
      InvGives(table, record, View());
      var slots, added;
      slots, added, interim := GatherGroup(min, local);
      n := |slots|;
      GroupFits(record.events, replayed, n);
      FullMeansReady(record, replayed, slots, SolidEnd(View()));
      out := HandOutGroup(slots, added);
    }

    // One call: failed tests first, otherwise admit, solidify and hand out the next group.
    method CdcDecodeOrdering(arrivals: seq<Arrival>, min: Id, local: int)
      returns (rest: seq<Arrival>, out: seq<Event>, finished: bool, interim: Option<int>)
      requires Valid() && Allowed(table, record, View(), arrivals, min)
      modifies this
      ensures Valid()
      ensures CallSpec(table, record, old(View()), Call(arrivals, min, local, rest, out, finished, interim), View())
    {
      hide Inv, Legal, Frontier, Solidable, AllSolidable, ValidRecord, Decoded, IsGroup, SlotsOk, Ready, InterimOk;
      ghost var st := View();
      InvGives(table, record, st);
      interim := None;
      var done := IsDecodedAll();
      if done {
        return arrivals, [], false, None;
      }
      if replayed in unmatched {
        out := [Unmatched(unmatched[replayed])];
        unmatched := unmatched - {replayed};
        UnmatchedKeepsInv(table, record, st, View());
        finished := IsDecodedAll();
        rest := arrivals;
        return;
      }
      rest := Admit(arrivals);
      Solidify(min);
      ghost var n;
      out, interim, n := ReplayNext(min, local);
      finished := IsDecodedAll();
      assert GroupStep(table, record, st, Call(arrivals, min, local, rest, out, finished, interim), View(), n);
    }
  }

  lemma AdmitFirst(t: Table, line: map<int, int>, arrivals: seq<Arrival>, i: nat)
    requires TableShape(t) && i < |arrivals|
    ensures var e := arrivals[i];
      && Outside(t, arrivals[i..]) == (if Within(t, e) then [] else [e]) + Outside(t, arrivals[i + 1..])
      && Inside(t, arrivals[i..]) == (if Within(t, e) then [e] else []) + Inside(t, arrivals[i + 1..])
      && LineAfter(t, line, arrivals[i..])
         == LineAfter(t, if Within(t, e) then line[e.id.source := e.id.clock] else line, arrivals[i + 1..])
  {
    hide Within;
    assert arrivals[i..][1..] == arrivals[i + 1..];
  }

  lemma NothingToAdmit(t: Table, line: map<int, int>, list: seq<Arrival>)
    requires TableShape(t) && list == []
    ensures Outside(t, list) == [] && Inside(t, list) == [] && LineAfter(t, line, list) == line
  {
  }

  // The next k waiting messages are the next k of the clock order.
  ghost predicate NextSorted(r: Record, s: nat, ordered: seq<Arrival>, k: nat) {
    && k <= |ordered| && s + k <= |r.sorted|
    && forall i :: 0 <= i < k ==> ordered[i].id == r.sorted[s + i]
  }

  lemma SolidStep(t: Table, r: Record, s: nat, replayed: nat, solid: seq<Arrival>)
    requires ValidRecord(r) && Decoded(t, r) && s < |r.sorted| && SolidOk(t, r, s, replayed, solid)
    ensures solid != [] ==> Less(solid[|solid| - 1].id, r.sorted[s])
    ensures SolidOk(t, r, s + 1, replayed, solid + [Arrival(r.sorted[s], s)])
  {
    if solid != [] {
      WaitingMembers(t, r, s, replayed, solid[|solid| - 1]);
    }
    WaitingGrows(t, r, s, replayed);
  }

  ghost predicate Scanning(t: Table, r: Record, s: nat, i: nat, solid: seq<Arrival>, slots: seq<Slot>, added: nat,
                           j: nat)
    requires ValidRecord(r) && Decoded(t, r)
  {
    && SolidOk(t, r, s, i, solid) && i + |slots| <= |r.events| && j <= |solid|
    && SlotsHold(r, i, slots, solid[..j]) && added == NumFilled(slots)
  }

  lemma ScanStarts(t: Table, r: Record, s: nat, i: nat, solid: seq<Arrival>, slots: seq<Slot>)
    requires ValidRecord(r) && Decoded(t, r) && SolidOk(t, r, s, i, solid) && i + |slots| <= |r.events|
    requires forall p :: 0 <= p < |slots| ==> slots[p] == Empty
    ensures Scanning(t, r, s, i, solid, slots, 0, 0)
  {
    NoneFilled(slots);
  }

  lemma SolidMember(t: Table, r: Record, s: nat, i: nat, solid: seq<Arrival>, j: nat)
    requires ValidRecord(r) && Decoded(t, r) && SolidOk(t, r, s, i, solid) && j < |solid|
    ensures 0 <= solid[j].clockOrder < |r.sorted| == |t.indices|
    ensures t.indices[solid[j].clockOrder] >= i && solid[j].id == r.sorted[solid[j].clockOrder]
    ensures OrdersIncrease(solid)
  {
    WaitingMembers(t, r, s, i, solid[j]);
    WaitingIncreasing(t, r, s, i);
  }

  // One arrival of the scan. Its index is never below the position: the abort is unreachable.
  lemma ScanStep(t: Table, r: Record, s: nat, i: nat, solid: seq<Arrival>, slots: seq<Slot>, added: nat, j: nat)
    requires ValidRecord(r) && Decoded(t, r) && j < |solid|
    requires Scanning(t, r, s, i, solid, slots, added, j)
    ensures 0 <= solid[j].clockOrder < |t.indices| && t.indices[solid[j].clockOrder] >= i
    ensures t.indices[solid[j].clockOrder] >= i + |slots| ==>
      Scanning(t, r, s, i, solid, slots, added, j + 1)
    ensures t.indices[solid[j].clockOrder] < i + |slots| ==>
      Scanning(t, r, s, i, solid, slots[t.indices[solid[j].clockOrder] - i := Filled(solid[j])], added + 1, j + 1)
  {
    hide ValidRecord, Decoded, SolidOk, SlotsHold, OrdersIncrease, NumFilled;
    SolidMember(t, r, s, i, solid, j);
    SlotsStep(t, r, i, slots, solid, j);
    if t.indices[solid[j].clockOrder] < i + |slots| {
      FillCounts(slots, t.indices[solid[j].clockOrder] - i, solid[j]);
    }
  }

  // ---------------------------------------------------------------- the parts of a call keep the invariant

  lemma InvGives(t: Table, r: Record, st: State)
    requires Inv(t, r, st)
    ensures TableShape(t) && ValidRecord(r) && Decoded(t, r) && StrictlySorted(r.sorted)
    ensures SolidOk(t, r, SolidEnd(st), st.replayed, st.solid) && SolidEnd(st) <= |r.sorted|
    ensures t.count == |r.events| && forall i :: i in r.unmatched ==> i <= |r.events|
  {
  }

  lemma SortedIsDistinct(list: seq<Arrival>)
    requires SortedArrivals(list)
    ensures DistinctArrivals(list)
  {
  }

  lemma AdmitKeepsInv(t: Table, r: Record, st: State, arrivals: seq<Arrival>, st': State)
    requires Inv(t, r, st) && Legal(t, r, st.line, arrivals)
    requires st' ==
      st.(ordered := SortByClock(st.ordered + Inside(t, arrivals)), line := LineAfter(t, st.line, arrivals))
    ensures Inv(t, r, st')
  {
    hide ValidRecord, Decoded, SortedArrivals, Unsolid, LineOk, StrictlySorted, DistinctArrivals, SolidOk, Boundary;
    var s := SolidEnd(st);
    InvGives(t, r, st);
    SortedIsDistinct(st.ordered);
    AdmitAll(t, r, s, st.ordered, st.line, arrivals);
    SortSorts(st.ordered + Inside(t, arrivals));
    SortUnsolid(r, s, st.ordered + Inside(t, arrivals));
    SortLine(r, s, st.ordered + Inside(t, arrivals), st'.line);
  }

  // Whatever the count admits is next in the clock order.
  lemma SolidIsNext(t: Table, r: Record, st: State, min: Id, count: nat)
    requires Inv(t, r, st) && Frontier(r, st.line, min) && count <= |st.ordered|
    requires forall i :: 0 <= i < count ==> Solidable(t, st.line, min, st.ordered[i])
    ensures NextSorted(r, SolidEnd(st), st.ordered, count)
  {
    hide ValidRecord, Decoded, SortedArrivals, Unsolid, LineOk, UnmatchedOk, Frontier, Solidable, NothingBelow;
    forall i | 0 <= i < count ensures NothingBelow(r, SolidEnd(st), st.ordered, st.ordered[i].id) {
      SolidableIsFinal(t, r, SolidEnd(st), st.ordered, st.line, min, i);
    }
    SolidPrefix(r, SolidEnd(st), st.ordered, count);
  }

  lemma CountedAreSolidable(t: Table, r: Record, st: State, min: Id, count: nat)
    requires Inv(t, r, st) && NextSorted(r, SolidEnd(st), st.ordered, count)
    requires forall i :: 0 <= i < count ==> Solidable(t, st.line, min, st.ordered[i])
    ensures AllSolidable(t, r, st.line, min, SolidEnd(st), SolidEnd(st) + count)
  {
    hide ValidRecord, Decoded, SortedArrivals, Unsolid, LineOk, UnmatchedOk, SolidOk, Reached;
    InvGives(t, r, st);
    var s := SolidEnd(st);
    forall o | s <= o < s + count && o < |r.sorted| ensures Solidable(t, st.line, min, Arrival(r.sorted[o], o)) {
      var i := o - s;
      assert st.ordered[i].id == r.sorted[s + i];
    }
  }

  lemma TailSorted(list: seq<Arrival>, k: nat)
    requires SortedArrivals(list) && k <= |list|
    ensures SortedArrivals(list[k..])
  {
  }

  lemma MoveKeepsInv(t: Table, r: Record, st: State, count: nat, st': State)
    requires Inv(t, r, st) && NextSorted(r, SolidEnd(st), st.ordered, count)
    requires SolidOk(t, r, SolidEnd(st) + count, st.replayed, st'.solid)
    requires st' == st.(ordered := st.ordered[count..], solid := st'.solid)
    ensures Inv(t, r, st') && SolidEnd(st') == SolidEnd(st) + count
  {
    hide ValidRecord, Decoded, SortedArrivals, Unsolid, LineOk, StrictlySorted;
    InvGives(t, r, st);
    TailSorted(st.ordered, count);
    TailUnsolid(r, SolidEnd(st), st.ordered, count);
    TailLine(r, SolidEnd(st), st.ordered, st.line, count);
  }

  // ---------------------------------------------------------------- the interim clock

  // The clocks used for the slots: empty ones take waiting messages below the bound, then the bound.
  function Guesses(slots: seq<Slot>, ordered: seq<Arrival>, cursor: nat, minClock: int): seq<int>
    decreases |slots|
  {
    if slots == [] then []
    else if slots[0].Filled? then [slots[0].event.id.clock] + Guesses(slots[1..], ordered, cursor, minClock)
    else if cursor < |ordered| && ordered[cursor].id.clock < minClock then
      [ordered[cursor].id.clock] + Guesses(slots[1..], ordered, cursor + 1, minClock)
    else [minClock] + Guesses(slots[1..], ordered, cursor, minClock)
  }

  lemma GuessesFirst(slots: seq<Slot>, ordered: seq<Arrival>, cursor: nat, minClock: int, i: nat)
    requires i < |slots|
    ensures var low := slots[i].Empty? && cursor < |ordered| && ordered[cursor].id.clock < minClock;
      var guess :=
        if slots[i].Filled? then slots[i].event.id.clock else if low then ordered[cursor].id.clock else minClock;
      Guesses(slots[i..], ordered, cursor, minClock)
        == [guess] + Guesses(slots[i + 1..], ordered, if low then cursor + 1 else cursor, minClock)
  {
    assert slots[i..][1..] == slots[i + 1..];
  }

  lemma NoGuesses(slots: seq<Slot>, ordered: seq<Arrival>, cursor: nat, minClock: int)
    requires slots == []
    ensures Guesses(slots, ordered, cursor, minClock) == []
  {
  }

  lemma {:induction false} TicksHead(local: int, c: int, clocks: seq<int>)
    ensures Ticks(local, [c] + clocks) == Ticks(Tick(local, c), clocks)
    decreases |clocks|
  {
    if clocks == [] {
      TicksSnoc(local, [], c);
      assert [c] + clocks == [] + [c];
    } else {
      var init, last := clocks[..|clocks| - 1], clocks[|clocks| - 1];
      TicksHead(local, c, init);
      TicksSnoc(local, [c] + init, last);
      assert [c] + clocks == [c] + init + [last];
    }
  }

  lemma {:induction false} GuessesAt(slots: seq<Slot>, ordered: seq<Arrival>, cursor: nat, minClock: int)
    ensures |Guesses(slots, ordered, cursor, minClock)| == |slots|
    ensures forall p :: 0 <= p < |slots| && slots[p].Filled? ==>
      Guesses(slots, ordered, cursor, minClock)[p] == slots[p].event.id.clock
    decreases |slots|
  {
    if slots != [] {
      var low := slots[0].Empty? && cursor < |ordered| && ordered[cursor].id.clock < minClock;
      GuessesAt(slots[1..], ordered, if low then cursor + 1 else cursor, minClock);
    }
  }

  lemma InterimPasses(local: int, slots: seq<Slot>, ordered: seq<Arrival>, minClock: int)
    ensures var interim := Ticks(local, Guesses(slots, ordered, 0, minClock));
      && interim >= local + |slots|
      && (forall p :: 0 <= p < |slots| && slots[p].Filled? ==> interim >= slots[p].event.id.clock + |slots| - p)
      && ((forall k :: 0 <= k < |ordered| ==> minClock <= ordered[k].id.clock) ==>
            forall p :: 0 <= p < |slots| && slots[p].Empty? ==> interim >= minClock + |slots| - p)
  {
    hide Ticks, Guesses;
    var guesses := Guesses(slots, ordered, 0, minClock);
    TicksPass(local, guesses);
    GuessesAt(slots, ordered, 0, minClock);
    if forall k :: 0 <= k < |ordered| ==> minClock <= ordered[k].id.clock {
      GuessesAreBounds(slots, ordered, 0, minClock);
    }
  }

  // No waiting message is below the bound, so an empty slot counts as the bound itself.
  lemma {:induction false} GuessesAreBounds(slots: seq<Slot>, ordered: seq<Arrival>, cursor: nat, minClock: int)
    requires forall i :: 0 <= i < |ordered| ==> minClock <= ordered[i].id.clock
    ensures Guesses(slots, ordered, cursor, minClock) == SlotClocks(slots, minClock)
    decreases |slots|
  {
    if slots != [] {
      GuessesAreBounds(slots[1..], ordered, cursor, minClock);
      assert SlotClocks(slots, minClock) == [SlotClocks(slots, minClock)[0]] + SlotClocks(slots[1..], minClock);
    }
  }

  lemma InterimHolds(t: Table, r: Record, st: State, slots: seq<Slot>, min: Id, local: int, clock: int)
    requires Inv(t, r, st) && Frontier(r, st.line, min) && min.clock != COLLECTIVE_CLOCK
    requires st.ordered != [] ==> !Solidable(t, st.line, min, st.ordered[0])
    requires IsGroup(r.events, st.replayed, |slots|) && SlotsOk(r, st.replayed, slots, SolidEnd(st))
    requires clock == Ticks(local, Guesses(slots, st.ordered, 0, min.clock))
    ensures InterimOk(r, st.replayed, |slots|, SolidEnd(st), min, local, NumFilled(slots) == |slots|, Some(clock))
  {
    hide ValidRecord, Decoded, SolidOk, SlotsOk, RestAbove, Frontier, Unsolid, LineOk, SortedArrivals, Ready, NumFilled;
    FullMeansReady(r, st.replayed, slots, SolidEnd(st));
    RestIsAbove(t, r, st, min);
    GuessesAreBounds(slots, st.ordered, 0, min.clock);
    InterimIsBelow(r, st.replayed, slots, SolidEnd(st), local, min.clock);
  }

  // ---------------------------------------------------------------- emitting a group

  lemma DecodedGives(t: Table, r: Record)
    requires ValidRecord(r) && Decoded(t, r)
    ensures |t.matchedIndex| == |r.events|
  {
  }

  lemma AllAreFilled(slots: seq<Slot>)
    requires NumFilled(slots) == |slots|
    ensures forall p :: 0 <= p < |slots| ==> slots[p].Filled?
  {
  }

  lemma {:induction false} GroupIsRecorded(t: Table, r: Record, i: nat, slots: seq<Slot>, s: nat, out: seq<Event>)
    requires ValidRecord(r) && Decoded(t, r) && IsGroup(r.events, i, |slots|)
    requires SlotsOk(r, i, slots, s) && NumFilled(slots) == |slots| == |out|
    requires forall k :: 0 <= k < |out| ==>
      out[k] == Matched(slots[k].event.id, k < |slots| - 1, t.matchedIndex[i + k])
    ensures out == r.events[i..i + |slots|]
  {
    hide NumFilled;
    AllAreFilled(slots);
    forall k | 0 <= k < |slots| ensures out[k] == r.events[i..i + |slots|][k] {
      var j := i + k;
      assert r.events[j].Matched? && r.events[j].id == r.sorted[r.perm[j]];
      assert slots[k] == Filled(Target(r, j));
    }
  }

  lemma RemoveStep(t: Table, r: Record, s: nat, i: nat, k: nat, slots: seq<Slot>, solid: seq<Arrival>)
    requires ValidRecord(r) && Decoded(t, r) && i + |slots| <= |r.events| && k < |slots|
    requires SlotsOk(r, i, slots, s) && Ready(r, i, |slots|, s)
    requires SolidOk(t, r, s, i + k, solid)
    ensures slots[k].Filled?
    ensures SolidOk(t, r, s, i + k + 1, RemoveEvent(solid, slots[k].event))
    ensures |RemoveEvent(solid, slots[k].event)| + 1 == |solid|
  {
    hide ValidRecord, Decoded, Waiting, RemoveEvent, Ready, SlotsOk;
    var j := i + k;
    RemovedIsTarget(t, r, s, i, k, slots);
    var o := r.perm[j];
    WaitingShrinks(t, r, s, j, o);
  }

  lemma RemovedIsTarget(t: Table, r: Record, s: nat, i: nat, k: nat, slots: seq<Slot>)
    requires ValidRecord(r) && Decoded(t, r) && i + |slots| <= |r.events| && k < |slots|
    requires SlotsOk(r, i, slots, s) && Ready(r, i, |slots|, s) && s <= |r.sorted|
    ensures |r.perm| == |r.events| == |r.sorted| == |t.indices|
    ensures r.perm[i + k] < s && slots[k] == Filled(Arrival(r.sorted[r.perm[i + k]], r.perm[i + k]))
    ensures forall p :: 0 <= p < s ==> (t.indices[p] == i + k <==> p == r.perm[i + k])
  {
    var j := i + k;
    assert t.indices[r.perm[j]] == j;
    assert slots[k] == Filled(Target(r, j));
    forall p | 0 <= p < s ensures t.indices[p] == j <==> p == r.perm[j] {
      assert r.perm[t.indices[p]] == p;
    }
  }

  lemma GroupFits(events: seq<Event>, i: nat, n: nat)
    requires IsGroup(events, i, n)
    ensures 1 <= n <= |events| - i
  {
  }

  lemma NextIsEvent(t: Table, r: Record, st: State)
    requires Inv(t, r, st) && !DecodedAll(t, st) && st.replayed !in st.unmatched
    ensures st.replayed < t.count
  {
    hide ValidRecord, Decoded, SortedArrivals, Unsolid, LineOk, SolidOk, Boundary, UnmatchedOk;
    InvGives(t, r, st);
    if st.replayed >= |r.events| {
      NothingAfterTheLast(r, st);
    }
  }

  lemma RestIsAbove(t: Table, r: Record, st: State, min: Id)
    requires Inv(t, r, st) && Frontier(r, st.line, min) && min.clock != COLLECTIVE_CLOCK
    requires st.ordered != [] ==> !Solidable(t, st.line, min, st.ordered[0])
    ensures RestAbove(r, SolidEnd(st), min.clock)
    ensures forall i :: 0 <= i < |st.ordered| ==> min.clock <= st.ordered[i].id.clock
  {
    hide ValidRecord, Decoded, Unsolid, UnmatchedOk, SolidOk, Reached, Boundary;
    forall i | 0 <= i < |st.ordered| ensures min.clock <= st.ordered[i].id.clock {
      assert i == 0 || Less(st.ordered[0].id, st.ordered[i].id);
    }
    forall o | SolidEnd(st) <= o < |r.sorted| ensures min.clock <= r.sorted[o].clock {
      if Pending(r, st.line, o) {
        assert LessEq(min, r.sorted[o]);
      } else {
        assert HasId(st.ordered, r.sorted[o]);
      }
    }
  }

  lemma UnmatchedKeepsInv(t: Table, r: Record, st: State, st': State)
    requires Inv(t, r, st) && st.replayed in st.unmatched
    requires st' == st.(unmatched := st.unmatched - {st.replayed})
    ensures Inv(t, r, st')
  {
    hide ValidRecord, Decoded, SortedArrivals, Unsolid, LineOk, SolidOk, Boundary;
  }

  lemma GroupKeepsInv(t: Table, r: Record, st: State, n: nat, st': State)
    requires Inv(t, r, st) && IsGroup(r.events, st.replayed, n) && st.replayed !in st.unmatched
    requires SolidOk(t, r, SolidEnd(st'), st.replayed + n, st'.solid) && SolidEnd(st') == SolidEnd(st)
    requires st' == st.(replayed := st.replayed + n, solid := st'.solid)
    ensures Inv(t, r, st')
  {
    hide ValidRecord, Decoded, SortedArrivals, Unsolid, LineOk, SolidOk, Boundary, IsGroup;
    NothingInsideGroup(r, st, n);
  }
}
