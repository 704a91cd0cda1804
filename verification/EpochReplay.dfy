// The tables of one chunk are replayed side by side; the next chunk is read when all of them are
// decoded. Also the look-ahead bound of one table, from the bounds of its senders.
module EpochReplay {
  import opened ReplayTables
  import opened ReplaySteps
  import opened DecodeOrdering
  import opened ReplayRuns

  // ---------------------------------------------------------------- the bound of a table

  predicate InCollective(t: Table, next: map<int, int>, i: nat)
    requires i < |t.epochRanks| && t.epochRanks[i] in next
  {
    next[t.epochRanks[i]] == COLLECTIVE_CLOCK
  }

  // The least (clock, rank) among the senders that are not in a collective.
  ghost predicate IsLookAhead(t: Table, next: map<int, int>, k: nat, min: Id)
    requires k <= |t.epochRanks| && forall i :: 0 <= i < k ==> t.epochRanks[i] in next
  {
    if forall i :: 0 <= i < k ==> InCollective(t, next, i) then min.clock == COLLECTIVE_CLOCK
    else
      && min.clock != COLLECTIVE_CLOCK && min.source in t.epochRanks[..k] && min.clock == next[min.source]
      && forall i :: 0 <= i < k && !InCollective(t, next, i) ==>
           LessEq(min, Id(next[t.epochRanks[i]], t.epochRanks[i]))
  }

  // Taking one more sender into account.
  function Lower(min: Id, next: Id): Id {
    if next.clock == COLLECTIVE_CLOCK then min
    else if min.clock == COLLECTIVE_CLOCK || Less(next, min) then next
    else min
  }

  lemma LookAheadStep(t: Table, next: map<int, int>, k: nat, min: Id)
    requires k < |t.epochRanks| && forall i :: 0 <= i <= k ==> t.epochRanks[i] in next
    requires if k == 0 then min == Id(next[t.epochRanks[0]], t.epochRanks[0]) else IsLookAhead(t, next, k, min)
    ensures IsLookAhead(t, next, k + 1, Lower(min, Id(next[t.epochRanks[k]], t.epochRanks[k])))
  {
    assert t.epochRanks[..k + 1] == t.epochRanks[..k] + [t.epochRanks[k]];
    assert InCollective(t, next, k) <==> next[t.epochRanks[k]] == COLLECTIVE_CLOCK;
  }

  // A bound is kept for every sender of the table.
  predicate SendersKnown(t: Table, next: map<int, int>) {
    forall i :: 0 <= i < |t.epochRanks| ==> t.epochRanks[i] in next
  }

  lemma LookAheadMeans(t: Table, next: map<int, int>, min: Id)
    requires SendersKnown(t, next) && IsLookAhead(t, next, |t.epochRanks|, min)
    ensures min.clock == COLLECTIVE_CLOCK <==> forall rank :: rank in t.epochRanks ==> next[rank] == COLLECTIVE_CLOCK
    ensures min.clock != COLLECTIVE_CLOCK ==>
      && min.source in t.epochRanks && min.clock == next[min.source]
      && forall rank :: rank in t.epochRanks && next[rank] != COLLECTIVE_CLOCK ==>
           min.clock < next[rank] || (min.clock == next[rank] && min.source <= rank)
  {
    assert t.epochRanks[..|t.epochRanks|] == t.epochRanks;
    forall rank | rank in t.epochRanks && next[rank] != COLLECTIVE_CLOCK
      ensures min.clock != COLLECTIVE_CLOCK && LessEq(min, Id(next[rank], rank))
    {
      var i :| 0 <= i < |t.epochRanks| && t.epochRanks[i] == rank;
      assert !InCollective(t, next, i);
    }
    if forall rank :: rank in t.epochRanks ==> next[rank] == COLLECTIVE_CLOCK {
      assert forall i :: 0 <= i < |t.epochRanks| ==> InCollective(t, next, i);
    }
  }

  // compute_look_ahead_recv_clock; the error is the abort for a sender without a bound.
  method ComputeLookAheadRecvClock(t: Table, next: map<int, int>) returns (min: Id, error: bool)
    requires |t.epochRanks| == |t.epochClocks|
    ensures error <==> !SendersKnown(t, next)
    ensures t.epochRanks == [] ==> min == Id(0, 0)
    ensures t.epochRanks != [] && !error ==> IsLookAhead(t, next, |t.epochRanks|, min)
    // the marker if all senders are in a collective, otherwise the least of the other bounds
    ensures t.epochRanks != [] && !error ==>
      (min.clock == COLLECTIVE_CLOCK <==> forall rank :: rank in t.epochRanks ==> next[rank] == COLLECTIVE_CLOCK)
    ensures t.epochRanks != [] && !error && min.clock != COLLECTIVE_CLOCK ==>
      && min.source in t.epochRanks && min.clock == next[min.source]
      && forall rank :: rank in t.epochRanks && next[rank] != COLLECTIVE_CLOCK ==>
           min.clock < next[rank] || (min.clock == next[rank] && min.source <= rank)
  {
    if |t.epochRanks| == 0 || |t.epochClocks| == 0 {
      return Id(0, 0), false;
    }
    var rank := t.epochRanks[0];
    if rank !in next {
      return Id(0, 0), true;
    }
    var clock := next[rank];
    for i := 0 to |t.epochRanks|
      invariant forall k :: 0 <= k < i ==> t.epochRanks[k] in next
      invariant i == 0 ==> clock == next[t.epochRanks[0]] && rank == t.epochRanks[0]
      invariant i > 0 ==> IsLookAhead(t, next, i, Id(clock, rank))
    {
      var tmpRank := t.epochRanks[i];
      if tmpRank !in next {
        return Id(0, 0), true;
      }
      var tmpClock := next[tmpRank];
      LookAheadStep(t, next, i, Id(clock, rank));
      if tmpClock == COLLECTIVE_CLOCK {
        continue;
      }
      if clock == COLLECTIVE_CLOCK {
        rank, clock := tmpRank, tmpClock;
      }
      if clock > tmpClock {
        rank, clock := tmpRank, tmpClock;
      } else if clock == tmpClock {
        if rank > tmpRank {
          rank, clock := tmpRank, tmpClock;
        }
      }
    }
    min, error := Id(clock, rank), false;
    LookAheadMeans(t, next, min);
  }

  // Every message still to come from a sender is at or above the bound kept for it.
  ghost predicate BoundsHold(r: Record, line: map<int, int>, next: map<int, int>) {
    forall o :: 0 <= o < |r.sorted| && Pending(r, line, o) ==>
      r.sorted[o].source in next && next[r.sorted[o].source] <= r.sorted[o].clock
  }

  // The bound computed for a table from the bounds of its senders.
  ghost predicate Bounds(t: Table, next: map<int, int>, min: Id) {
    && |t.epochRanks| == |t.epochClocks| && SendersKnown(t, next)
    && (if t.epochRanks == [] then min == Id(0, 0) else IsLookAhead(t, next, |t.epochRanks|, min))
  }

  lemma OutsideCollectives(t: Table, next: map<int, int>, min: Id, rank: int)
    requires Bounds(t, next, min) && rank in t.epochRanks
    requires forall i :: 0 <= i < |t.epochRanks| ==> !InCollective(t, next, i)
    ensures min.clock != COLLECTIVE_CLOCK && LessEq(min, Id(next[rank], rank))
  {
    var i :| 0 <= i < |t.epochRanks| && t.epochRanks[i] == rank;
    assert !InCollective(t, next, i);
  }

  // Bounds per sender give the frontier that decode ordering needs, outside collectives.
  lemma BoundsGiveFrontier(t: Table, r: Record, line: map<int, int>, next: map<int, int>, min: Id)
    requires ValidRecord(r) && Decoded(t, r) && BoundsHold(r, line, next) && Bounds(t, next, min)
    requires forall i :: 0 <= i < |t.epochRanks| ==> !InCollective(t, next, i)
    ensures Frontier(r, line, min)
  {
    hide ValidRecord, Bounds, DecodedEvents;
    SendersKnownInBounds(t, next, min);
    if t.epochRanks == [] {
      NoSendersNoMessages(t, r);
      assert Frontier(r, line, min);
    } else {
      OutsideCollectives(t, next, min, t.epochRanks[0]);
      forall o | 0 <= o < |r.sorted| && Pending(r, line, o) ensures LessEq(min, r.sorted[o]) {
        assert r.sorted[o].source in t.epochRanks;
        OutsideCollectives(t, next, min, r.sorted[o].source);
      }
    }
  }

  lemma SendersKnownInBounds(t: Table, next: map<int, int>, min: Id)
    requires Bounds(t, next, min)
    ensures SendersKnown(t, next)
  {
  }

  lemma NoSendersNoMessages(t: Table, r: Record)
    requires ValidRecord(r) && Decoded(t, r) && t.epochRanks == []
    ensures r.sorted == []
  {
  }

  // ---------------------------------------------------------------- one epoch and the next

  // within_epoch admits exactly the messages up to the last recorded one of their sender.
  lemma WithinIsEpoch(t: Table, r: Record, e: Arrival)
    requires ValidRecord(r) && Decoded(t, r) && e.id.clock > 0
    ensures Within(t, e) <==>
      exists o :: 0 <= o < |r.sorted| && r.sorted[o].source == e.id.source && e.id.clock <= r.sorted[o].clock
  {
    EpochLineFinds(t, e.id.source, 0);
    if e.id.source in t.epochRanks {
      var i :| 0 <= i < |t.epochRanks| && t.epochRanks[i] == e.id.source;
      assert EpochEntry(r, t.epochRanks[i], t.epochClocks[i]);
    } else {
      forall o | 0 <= o < |r.sorted| ensures r.sorted[o].source != e.id.source {
      }
    }
  }

  lemma {:induction false} EpochLineFinds(t: Table, rank: int, i: nat)
    requires |t.epochRanks| == |t.epochClocks| && i <= |t.epochRanks|
    requires forall a, b :: 0 <= a < b < |t.epochRanks| ==> t.epochRanks[a] != t.epochRanks[b]
    ensures forall k :: i <= k < |t.epochRanks| && t.epochRanks[k] == rank ==>
      EpochLineFrom(t, rank, i) == t.epochClocks[k]
    ensures rank !in t.epochRanks[i..] ==> EpochLineFrom(t, rank, i) == 0
    decreases |t.epochRanks| - i
  {
    if i < |t.epochRanks| {
      EpochLineFinds(t, rank, i + 1);
      assert t.epochRanks[i..] == [t.epochRanks[i]] + t.epochRanks[i + 1..];
    }
  }

  // The clocks of each sender go on increasing from one chunk to the next.
  ghost predicate Follows(r1: Record, r2: Record) {
    forall o, p :: 0 <= o < |r1.sorted| && 0 <= p < |r2.sorted| && r1.sorted[o].source == r2.sorted[p].source ==>
      r1.sorted[o].clock < r2.sorted[p].clock
  }

  // Every chunk after the first holds later messages of each sender.
  ghost predicate InOrder(records: seq<Record>) {
    forall i, j :: 0 <= i < j < |records| ==> Follows(records[i], records[j])
  }

  function NextLine(lines: seq<map<int, int>>, k: nat, id: Id): (r: seq<map<int, int>>)
    requires k < |lines|
    ensures |r| == |lines|
  {
    lines[k := lines[k][id.source := id.clock]]
  }

  // Messages of any number of consecutive chunks, each sender's in the order it was recorded.
  ghost predicate LegalOver(records: seq<Record>, lines: seq<map<int, int>>, list: seq<Arrival>)
    requires |records| == |lines|
    decreases |list|
  {
    list != [] ==> exists k: nat :: k < |records| && ContinuesAt(records, lines, list, k)
  }

  ghost predicate ContinuesAt(records: seq<Record>, lines: seq<map<int, int>>, list: seq<Arrival>, k: nat)
    requires k < |records| == |lines| && list != []
    decreases |list|, 0
  {
    NextOfSource(records[k], lines[k], list[0].id) && LegalOver(records, NextLine(lines, k, list[0].id), list[1..])
  }

  // The first chunk admits exactly its own messages, in order, and what it leaves is in order
  // for it and the others, whatever comes afterwards.
  lemma {:induction false} EpochsSplit(t: Table, records: seq<Record>, lines: seq<map<int, int>>,
                                       now: seq<Arrival>, later: seq<Arrival>)
    requires 0 < |records| == |lines| && InOrder(records)
    requires forall i :: 0 <= i < |records| ==> ValidRecord(records[i])
    requires Decoded(t, records[0]) && LegalOver(records, lines, now + later)
    ensures Legal(t, records[0], lines[0], now)
    ensures LegalOver(records, lines[0 := LineAfter(t, lines[0], now)], Outside(t, now) + later)
    decreases |now|
  {
    if now == [] {
      assert now + later == later && Outside(t, now) + later == later && lines[0 := lines[0]] == lines;
    } else {
      var e := now[0];
      assert (now + later)[0] == e && (now + later)[1..] == now[1..] + later;
      var k: nat :| k < |records| && ContinuesAt(records, lines, now + later, k);
      EpochsSplit(t, records, NextLine(lines, k, e.id), now[1..], later);
      OwnIsWithin(t, records, lines[k], e, k);
      SplitStep(t, records, lines, now, later, k);
    }
  }

  // Only the first chunk's own messages are within its epoch.
  lemma OwnIsWithin(t: Table, records: seq<Record>, line: map<int, int>, e: Arrival, k: nat)
    requires k < |records| && InOrder(records) && (forall i :: 0 <= i < |records| ==> ValidRecord(records[i]))
    requires Decoded(t, records[0]) && NextOfSource(records[k], line, e.id)
    ensures Within(t, e) <==> k == 0
  {
    WithinIsEpoch(t, records[0], e);
    assert k > 0 ==> Follows(records[0], records[k]);
  }

  lemma SplitStep(t: Table, records: seq<Record>, lines: seq<map<int, int>>,
                  now: seq<Arrival>, later: seq<Arrival>, k: nat)
    requires k < |records| == |lines| && TableShape(t) && now != [] && (Within(t, now[0]) <==> k == 0)
    requires NextOfSource(records[k], lines[k], now[0].id)
    requires var next := NextLine(lines, k, now[0].id);
      LegalOver(records, next[0 := LineAfter(t, next[0], now[1..])], Outside(t, now[1..]) + later)
    ensures LegalOver(records, lines[0 := LineAfter(t, lines[0], now)], Outside(t, now) + later)
  {
    hide NextOfSource;
    var e, next := now[0], NextLine(lines, k, now[0].id);
    var after := lines[0 := LineAfter(t, lines[0], now)];
    var rest := Outside(t, now) + later;
    if k == 0 {
      assert next[0 := LineAfter(t, next[0], now[1..])] == after;
      assert rest == Outside(t, now[1..]) + later;
    } else {
      assert next[0 := LineAfter(t, next[0], now[1..])] == NextLine(after, k, e.id);
      assert rest[0] == e && rest[1..] == Outside(t, now[1..]) + later;
      assert ContinuesAt(records, after, rest, k);
    }
  }

  // A chunk none of whose messages are in the list does not matter.
  lemma {:induction false} FirstIsDone(records: seq<Record>, lines: seq<map<int, int>>, list: seq<Arrival>)
    requires 0 < |records| == |lines| && LegalOver(records, lines, list)
    requires forall e :: e in list ==> !NextOfSource(records[0], lines[0], e.id)
    ensures LegalOver(records[1..], lines[1..], list)
    decreases |list|
  {
    if list != [] {
      var k: nat :| k < |records| && ContinuesAt(records, lines, list, k);
      var next := NextLine(lines, k, list[0].id);
      FirstIsDone(records, next, list[1..]);
      assert next[1..] == NextLine(lines[1..], k - 1, list[0].id);
      assert ContinuesAt(records[1..], lines[1..], list, k - 1);
    }
  }

  lemma OutsideIsOutside(t: Table, list: seq<Arrival>, e: Arrival)
    requires TableShape(t) && e in Outside(t, list)
    ensures !Within(t, e)
    decreases |list|
  {
    if e in Outside(t, list[1..]) {
      OutsideIsOutside(t, list[1..], e);
    }
  }

  // What the first chunk leaves is in order for the chunks after it.
  lemma LaterEpochsStay(t: Table, records: seq<Record>, lines: seq<map<int, int>>, list: seq<Arrival>)
    requires 0 < |records| == |lines| && InOrder(records)
    requires forall i :: 0 <= i < |records| ==> ValidRecord(records[i])
    requires Decoded(t, records[0]) && LegalOver(records, lines, list)
    ensures Legal(t, records[0], lines[0], list)
    ensures LegalOver(records[1..], lines[1..], Outside(t, list))
  {
    assert list + [] == list && Outside(t, list) + [] == Outside(t, list);
    EpochsSplit(t, records, lines, list, []);
    var after := lines[0 := LineAfter(t, lines[0], list)];
    forall e | e in Outside(t, list) ensures !NextOfSource(records[0], after[0], e.id) {
      OutsideIsOutside(t, list, e);
      if NextOfSource(records[0], after[0], e.id) {
        OwnIsWithin(t, records, after[0], e, 0);
      }
    }
    FirstIsDone(records, after, Outside(t, list));
    assert after[1..] == lines[1..];
  }

  // New messages are added to the ones that wait.
  function WithReceived(waiting: map<int, seq<Arrival>>, testId: int, received: seq<Arrival>): seq<Arrival> {
    (if testId in waiting then waiting[testId] else []) + received
  }
}
