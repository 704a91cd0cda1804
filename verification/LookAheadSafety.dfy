// The look-ahead protocol is safe: in every reachable state the receiver's bound holds of every
// message on the way and of every message sent later, and no rank ever sends below the clock it
// has exposed.
module LookAheadSafety {
  import opened Basics
  import opened ReplayGroups
  import opened LookAhead

  // ---------------------------------------------------------------- clocks only grow

  ghost predicate Grows(a: Rank, b: Rank) {
    a.local <= b.local && a.exposed <= b.exposed
  }

  lemma LinkAfterGrowth(link: Link, sender: Rank, sender': Rank, p: nat)
    requires LinkOk(link, sender, p) && Grows(sender, sender')
    requires sender'.phase == Sending(p) ==> |link.sent| < link.counted
    ensures LinkOk(link, sender', p)
  {
  }

  lemma FloorAfterGrowth(link: Link, sender: Rank, sender': Rank, number: nat, floor: int)
    requires FloorOk(link, sender, number, floor) && Grows(sender, sender')
    ensures FloorOk(link, sender', number, floor)
  {
  }

  lemma {:induction false} TicksGrow(local: int, clocks: seq<int>)
    ensures Ticks(local, clocks) >= local
  {
    if clocks != [] {
      TicksGrow(local, clocks[..|clocks| - 1]);
    }
  }

  // ---------------------------------------------------------------- one rank or one channel changes

  lemma RankStep(s: Net, r: nat, rank: Rank)
    requires Inv(s) && r < |s.ranks| && Grows(s.ranks[r], rank)
    requires forall p :: 0 <= p < |s.ranks| && rank.phase == Sending(p) ==>
      |LinkOf(s, r, p).sent| < LinkOf(s, r, p).counted
    requires RankOk(WithRank(s, r, rank), r)
    ensures Inv(WithRank(s, r, rank))
  {
    hide RankOk, LinkOk, Grows;
    var s' := WithRank(s, r, rank);
    forall a, p | 0 <= a < |s.ranks| && 0 <= p < |s.ranks| ensures LinkOk(LinkOf(s', a, p), s'.ranks[a], p) {
      assert LinkOf(s', a, p) == LinkOf(s, a, p);
      if a == r {
        LinkAfterGrowth(LinkOf(s, a, p), s.ranks[r], rank, p);
      }
    }
    forall p | 0 <= p < |s.ranks| ensures RankOk(s', p) {
      if p != r {
        OtherRankKept(s, r, rank, p);
      }
    }
  }

  lemma OtherRankKept(s: Net, r: nat, rank: Rank, p: nat)
    requires Square(s) && r < |s.ranks| && p < |s.ranks| && p != r
    requires Grows(s.ranks[r], rank) && RankOk(s, p)
    ensures RankOk(WithRank(s, r, rank), p)
  {
    hide FloorOk, Grows;
    var s' := WithRank(s, r, rank);
    if s.ranks[p].phase.Waiting? {
      var group, floors := s.ranks[p].phase.group, s.ranks[p].phase.floors;
      forall j | 0 <= j < |group|
        ensures FloorOk(LinkOf(s', group[j].source, p), s'.ranks[group[j].source], group[j].number, floors[j])
      {
        if group[j].source == r {
          FloorAfterGrowth(LinkOf(s, r, p), s.ranks[r], rank, group[j].number, floors[j]);
        }
      }
    }
  }

  lemma LinkStep(s: Net, r: nat, p: nat, link: Link)
    requires Inv(s) && r < |s.ranks| && p < |s.ranks|
    requires LinkOk(link, s.ranks[r], p) && link.sent == LinkOf(s, r, p).sent
    ensures Inv(WithLink(s, r, p, link))
  {
    hide LinkOk, FloorOk;
    var s' := WithLink(s, r, p, link);
    forall a, b | 0 <= a < |s.ranks| && 0 <= b < |s.ranks| ensures LinkOk(LinkOf(s', a, b), s'.ranks[a], b) {
      assert (a == r && b == p) || LinkOf(s', a, b) == LinkOf(s, a, b);
    }
    forall q | 0 <= q < |s.ranks| ensures RankOk(s', q) {
      SameSentKeepsRank(s, r, p, link, q);
    }
  }

  lemma SameSentKeepsRank(s: Net, r: nat, p: nat, link: Link, q: nat)
    requires Square(s) && r < |s.ranks| && p < |s.ranks| && q < |s.ranks|
    requires link.sent == LinkOf(s, r, p).sent && RankOk(s, q)
    ensures RankOk(WithLink(s, r, p, link), q)
  {
    var s' := WithLink(s, r, p, link);
    assert forall a, b :: 0 <= a < |s.ranks| && 0 <= b < |s.ranks| ==> LinkOf(s', a, b).sent == LinkOf(s, a, b).sent;
  }

  // ---------------------------------------------------------------- sending

  lemma SendKeepsLink(link: Link, sender: Rank, sender': Rank, p: nat)
    requires LinkOk(link, sender, p) && |link.sent| < link.counted && sender.exposed <= sender.local
    requires sender.local >= INITIAL_CLOCK
    requires sender'.local == sender.local + 1 && sender'.exposed == sender.exposed && sender'.phase == Running
    ensures LinkOk(link.(sent := link.sent + [sender.local]), sender', p)
  {
  }

  lemma SendKeepsFloor(link: Link, sender: Rank, sender': Rank, number: nat, floor: int)
    requires FloorOk(link, sender, number, floor) && sender.exposed <= sender.local
    requires sender'.local == sender.local + 1 && sender'.exposed == sender.exposed
    ensures FloorOk(link.(sent := link.sent + [sender.local]), sender', number, floor)
    ensures FloorOk(link, sender', number, floor)
  {
  }

  lemma IsendKeepsInv(s: Net, r: nat)
    requires Inv(s) && CountsMatch(s) && Enabled(s, Isend(r))
    ensures Inv(After(s, Isend(r)))
  {
    hide LinkOk, RankOk;
    var dest, rank := s.ranks[r].phase.dest, s.ranks[r];
    var s' := After(s, Isend(r));
    SendingIsCounted(s, r);
    forall a, b | 0 <= a < |s.ranks| && 0 <= b < |s.ranks| ensures LinkOk(LinkOf(s', a, b), s'.ranks[a], b) {
      assert LinkOk(LinkOf(s, a, b), s.ranks[a], b);
      if a == r && b == dest {
        SendKeepsLink(LinkOf(s, a, b), rank, s'.ranks[r], dest);
      } else {
        assert LinkOf(s', a, b) == LinkOf(s, a, b);
        if a == r {
          LinkAfterGrowth(LinkOf(s, a, b), rank, s'.ranks[r], b);
        }
      }
    }
    forall q | 0 <= q < |s.ranks| ensures RankOk(s', q) {
      SendKeepsRank(s, r, q);
    }
  }

  lemma InvGivesCounts(s: Net)
    requires Inv(s)
    ensures Square(s) && CountsMatch(s)
  {
  }

  lemma SendingIsCounted(s: Net, r: nat)
    requires Inv(s) && r < |s.ranks| && s.ranks[r].phase.Sending?
    ensures s.ranks[r].phase.dest < |s.ranks| && s.ranks[r].exposed <= s.ranks[r].local
      && s.ranks[r].local >= INITIAL_CLOCK
    ensures |LinkOf(s, r, s.ranks[r].phase.dest).sent| < LinkOf(s, r, s.ranks[r].phase.dest).counted
  {
    assert RankOk(s, r);
    assert LinkOk(LinkOf(s, r, s.ranks[r].phase.dest), s.ranks[r], s.ranks[r].phase.dest);
  }

  lemma SendKeepsRank(s: Net, r: nat, q: nat)
    requires Inv(s) && CountsMatch(s) && r < |s.ranks| && q < |s.ranks| && s.ranks[r].phase.Sending?
      && s.ranks[r].phase.dest < |s.ranks|
    ensures RankOk(After(s, Isend(r)), q)
  {
    hide LinkOk, FloorOk;
    SendingIsCounted(s, r);
    var s' := After(s, Isend(r));
    assert RankOk(s, q);
    if q != r && s.ranks[q].phase.Waiting? {
      var group, floors := s.ranks[q].phase.group, s.ranks[q].phase.floors;
      forall j | 0 <= j < |group|
        ensures FloorOk(LinkOf(s', group[j].source, q), s'.ranks[group[j].source], group[j].number, floors[j])
      {
        if group[j].source == r {
          SendKeepsFloor(LinkOf(s, r, q), s.ranks[r], s'.ranks[r], group[j].number, floors[j]);
        }
      }
    }
  }

  // ---------------------------------------------------------------- the other steps

  lemma RecordSendKeepsInv(s: Net, r: nat, dest: nat)
    requires Inv(s) && CountsMatch(s) && Enabled(s, RecordSend(r, dest))
    ensures Inv(After(s, RecordSend(r, dest)))
  {
    hide LinkOk;
    var link := LinkOf(s, r, dest);
    var counted := link.(counted := link.counted + 1);
    assert RankOk(s, r) && LinkOk(link, s.ranks[r], dest);
    CountingKeepsLink(link, s.ranks[r], dest);
    LinkStep(s, r, dest, counted);
    var s1 := WithLink(s, r, dest, counted);
    LinkGives(link, s.ranks[r], dest);
    RankStep(s1, r, s.ranks[r].(phase := Sending(dest)));
  }

  lemma CountingKeepsLink(link: Link, sender: Rank, p: nat)
    requires LinkOk(link, sender, p)
    ensures LinkOk(link.(counted := link.counted + 1), sender, p)
  {
  }

  lemma LinkGives(link: Link, sender: Rank, p: nat)
    requires LinkOk(link, sender, p)
    ensures link.received <= |link.sent| <= link.counted
  {
  }

  // The clock kept for a sender is the highest of its received messages.
  lemma LastReceivedIsHighest(link: Link, sender: Rank, p: nat)
    requires LinkOk(link, sender, p)
    ensures forall i :: 0 <= i < link.received ==> link.sent[i] <= MaxReceived(link)
    ensures MaxReceived(link) == 0 <==> link.received == 0
  {
    assert link.received > 0 ==> link.sent[link.received - 1] >= INITIAL_CLOCK;
  }

  // A snapshot: what is counted later is sent later, and what is sent later is not below what is
  // exposed now.
  lemma GatherKeepsLink(link: Link, sender: Rank, p: nat)
    requires LinkOk(link, sender, p) && ValidClock(sender.exposed)
    ensures LinkOk(link.(gathered := Snapshot(sender.exposed, link.counted)), sender, p)
  {
  }

  lemma ReceiveKeepsLink(link: Link, sender: Rank, p: nat)
    requires LinkOk(link, sender, p) && link.received < |link.sent|
    ensures LinkOk(link.(received := link.received + 1), sender, p)
  {
  }

  // Raising the bound: to the snapshot's clock only when everything it counts is received, and
  // otherwise to the last clock received.
  lemma UpdateKeepsLink(link: Link, sender: Rank, p: nat, probed: bool, received: bool)
    requires LinkOk(link, sender, p)
    ensures LinkOk(AfterLink(link, Update(0, 0, probed, received), sender), sender, p)
    ensures AfterLink(link, Update(0, 0, probed, received), sender).bound >= link.bound
  {
  }

  lemma RaiseKeepsInv(s: Net, r: nat, clock: int)
    requires Inv(s) && CountsMatch(s) && Enabled(s, Raise(r, clock))
    ensures Inv(After(s, Raise(r, clock)))
  {
    hide LinkOk;
    assert RankOk(s, r);
    var rank := s.ranks[r].(exposed := Max(s.ranks[r].exposed, clock));
    if s.ranks[r].phase.Waiting? {
      TicksGrow(s.ranks[r].local, s.ranks[r].phase.floors);
    }
    SamePhaseIsCounted(s, r, rank);
    RankOkAfter(s, r, rank);
    RankStep(s, r, rank);
  }

  lemma SamePhaseIsCounted(s: Net, r: nat, rank: Rank)
    requires Inv(s) && r < |s.ranks| && rank.phase == s.ranks[r].phase
    ensures forall p :: 0 <= p < |s.ranks| && rank.phase == Sending(p) ==>
      |LinkOf(s, r, p).sent| < LinkOf(s, r, p).counted
  {
    forall p | 0 <= p < |s.ranks| && rank.phase == Sending(p) ensures |LinkOf(s, r, p).sent| < LinkOf(s, r, p).counted {
      assert LinkOk(LinkOf(s, r, p), s.ranks[r], p);
    }
  }

  // Same phase, higher clocks: floors still hold, also for messages of the rank to itself.
  lemma RankOkAfter(s: Net, r: nat, rank: Rank)
    requires Square(s) && r < |s.ranks| && RankOk(s, r)
    requires rank.phase == s.ranks[r].phase && Grows(s.ranks[r], rank) && ValidClock(rank.exposed)
    requires if rank.phase.Waiting? then rank.exposed <= Ticks(rank.local, rank.phase.floors)
      else rank.exposed <= rank.local
    ensures RankOk(WithRank(s, r, rank), r)
  {
    hide FloorOk, Grows;
    var s' := WithRank(s, r, rank);
    assert Grows(s.ranks[r], rank);
    GrowsMeans(s.ranks[r], rank);
    if rank.phase.Waiting? {
      var group, floors := rank.phase.group, rank.phase.floors;
      forall j | 0 <= j < |group|
        ensures FloorOk(LinkOf(s', group[j].source, r), s'.ranks[group[j].source], group[j].number, floors[j])
      {
        if group[j].source == r {
          FloorAfterGrowth(LinkOf(s, r, r), s.ranks[r], rank, group[j].number, floors[j]);
        }
      }
    }
  }

  lemma GrowsMeans(a: Rank, b: Rank)
    requires Grows(a, b)
    ensures a.local <= b.local && a.exposed <= b.exposed
  {
  }

  lemma BeginReceiveKeepsInv(s: Net, r: nat, group: seq<Message>)
    requires Inv(s) && CountsMatch(s) && Enabled(s, BeginReceive(r, group))
    ensures Inv(After(s, BeginReceive(r, group)))
  {
    assert RankOk(s, r);
    var rank := s.ranks[r].(phase := Waiting(group, Zeros(|group|)));
    var s' := WithRank(s, r, rank);
    TicksGrow(rank.local, Zeros(|group|));
    forall j | 0 <= j < |group|
      ensures FloorOk(LinkOf(s', group[j].source, r), s'.ranks[group[j].source], group[j].number, 0)
    {
      assert RankOk(s, group[j].source) && LinkOk(LinkOf(s, group[j].source, r), s.ranks[group[j].source], r);
    }
    RankStep(s, r, rank);
  }

  // A justified guess holds of the message, received or not.
  lemma JustifiedIsFloor(link: Link, sender: Rank, p: nat, number: nat, guess: int)
    requires LinkOk(link, sender, p) && Justified(link, number, guess)
    ensures FloorOk(link, sender, number, guess)
  {
  }

  lemma HigherFloor(link: Link, sender: Rank, number: nat, a: int, b: int)
    requires FloorOk(link, sender, number, a) && FloorOk(link, sender, number, b)
    ensures FloorOk(link, sender, number, Max(a, b))
  {
  }

  // The interim clock: whatever the members turn out to be, the clock after them is not lower.
  lemma RaiseInterimKeepsInv(s: Net, r: nat, guesses: seq<int>)
    requires Inv(s) && CountsMatch(s) && Enabled(s, RaiseInterim(r, guesses))
    ensures Inv(After(s, RaiseInterim(r, guesses)))
  {
    hide LinkOk, FloorOk, Justified;
    assert RankOk(s, r);
    var group, floors := s.ranks[r].phase.group, s.ranks[r].phase.floors;
    var rank := AfterRank(s.ranks[r], RaiseInterim(r, guesses), []);
    var s' := WithRank(s, r, rank);
    forall j | 0 <= j < |group|
      ensures FloorOk(LinkOf(s', group[j].source, r), s'.ranks[group[j].source], group[j].number, rank.phase.floors[j])
    {
      var link, sender := LinkOf(s, group[j].source, r), s.ranks[group[j].source];
      JustifiedIsFloor(link, sender, r, group[j].number, guesses[j]);
      HigherFloor(link, sender, group[j].number, floors[j], guesses[j]);
      FloorAfterGrowth(link, sender, s'.ranks[group[j].source], group[j].number, rank.phase.floors[j]);
    }
    TicksMonotone(rank.local, rank.local, guesses, rank.phase.floors);
    TicksMonotone(rank.local, rank.local, floors, rank.phase.floors);
    TicksGrow(rank.local, guesses);
    RankStep(s, r, rank);
  }

  // The exposed clock is reached when the group is received.
  lemma CompleteReceiveKeepsInv(s: Net, r: nat)
    requires Inv(s) && CountsMatch(s) && Enabled(s, CompleteReceive(r))
    ensures Inv(After(s, CompleteReceive(r)))
  {
    hide LinkOk;
    assert RankOk(s, r);
    var group, floors := s.ranks[r].phase.group, s.ranks[r].phase.floors;
    var clocks := ReceivedClocks(s, r, group);
    forall j | 0 <= j < |group| ensures floors[j] <= clocks[j] {
      assert FloorOk(LinkOf(s, group[j].source, r), s.ranks[group[j].source], group[j].number, floors[j]);
    }
    TicksMonotone(s.ranks[r].local, s.ranks[r].local, floors, clocks);
    TicksGrow(s.ranks[r].local, clocks);
    RankStep(s, r, AfterRank(s.ranks[r], CompleteReceive(r), clocks));
  }

  lemma TickKeepsInv(s: Net, r: nat)
    requires Inv(s) && CountsMatch(s) && Enabled(s, Tick(r))
    ensures Inv(After(s, Tick(r)))
  {
    hide LinkOk;
    assert RankOk(s, r);
    RankStep(s, r, s.ranks[r].(local := s.ranks[r].local + 1));
  }

  lemma ChannelStepKeepsInv(s: Net, step: Step)
    requires Inv(s) && CountsMatch(s) && Enabled(s, step) && (step.Gather? || step.Receive? || step.Update?)
    ensures Inv(After(s, step))
  {
    hide LinkOk;
    var link, sender := LinkOf(s, step.source, step.p), s.ranks[step.source];
    assert LinkOk(link, sender, step.p) && RankOk(s, step.source);
    match step {
      case Gather(_, _) => GatherKeepsLink(link, sender, step.p);
      case Receive(_, _) => ReceiveKeepsLink(link, sender, step.p);
      case Update(_, _, probed, received) => UpdateKeepsLink(link, sender, step.p, probed, received);
    }
    LinkStep(s, step.source, step.p, AfterLink(link, step, sender));
  }

  // Every step of every rank keeps the invariant.
  lemma StepKeepsInv(s: Net, step: Step)
    requires Inv(s) && CountsMatch(s) && Enabled(s, step)
    ensures Inv(After(s, step)) && CountsMatch(After(s, step))
  {
    hide Inv, After, Enabled;
    InvGivesCounts(s);
    match step {
      case RecordSend(r, dest) => RecordSendKeepsInv(s, r, dest);
      case Isend(r) => IsendKeepsInv(s, r);
      case Raise(r, clock) => RaiseKeepsInv(s, r, clock);
      case BeginReceive(r, group) => BeginReceiveKeepsInv(s, r, group);
      case RaiseInterim(r, guesses) => RaiseInterimKeepsInv(s, r, guesses);
      case CompleteReceive(r) => CompleteReceiveKeepsInv(s, r);
      case Tick(r) => TickKeepsInv(s, r);
      case Gather(_, _) => ChannelStepKeepsInv(s, step);
      case Receive(_, _) => ChannelStepKeepsInv(s, step);
      case Update(_, _, _, _) => ChannelStepKeepsInv(s, step);
    }
    InvGivesCounts(After(s, step));
  }

  // ---------------------------------------------------------------- whole runs

  lemma BeginInv(n: nat)
    ensures Inv(Begin(n)) && CountsMatch(Begin(n))
  {
  }

  ghost predicate IsRun(states: seq<Net>, steps: seq<Step>) {
    && |states| == |steps| + 1
    && (forall i :: 0 <= i < |states| ==> Square(states[i]) && CountsMatch(states[i]))
    && (forall i :: 0 <= i < |steps| ==> Enabled(states[i], steps[i]) && states[i + 1] == After(states[i], steps[i]))
  }

  lemma {:induction false} RunKeepsInv(states: seq<Net>, steps: seq<Step>, i: nat)
    requires IsRun(states, steps) && Inv(states[0]) && i < |states|
    ensures Inv(states[i]) && |states[i].ranks| == |states[0].ranks|
    decreases i
  {
    hide Inv, Enabled, After;
    if i > 0 {
      RunKeepsInv(states, steps, i - 1);
      StepKeepsInv(states[i - 1], steps[i - 1]);
    }
  }

  // Messages already sent stay as they are; new ones are at or above the sender's low mark, which
  // only rises.
  ghost predicate Later(a: Link, sender: Rank, b: Link, sender': Rank) {
    && Low(sender) <= Low(sender') && |a.sent| <= |b.sent| && b.sent[..|a.sent|] == a.sent
    && forall i :: |a.sent| <= i < |b.sent| ==> Low(sender) <= b.sent[i]
  }

  lemma SameSentIsLater(a: Link, sender: Rank, b: Link, sender': Rank)
    requires a.sent == b.sent && Grows(sender, sender')
    ensures Later(a, sender, b, sender')
  {
  }

  lemma SendIsLater(a: Link, sender: Rank, b: Link, sender': Rank)
    requires b.sent == a.sent + [sender.local] && sender.exposed <= sender.local && Grows(sender, sender')
    ensures Later(a, sender, b, sender')
  {
  }

  lemma StepGrows(s: Net, step: Step, r: nat)
    requires Inv(s) && CountsMatch(s) && Enabled(s, step) && r < |s.ranks|
    ensures Grows(s.ranks[r], After(s, step).ranks[r])
  {
    hide LinkOk;
    assert RankOk(s, r);
    match step {
      case RaiseInterim(_, guesses) => TicksGrow(s.ranks[r].local, guesses);
      case CompleteReceive(q) => TicksGrow(s.ranks[q].local, ReceivedClocks(s, q, s.ranks[q].phase.group));
      case _ =>
    }
  }

  lemma StepIsLater(s: Net, step: Step, r: nat, p: nat)
    requires Inv(s) && CountsMatch(s) && Enabled(s, step) && r < |s.ranks| && p < |s.ranks|
    ensures Later(LinkOf(s, r, p), s.ranks[r], LinkOf(After(s, step), r, p), After(s, step).ranks[r])
  {
    hide RankOk, LinkOk, Later, Grows;
    var s' := After(s, step);
    StepGrows(s, step, r);
    if step.Isend? && step.r == r && s.ranks[r].phase.dest == p {
      SendingIsCounted(s, r);
      SendIsLater(LinkOf(s, r, p), s.ranks[r], LinkOf(s', r, p), s'.ranks[r]);
    } else {
      assert LinkOf(s', r, p).sent == LinkOf(s, r, p).sent;
      SameSentIsLater(LinkOf(s, r, p), s.ranks[r], LinkOf(s', r, p), s'.ranks[r]);
    }
  }

  lemma LaterIsTransitive(a: Link, ra: Rank, b: Link, rb: Rank, c: Link, rc: Rank)
    requires Later(a, ra, b, rb) && Later(b, rb, c, rc)
    ensures Later(a, ra, c, rc)
  {
    assert c.sent[..|a.sent|] == b.sent[..|a.sent|];
    forall i | |a.sent| <= i < |c.sent| ensures Low(ra) <= c.sent[i] {
      assert i < |b.sent| ==> c.sent[i] == b.sent[i];
    }
  }

  lemma {:induction false} RunIsLater(states: seq<Net>, steps: seq<Step>, i: nat, j: nat, r: nat, p: nat)
    requires IsRun(states, steps) && Inv(states[0]) && i <= j < |states| && r < |states[0].ranks|
      && p < |states[0].ranks|
    ensures |states[i].ranks| == |states[j].ranks| == |states[0].ranks|
    ensures Later(LinkOf(states[i], r, p), states[i].ranks[r], LinkOf(states[j], r, p), states[j].ranks[r])
    decreases j - i
  {
    hide Inv, Enabled, After, Later;
    RunKeepsInv(states, steps, i);
    RunKeepsInv(states, steps, j);
    if i == j {
      LaterIsReflexive(LinkOf(states[i], r, p), states[i].ranks[r]);
    } else {
      RunKeepsInv(states, steps, j - 1);
      RunIsLater(states, steps, i, j - 1, r, p);
      StepIsLater(states[j - 1], steps[j - 1], r, p);
      LaterIsTransitive(LinkOf(states[i], r, p), states[i].ranks[r], LinkOf(states[j - 1], r, p),
                        states[j - 1].ranks[r], LinkOf(states[j], r, p), states[j].ranks[r]);
    }
  }

  lemma LaterIsReflexive(a: Link, ra: Rank)
    ensures Later(a, ra, a, ra)
  {
  }

  // Look-ahead safety. Whatever bound p keeps for r at some point of a run, every message of r
  // that p has not received by then, sent already or at any later point, is at or above it.
  lemma BoundIsSafe(states: seq<Net>, steps: seq<Step>, i: nat, j: nat, r: nat, p: nat, k: nat)
    requires IsRun(states, steps) && states[0] == Begin(|states[0].ranks|) && i <= j < |states|
    requires r < |states[0].ranks| && p < |states[0].ranks|
    ensures |states[i].ranks| == |states[j].ranks| == |states[0].ranks|
    ensures LinkOf(states[i], r, p).received <= k < |LinkOf(states[j], r, p).sent| ==>
      LinkOf(states[i], r, p).bound <= LinkOf(states[j], r, p).sent[k]
  {
    hide Enabled, After;
    BeginInv(|states[0].ranks|);
    RunKeepsInv(states, steps, i);
    RunIsLater(states, steps, i, j, r, p);
    BoundOfLater(LinkOf(states[i], r, p), states[i].ranks[r], LinkOf(states[j], r, p), states[j].ranks[r], p, k);
  }

  lemma BoundOfLater(a: Link, ra: Rank, b: Link, rb: Rank, p: nat, k: nat)
    requires LinkOk(a, ra, p) && Later(a, ra, b, rb)
    ensures a.received <= k < |b.sent| ==> a.bound <= b.sent[k]
  {
    assert k < |a.sent| <= |b.sent| ==> b.sent[k] == b.sent[..|a.sent|][k];
  }

  // The exposed clock never overshoots: the complaint in replay_isend is never made.
  lemma SendIsNotBelowExposed(states: seq<Net>, steps: seq<Step>, i: nat)
    requires IsRun(states, steps) && states[0] == Begin(|states[0].ranks|) && i < |steps| && steps[i].Isend?
    ensures steps[i].r < |states[i].ranks| && states[i].ranks[steps[i].r].local >= states[i].ranks[steps[i].r].exposed
  {
    hide After;
    BeginInv(|states[0].ranks|);
    RunKeepsInv(states, steps, i);
    SendingIsCounted(states[i], steps[i].r);
  }

  // ---------------------------------------------------------------- clocks arrive

  // An update that no probe forbids: with nothing on the way the bound takes the snapshot's clock,
  // with something on the way the last clock received, whenever that is higher.
  lemma UpdateRaises(link: Link, sender: Rank, p: nat, probed: bool, received: bool)
    requires LinkOk(link, sender, p)
    ensures var after := AfterLink(link, Update(0, 0, probed, received), sender).bound;
      && (probed ==> after == link.bound)
      && (!probed && !received && link.gathered.sendCount <= link.received ==>
            after == Max(link.bound, link.gathered.clock))
      && (!probed && (received || link.gathered.sendCount > link.received) ==>
            after == if link.received == 0 then link.bound else Max(link.bound, link.sent[link.received - 1]))
  {
    assert link.received > 0 ==> link.sent[link.received - 1] >= INITIAL_CLOCK;
  }

  // The group's messages are behind the clock of the rank that received them.
  lemma ReceivePasses(s: Net, r: nat)
    requires Inv(s) && CountsMatch(s) && Enabled(s, CompleteReceive(r))
    ensures After(s, CompleteReceive(r)).ranks[r].phase == Running
    ensures var group := s.ranks[r].phase.group;
      && After(s, CompleteReceive(r)).ranks[r].local >= s.ranks[r].local + |group|
      && forall j :: 0 <= j < |group| ==>
           After(s, CompleteReceive(r)).ranks[r].local > LinkOf(s, group[j].source, r).sent[group[j].number]
  {
    hide LinkOk, FloorOk;
    assert RankOk(s, r);
    var clocks := ReceivedClocks(s, r, s.ranks[r].phase.group);
    TicksPass(s.ranks[r].local, clocks);
    var after := After(s, CompleteReceive(r)).ranks[r];
    assert after.local == Ticks(s.ranks[r].local, clocks);
    forall j | 0 <= j < |clocks|
      ensures after.local > LinkOf(s, s.ranks[r].phase.group[j].source, r).sent[s.ranks[r].phase.group[j].number]
    {
      assert after.local >= clocks[j] + |clocks| - j;
    }
  }

  // What a rank may assume of a group's members is exposed, and so is any clock up to its own.
  lemma RaisesExpose(s: Net, step: Step, r: nat)
    requires Inv(s) && CountsMatch(s) && Enabled(s, step) && r < |s.ranks|
    ensures step.Raise? && step.r == r ==> After(s, step).ranks[r].exposed == Max(s.ranks[r].exposed, step.clock)
    ensures step.RaiseInterim? && step.r == r ==>
      && After(s, step).ranks[r].exposed >= s.ranks[r].local + |step.guesses|
      && forall j :: 0 <= j < |step.guesses| ==> After(s, step).ranks[r].exposed > step.guesses[j]
  {
    hide LinkOk;
    assert RankOk(s, r);
    if step.RaiseInterim? {
      TicksPass(s.ranks[r].local, step.guesses);
    }
  }

  // A channel: what is counted, sent and received, snapshots by gathering only, and no bound falls.
  lemma ChannelGrows(s: Net, step: Step, r: nat, p: nat)
    requires Inv(s) && CountsMatch(s) && Enabled(s, step) && r < |s.ranks| && p < |s.ranks|
    ensures var before, after := LinkOf(s, r, p), LinkOf(After(s, step), r, p);
      && before.bound <= after.bound
      && after.received == before.received + (if step == Receive(p, r) then 1 else 0)
      && after.counted == before.counted + (if step == RecordSend(r, p) then 1 else 0)
      && after.sent == before.sent +
         (if step == Isend(r) && s.ranks[r].phase == Sending(p) then [s.ranks[r].local] else [])
      && after.gathered ==
        if step == Gather(p, r) then Snapshot(s.ranks[r].exposed, before.counted) else before.gathered
  {
    hide LinkOk, RankOk;
    var link := LinkOf(s, r, p);
    if step.Update? && step.p == p && step.source == r {
      assert LinkOk(link, s.ranks[r], p);
      UpdateKeepsLink(link, s.ranks[r], p, step.probed, step.received);
      assert LinkOf(After(s, step), r, p) == AfterLink(link, step, s.ranks[r]);
    }
  }

  lemma {:induction false} BoundsRise(states: seq<Net>, steps: seq<Step>, i: nat, j: nat, r: nat, p: nat)
    requires IsRun(states, steps) && Inv(states[0]) && i <= j < |states| && r < |states[0].ranks|
      && p < |states[0].ranks|
    ensures |states[i].ranks| == |states[j].ranks| == |states[0].ranks|
    ensures LinkOf(states[i], r, p).bound <= LinkOf(states[j], r, p).bound
    decreases j - i
  {
    hide Inv, Enabled, After;
    RunKeepsInv(states, steps, i);
    RunKeepsInv(states, steps, j);
    if i < j {
      RunKeepsInv(states, steps, j - 1);
      BoundsRise(states, steps, i, j - 1, r, p);
      ChannelGrows(states[j - 1], steps[j - 1], r, p);
    }
  }

  lemma {:induction false} ExposedRises(states: seq<Net>, steps: seq<Step>, i: nat, j: nat, r: nat)
    requires IsRun(states, steps) && Inv(states[0]) && i <= j < |states| && r < |states[0].ranks|
    ensures |states[i].ranks| == |states[j].ranks| == |states[0].ranks|
    ensures states[i].ranks[r].exposed <= states[j].ranks[r].exposed
    decreases j - i
  {
    hide Inv, Enabled, After;
    RunKeepsInv(states, steps, i);
    RunKeepsInv(states, steps, j);
    if i < j {
      RunKeepsInv(states, steps, j - 1);
      ExposedRises(states, steps, i, j - 1, r);
      StepGrows(states[j - 1], steps[j - 1], r);
    }
  }

  // The snapshot of step i is kept until the next one.
  lemma {:induction false} SnapshotStays(states: seq<Net>, steps: seq<Step>, i: nat, m: nat, r: nat, p: nat)
    requires IsRun(states, steps) && Inv(states[0]) && i < m < |states| && r < |states[0].ranks|
      && p < |states[0].ranks|
    requires steps[i] == Gather(p, r) && forall x :: i < x < m ==> steps[x] != Gather(p, r)
    ensures |states[i].ranks| == |states[m].ranks| == |states[0].ranks|
    ensures LinkOf(states[m], r, p).gathered == Snapshot(states[i].ranks[r].exposed, LinkOf(states[i], r, p).counted)
    decreases m - i
  {
    hide Inv, Enabled, After;
    RunKeepsInv(states, steps, i);
    RunKeepsInv(states, steps, m - 1);
    RunKeepsInv(states, steps, m);
    ChannelGrows(states[m - 1], steps[m - 1], r, p);
    if i < m - 1 {
      SnapshotStays(states, steps, i, m - 1, r, p);
    }
  }

  // Look-ahead gains. Once p has received all messages that a snapshot of r counts, its next update
  // brings the bound up to the clock r exposed then, for the rest of the run.
  lemma SnapshotArrives(states: seq<Net>, steps: seq<Step>, i: nat, m: nat, j: nat, r: nat, p: nat)
    requires IsRun(states, steps) && states[0] == Begin(|states[0].ranks|) && i < m < j < |states|
    requires r < |states[0].ranks| && p < |states[0].ranks|
    requires steps[i] == Gather(p, r) && (forall x :: i < x < m ==> steps[x] != Gather(p, r))
    requires steps[m] == Update(p, r, false, false)
    ensures |states[i].ranks| == |states[m].ranks| == |states[j].ranks| == |states[0].ranks|
    ensures LinkOf(states[i], r, p).counted <= LinkOf(states[m], r, p).received ==>
      states[i].ranks[r].exposed <= LinkOf(states[j], r, p).bound
  {
    hide Enabled, After, LinkOk, RankOk;
    BeginInv(|states[0].ranks|);
    RunKeepsInv(states, steps, m);
    SnapshotStays(states, steps, i, m, r, p);
    BoundsRise(states, steps, m + 1, j, r, p);
    UpdateRaises(LinkOf(states[m], r, p), states[m].ranks[r], p, false, false);
    UpdateIsAfter(states[m], r, p, false, false);
  }

  lemma UpdateIsAfter(s: Net, r: nat, p: nat, probed: bool, received: bool)
    requires Square(s) && CountsMatch(s) && r < |s.ranks| && p < |s.ranks|
    ensures var link := LinkOf(s, r, p);
      LinkOf(After(s, Update(p, r, probed, received)), r, p).bound
        == AfterLink(link, Update(0, 0, probed, received), s.ranks[r]).bound
  {
  }

  // So a clock that r exposes, its own or, while it waits, one past everything it may assume of the
  // group, reaches the bound of p with the next snapshot.
  lemma ExposedClockArrives(states: seq<Net>, steps: seq<Step>, h: nat, i: nat, m: nat, j: nat, r: nat, p: nat)
    requires IsRun(states, steps) && states[0] == Begin(|states[0].ranks|) && h < i < m < j < |states|
    requires r < |states[0].ranks| && p < |states[0].ranks|
    requires steps[i] == Gather(p, r) && (forall x :: i < x < m ==> steps[x] != Gather(p, r))
    requires steps[m] == Update(p, r, false, false)
    ensures |states[i].ranks| == |states[m].ranks| == |states[j].ranks| == |states[0].ranks|
    ensures LinkOf(states[i], r, p).counted <= LinkOf(states[m], r, p).received ==>
      var bound := LinkOf(states[j], r, p).bound;
      && (steps[h].Raise? && steps[h].r == r ==> steps[h].clock <= bound)
      && (steps[h].RaiseInterim? && steps[h].r == r ==>
            forall k :: 0 <= k < |steps[h].guesses| ==> steps[h].guesses[k] < bound)
  {
    hide Enabled, After, Inv;
    BeginInv(|states[0].ranks|);
    RunKeepsInv(states, steps, h);
    RaisesExpose(states[h], steps[h], r);
    ExposedRises(states, steps, h + 1, i, r);
    SnapshotArrives(states, steps, i, m, j, r, p);
  }
}
