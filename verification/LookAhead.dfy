// The look-ahead clock protocol over any number of ranks with first-in-first-out channels: every
// rank publishes a lower bound of its next send clock next to its send counters; a receiver
// raises its bound for a sender from a snapshot of these once it has received all it counts.
module LookAhead {
  import opened Basics
  import opened ReplayGroups
  import Steps = ReplaySteps

  const INITIAL_CLOCK := 10

  // One read of a sender's window: its exposed clock and its send counter for the reader.
  datatype Snapshot = Snapshot(clock: int, sendCount: nat)

  // The channel from one rank to another: the send counter, the clocks of the messages sent, how
  // many are received, and what the receiver knows and concludes.
  datatype Link = Link(counted: nat, sent: seq<int>, received: nat, gathered: Snapshot, bound: int)

  // The number-th message of a sender.
  datatype Message = Message(source: nat, number: nat)

  // Where a rank is: computing, between counting and sending a message, or waiting for a group of
  // messages. The floors are history: the highest clock its exposed clock has assumed per member.
  datatype Phase = Running | Sending(dest: nat) | Waiting(group: seq<Message>, floors: seq<int>)

  datatype Rank = Rank(local: int, exposed: int, phase: Phase)

  datatype Net = Net(ranks: seq<Rank>, links: seq<seq<Link>>)

  predicate Square(s: Net) {
    |s.links| == |s.ranks| && forall r :: 0 <= r < |s.links| ==> |s.links[r]| == |s.ranks|
  }

  function LinkOf(s: Net, r: nat, p: nat): Link
    requires Square(s) && r < |s.ranks| && p < |s.ranks|
  {
    s.links[r][p]
  }

  function WithLink(s: Net, r: nat, p: nat, link: Link): (s': Net)
    requires Square(s) && r < |s.ranks| && p < |s.ranks|
    ensures Square(s') && s'.ranks == s.ranks
  {
    s.(links := s.links[r := s.links[r][p := link]])
  }

  function WithRank(s: Net, r: nat, rank: Rank): (s': Net)
    requires Square(s) && r < |s.ranks|
    ensures Square(s') && s'.links == s.links && |s'.ranks| == |s.ranks|
  {
    s.(ranks := s.ranks[r := rank])
  }

  // ---------------------------------------------------------------- the receiver's bound

  datatype HowTo = NoUpdate | LastRecvUpdate | LookAheadUpdate

  // The clock of the last message received, 0 before the first.
  function MaxReceived(link: Link): int
    requires link.received <= |link.sent|
  {
    if link.received == 0 then 0 else link.sent[link.received - 1]
  }

  // howto_update_look_ahead_recv_clock
  function HowToUpdate(probed: bool, received: bool, inFlight: bool, maxReceived: int, bound: int): HowTo {
    if probed then NoUpdate
    else if !received && !inFlight then LookAheadUpdate
    else if maxReceived == 0 then NoUpdate
    else if maxReceived + 1 < bound then NoUpdate
    else LastRecvUpdate
  }

  // One entry of update_local_look_ahead_recv_clock.
  function NewBound(howTo: HowTo, maxReceived: int, gathered: int, bound: int): int {
    match howTo
    case NoUpdate => bound
    case LastRecvUpdate => if bound < maxReceived then maxReceived else bound
    case LookAheadUpdate => if bound < gathered || gathered == Steps.COLLECTIVE_CLOCK then gathered else bound
  }

  // rempi_cp_has_in_flight_msgs
  predicate InFlight(gatheredCount: nat, received: nat) {
    !(gatheredCount <= received)
  }

  // ---------------------------------------------------------------- steps

  datatype Step =
    | RecordSend(r: nat, dest: nat)
    | Isend(r: nat)
    | Raise(r: nat, clock: int)
    | BeginReceive(r: nat, group: seq<Message>)
    | RaiseInterim(r: nat, guesses: seq<int>)
    | CompleteReceive(r: nat)
    | Tick(r: nat)
    | Gather(p: nat, source: nat)
    | Receive(p: nat, source: nat)
    | Update(p: nat, source: nat, probed: bool, received: bool)

  predicate IsRank(s: Net, r: nat) {
    r < |s.ranks|
  }

  // What a waiting rank may assume of a group member: the clock of a message it has, its bound
  // for the sender otherwise.
  predicate Justified(link: Link, number: nat, guess: int)
    requires link.received <= |link.sent|
  {
    if number < link.received then guess <= link.sent[number] else guess <= link.bound
  }

  predicate GroupExists(s: Net, group: seq<Message>) {
    forall j :: 0 <= j < |group| ==> group[j].source < |s.ranks|
  }

  predicate AllReceived(s: Net, p: nat, group: seq<Message>)
    requires Square(s) && p < |s.ranks| && GroupExists(s, group)
  {
    forall j :: 0 <= j < |group| ==>
      var link := LinkOf(s, group[j].source, p);
      link.received <= |link.sent| && group[j].number < link.received
  }

  function ReceivedClocks(s: Net, p: nat, group: seq<Message>): (c: seq<int>)
    requires Square(s) && p < |s.ranks| && GroupExists(s, group) && AllReceived(s, p, group)
    ensures |c| == |group|
  {
    seq(|group|, j requires 0 <= j < |group| => LinkOf(s, group[j].source, p).sent[group[j].number])
  }

  predicate CountsMatch(s: Net)
    requires Square(s)
  {
    forall r, p :: 0 <= r < |s.ranks| && 0 <= p < |s.ranks| ==> LinkOf(s, r, p).received <= |LinkOf(s, r, p).sent|
  }

  predicate Enabled(s: Net, step: Step)
    requires Square(s) && CountsMatch(s)
  {
    match step
    case RecordSend(r, dest) => IsRank(s, r) && IsRank(s, dest) && s.ranks[r].phase == Running
    case Isend(r) => IsRank(s, r) && s.ranks[r].phase.Sending? && IsRank(s, s.ranks[r].phase.dest)
    case Raise(r, clock) => IsRank(s, r) && clock <= s.ranks[r].local && (clock == 0 || clock >= INITIAL_CLOCK)
    case BeginReceive(r, group) => IsRank(s, r) && s.ranks[r].phase == Running && GroupExists(s, group)
    case RaiseInterim(r, guesses) =>
      && IsRank(s, r) && s.ranks[r].phase.Waiting? && GroupExists(s, s.ranks[r].phase.group)
      && |guesses| == |s.ranks[r].phase.group|
      && forall j :: 0 <= j < |guesses| ==>
           Justified(LinkOf(s, s.ranks[r].phase.group[j].source, r), s.ranks[r].phase.group[j].number, guesses[j])
    case CompleteReceive(r) =>
      && IsRank(s, r) && s.ranks[r].phase.Waiting? && GroupExists(s, s.ranks[r].phase.group)
      && AllReceived(s, r, s.ranks[r].phase.group)
    case Tick(r) => IsRank(s, r) && s.ranks[r].phase == Running
    case Gather(p, source) => IsRank(s, p) && IsRank(s, source)
    case Receive(p, source) => IsRank(s, p) && IsRank(s, source)
      && LinkOf(s, source, p).received < |LinkOf(s, source, p).sent|
    case Update(p, source, _, _) => IsRank(s, p) && IsRank(s, source)
  }

  function Floors(a: seq<int>, b: seq<int>): (c: seq<int>)
    requires |a| == |b|
    ensures |c| == |a| && forall j :: 0 <= j < |c| ==> c[j] == Max(a[j], b[j])
  {
    seq(|a|, j requires 0 <= j < |a| => Max(a[j], b[j]))
  }

  function Zeros(n: nat): (c: seq<int>)
    ensures |c| == n && forall j :: 0 <= j < n ==> c[j] == 0
  {
    seq(n, _ => 0)
  }

  function AfterRank(rank: Rank, step: Step, clocks: seq<int>): Rank {
    match step
    case RecordSend(_, dest) => rank.(phase := Sending(dest))
    case Isend(_) => rank.(local := rank.local + 1, phase := Running)
    case Raise(_, clock) => rank.(exposed := Max(rank.exposed, clock))
    case BeginReceive(_, group) => rank.(phase := Waiting(group, Zeros(|group|)))
    case RaiseInterim(_, guesses) =>
      if rank.phase.Waiting? && |rank.phase.floors| == |guesses| then
        rank.(exposed := Max(rank.exposed, Ticks(rank.local, guesses)),
              phase := rank.phase.(floors := Floors(rank.phase.floors, guesses)))
      else rank
    case CompleteReceive(_) => rank.(local := Ticks(rank.local, clocks), phase := Running)
    case Tick(_) => rank.(local := rank.local + 1)
    case _ => rank
  }

  function AfterLink(link: Link, step: Step, sender: Rank): Link
    requires link.received <= |link.sent|
  {
    match step
    case RecordSend(_, _) => link.(counted := link.counted + 1)
    case Isend(_) => link.(sent := link.sent + [sender.local])
    case Gather(_, _) => link.(gathered := Snapshot(sender.exposed, link.counted))
    case Receive(_, _) => if link.received < |link.sent| then link.(received := link.received + 1) else link
    case Update(_, _, probed, received) =>
      var howTo :=
        HowToUpdate(probed, received, InFlight(link.gathered.sendCount, link.received), MaxReceived(link), link.bound);
      link.(bound := NewBound(howTo, MaxReceived(link), link.gathered.clock, link.bound))
    case _ => link
  }

  function After(s: Net, step: Step): (s': Net)
    requires Square(s) && CountsMatch(s) && Enabled(s, step)
    ensures Square(s') && |s'.ranks| == |s.ranks|
  {
    match step
    case RecordSend(r, dest) =>
      WithRank(WithLink(s, r, dest, AfterLink(LinkOf(s, r, dest), step, s.ranks[r])), r,
               AfterRank(s.ranks[r], step, []))
    case Isend(r) =>
      var dest := s.ranks[r].phase.dest;
      WithRank(WithLink(s, r, dest, AfterLink(LinkOf(s, r, dest), step, s.ranks[r])), r,
               AfterRank(s.ranks[r], step, []))
    case CompleteReceive(r) =>
      WithRank(s, r, AfterRank(s.ranks[r], step, ReceivedClocks(s, r, s.ranks[r].phase.group)))
    case Gather(p, source) => WithLink(s, source, p, AfterLink(LinkOf(s, source, p), step, s.ranks[source]))
    case Receive(p, source) => WithLink(s, source, p, AfterLink(LinkOf(s, source, p), step, s.ranks[source]))
    case Update(p, source, _, _) => WithLink(s, source, p, AfterLink(LinkOf(s, source, p), step, s.ranks[source]))
    case Raise(r, _) => WithRank(s, r, AfterRank(s.ranks[r], step, []))
    case BeginReceive(r, _) => WithRank(s, r, AfterRank(s.ranks[r], step, []))
    case RaiseInterim(r, _) => WithRank(s, r, AfterRank(s.ranks[r], step, []))
    case Tick(r) => WithRank(s, r, AfterRank(s.ranks[r], step, []))
  }

  // No message sent, nothing exposed yet.
  function Begin(n: nat): (s: Net)
    ensures Square(s)
  {
    Net(seq(n, _ => Rank(INITIAL_CLOCK, 0, Running)), seq(n, _ => seq(n, _ => Link(0, [], 0, Snapshot(0, 0), 0))))
  }

  // ---------------------------------------------------------------- the invariant

  // No future message of the rank is below this.
  function Low(rank: Rank): int {
    Max(rank.local, rank.exposed)
  }

  // Messages from position n on are at or above the clock, and so is everything still to be sent.
  ghost predicate Above(link: Link, sender: Rank, n: nat, clock: int) {
    clock <= Low(sender) && forall i :: n <= i < |link.sent| ==> clock <= link.sent[i]
  }

  ghost predicate ValidClock(clock: int) {
    clock == 0 || clock >= INITIAL_CLOCK
  }

  ghost predicate LinkOk(link: Link, sender: Rank, p: nat) {
    && link.received <= |link.sent| <= link.counted
    && (sender.phase == Sending(p) ==> |link.sent| < link.counted)
    && Increasing(link.sent) && (forall i :: 0 <= i < |link.sent| ==> INITIAL_CLOCK <= link.sent[i] < sender.local)
    && Above(link, sender, link.gathered.sendCount, link.gathered.clock) && ValidClock(link.gathered.clock)
    && Above(link, sender, link.received, link.bound) && ValidClock(link.bound)
  }

  // The message has at least this clock, or will have when it is sent.
  ghost predicate FloorOk(link: Link, sender: Rank, number: nat, floor: int) {
    if number < |link.sent| then floor <= link.sent[number] else floor <= Low(sender)
  }

  // A rank that can send exposes no more than its clock; a waiting one no more than the clock the
  // floors give it after the group.
  ghost predicate RankOk(s: Net, p: nat)
    requires Square(s) && p < |s.ranks|
  {
    var rank := s.ranks[p];
    && rank.local >= INITIAL_CLOCK && ValidClock(rank.exposed)
    && match rank.phase
       case Waiting(group, floors) =>
         && |floors| == |group| && GroupExists(s, group) && rank.exposed <= Ticks(rank.local, floors)
         && forall j :: 0 <= j < |group| ==>
           FloorOk(LinkOf(s, group[j].source, p), s.ranks[group[j].source], group[j].number, floors[j])
       case Sending(dest) => dest < |s.ranks| && rank.exposed <= rank.local
       case Running => rank.exposed <= rank.local
  }

  ghost predicate Inv(s: Net) {
    && Square(s)
    && (forall r, p :: 0 <= r < |s.ranks| && 0 <= p < |s.ranks| ==> LinkOk(LinkOf(s, r, p), s.ranks[r], p))
    && (forall p :: 0 <= p < |s.ranks| ==> RankOk(s, p))
  }
}
