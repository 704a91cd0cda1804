// When the merge of matching sets does not depend on the order of the calls.
module MatchingSetOrders {

  import opened MatchingSets

  // ---------------------------------------------------------------- one call in closed form

  ghost predicate Touched(labels: map<int, int>, ids: seq<int>, value: int) {
    exists x :: x in ids && x in labels && labels[x] == value
  }

  // A call labels its ids, and with them everything that shares a label with one of them.
  ghost predicate Merged(labels: map<int, int>, ids: seq<int>, setId: int, after: map<int, int>) {
    && (forall y :: y in after <==> y in labels || y in ids)
    && (forall y :: y in after ==>
          after[y] == if y in ids || Touched(labels, ids, labels[y]) then setId else labels[y])
  }

  lemma {:induction false} AssignMerges(labels: map<int, int>, ids: seq<int>, setId: int)
    ensures Merged(labels, ids, setId, Assign(labels, ids, setId))
  {
    if ids != [] {
      var init, id := ids[..|ids| - 1], ids[|ids| - 1];
      var mid, after := Assign(labels, init, setId), Assign(labels, ids, setId);
      AssignMerges(labels, init, setId);
      forall y | y in after
        ensures after[y] == if y in ids || Touched(labels, ids, labels[y]) then setId else labels[y]
      {
        if y !in ids {
          assert y in mid && y in labels;
          assert Touched(labels, ids, labels[y]) <==>
            Touched(labels, init, labels[y]) || (id in labels && labels[id] == labels[y]);
        }
      }
    }
  }

  lemma {:induction false} AssignCallsConcat(labels: map<int, int>, a: seq<MpiCall>, b: seq<MpiCall>)
    ensures AssignCalls(labels, a + b) == AssignCalls(AssignCalls(labels, a), b)
  {
    if b == [] {
      assert a + b == a;
    } else {
      AssignCallsConcat(labels, a, b[..|b| - 1]);
      assert (a + b)[..|a + b| - 1] == a + b[..|b| - 1];
    }
  }

  // Exactly the ids of the calls get a label.
  lemma {:induction false} LabelledIds(labels: map<int, int>, calls: seq<MpiCall>, x: int)
    ensures x in AssignCalls(labels, calls) <==> x in labels || Occurs(calls, x)
  {
    if calls != [] {
      var init, last := calls[..|calls| - 1], calls[|calls| - 1];
      LabelledIds(labels, init, x);
      AssignMerges(AssignCalls(labels, init), last.ids, last.setId);
      assert Occurs(calls, x) <==> Occurs(init, x) || x in last.ids by {
        if Occurs(calls, x) {
          var c :| c in calls && x in c.ids;
        }
      }
    }
  }

  // ---------------------------------------------------------------- connected by shared ids

  // A chain of calls, each sharing an id with the next, leads from x to y.
  ghost predicate Chain(calls: seq<MpiCall>, chain: seq<MpiCall>, x: int, y: int) {
    && chain != []
    && var last := chain[|chain| - 1];
    && last in calls
    && y in last.ids
    && if |chain| == 1 then x in last.ids else exists z :: z in last.ids && Chain(calls, chain[..|chain| - 1], x, z)
  }

  ghost predicate Connected(calls: seq<MpiCall>, x: int, y: int) {
    exists chain :: Chain(calls, chain, x, y)
  }

  ghost predicate Constant(calls: seq<MpiCall>, f: int -> int) {
    forall c, x, y :: c in calls && x in c.ids && y in c.ids ==> f(x) == f(y)
  }

  lemma {:induction false} ChainAgrees(calls: seq<MpiCall>, chain: seq<MpiCall>, x: int, y: int, f: int -> int)
    requires Chain(calls, chain, x, y) && Constant(calls, f)
    ensures f(x) == f(y)
  {
    if |chain| > 1 {
      var last := chain[|chain| - 1];
      var z :| z in last.ids && Chain(calls, chain[..|chain| - 1], x, z);
      ChainAgrees(calls, chain[..|chain| - 1], x, z, f);
    }
  }

  lemma ConnectedAgree(calls: seq<MpiCall>, x: int, y: int, f: int -> int)
    requires Connected(calls, x, y) && Constant(calls, f)
    ensures f(x) == f(y)
  {
    var chain :| Chain(calls, chain, x, y);
    ChainAgrees(calls, chain, x, y, f);
  }

  lemma ChainGrows(calls: seq<MpiCall>, x: int, y: int, c: MpiCall, z: int)
    requires Connected(calls, x, y) && c in calls && y in c.ids && z in c.ids
    ensures Connected(calls, x, z)
  {
    var chain :| Chain(calls, chain, x, y);
    assert (chain + [c])[..|chain|] == chain;
    assert Chain(calls, chain + [c], x, z);
  }

  lemma SameCall(calls: seq<MpiCall>, c: MpiCall, x: int, y: int)
    requires c in calls && x in c.ids && y in c.ids
    ensures Connected(calls, x, y)
  {
    assert Chain(calls, [c], x, y);
  }

  ghost function ReachedFrom(calls: seq<MpiCall>, x: int): int -> int {
    y => if Connected(calls, x, y) then 1 else 0
  }

  lemma ReachedIsConstant(calls: seq<MpiCall>, x: int)
    ensures Constant(calls, ReachedFrom(calls, x))
  {
    forall c, y, z | c in calls && y in c.ids && z in c.ids
      ensures ReachedFrom(calls, x)(y) == ReachedFrom(calls, x)(z)
    {
      if Connected(calls, x, y) {
        ChainGrows(calls, x, y, c, z);
      } else if Connected(calls, x, z) {
        ChainGrows(calls, x, z, c, y);
      }
    }
  }

  // Connected ids are those every colouring constant on calls agrees on, so this is an equivalence.
  lemma AgreeingIsConnected(calls: seq<MpiCall>, x: int, y: int)
    requires Occurs(calls, x) && (forall f: int -> int :: Constant(calls, f) ==> f(x) == f(y))
    ensures Connected(calls, x, y)
  {
    var c :| c in calls && x in c.ids;
    SameCall(calls, c, x, x);
    ReachedIsConstant(calls, x);
    assert ReachedFrom(calls, x)(x) == ReachedFrom(calls, x)(y);
  }

  lemma ConnectedBack(calls: seq<MpiCall>, x: int, y: int)
    requires Connected(calls, x, y) && Occurs(calls, y)
    ensures Connected(calls, y, x)
  {
    forall f: int -> int | Constant(calls, f) ensures f(y) == f(x) {
      ConnectedAgree(calls, x, y, f);
    }
    AgreeingIsConnected(calls, y, x);
  }

  lemma ConnectedOn(calls: seq<MpiCall>, x: int, y: int, z: int)
    requires Connected(calls, x, y) && Connected(calls, y, z) && Occurs(calls, x)
    ensures Connected(calls, x, z)
  {
    forall f: int -> int | Constant(calls, f) ensures f(x) == f(z) {
      ConnectedAgree(calls, x, y, f);
      ConnectedAgree(calls, y, z, f);
    }
    AgreeingIsConnected(calls, x, z);
  }

  // ---------------------------------------------------------------- the condition

  ghost predicate CallOf(calls: seq<MpiCall>, x: int, c: MpiCall) {
    c in calls && c.ids != [] && Connected(calls, x, c.ids[0])
  }

  // Some call connected with x has this set id.
  ghost predicate Carries(calls: seq<MpiCall>, x: int, setId: int) {
    exists c :: CallOf(calls, x, c) && c.setId == setId
  }

  ghost predicate CarriesJust(calls: seq<MpiCall>, x: int, a: int, b: int) {
    forall setId :: Carries(calls, x, setId) <==> setId == a || setId == b
  }

  ghost predicate SameTwo(calls: seq<MpiCall>, x: int, y: int) {
    exists a, b :: CarriesJust(calls, x, a, b) && CarriesJust(calls, y, a, b)
  }

  // Unconnected ids that have a set id in common carry the same set ids, and at most two.
  ghost predicate Tidy(calls: seq<MpiCall>) {
    forall x, y, setId ::
      && Occurs(calls, x) && Occurs(calls, y) && !Connected(calls, x, y)
      && Carries(calls, x, setId) && Carries(calls, y, setId)
      ==> SameTwo(calls, x, y)
  }

  // The calls in this order put exactly the linked ids together.
  ghost predicate Exact(calls: seq<MpiCall>, order: seq<MpiCall>) {
    forall x, y :: Occurs(calls, x) && Occurs(calls, y) ==>
      (Together(AssignCalls(map[], order), x, y) <==> Linked(map[], calls, x, y))
  }

  ghost predicate Agree(calls: seq<MpiCall>, order: seq<MpiCall>, other: seq<MpiCall>) {
    forall x, y :: Occurs(calls, x) && Occurs(calls, y) ==>
      (Together(AssignCalls(map[], order), x, y) <==> Together(AssignCalls(map[], other), x, y))
  }

  // ---------------------------------------------------------------- tidy calls are merged exactly

  function Label(labels: map<int, int>, x: int): int {
    if x in labels then labels[x] else 0
  }

  // Connected ids carry the same set ids.
  lemma CarriesAlong(calls: seq<MpiCall>, x: int, y: int, setId: int)
    requires Connected(calls, x, y) && Occurs(calls, y) && Carries(calls, x, setId)
    ensures Carries(calls, y, setId)
  {
    var c :| CallOf(calls, x, c) && c.setId == setId;
    ConnectedBack(calls, x, y);
    ConnectedOn(calls, y, x, c.ids[0]);
    assert CallOf(calls, y, c);
  }

  lemma CarriesOwn(calls: seq<MpiCall>, c: MpiCall, x: int)
    requires c in calls && x in c.ids
    ensures Carries(calls, x, c.setId)
  {
    SameCall(calls, c, x, c.ids[0]);
    assert CallOf(calls, x, c);
  }

  // All calls done so far with this set id still have their label.
  ghost predicate Kept(labels: map<int, int>, done: seq<MpiCall>, setId: int) {
    forall c, x :: c in done && c.setId == setId && x in c.ids ==> Label(labels, x) == setId
  }

  // Calls with one of two set ids occur together or not at all, and every other call keeps off.
  ghost predicate Closed(calls: seq<MpiCall>, a: int, b: int, inside: int -> bool) {
    forall c, x :: c in calls && x in c.ids ==> (inside(x) <==> c.setId == a || c.setId == b)
  }

  ghost predicate TwoLabels(labels: map<int, int>, a: int, b: int, inside: int -> bool) {
    forall x :: x in labels ==> (labels[x] == a || labels[x] == b <==> inside(x))
  }

  // Of two sets whose calls keep to themselves one always takes over the other whole.
  lemma {:induction false} OneTakesOver(calls: seq<MpiCall>, a: int, b: int, inside: int -> bool)
    requires Closed(calls, a, b, inside)
    ensures TwoLabels(AssignCalls(map[], calls), a, b, inside)
    ensures Kept(AssignCalls(map[], calls), calls, a) || Kept(AssignCalls(map[], calls), calls, b)
  {
    if calls != [] {
      var init, last := calls[..|calls| - 1], calls[|calls| - 1];
      OneTakesOver(init, a, b, inside);
      forall d, x | d in init && x in d.ids ensures x in AssignCalls(map[], init) {
        LabelledIds(map[], init, x);
      }
      AssignMerges(AssignCalls(map[], init), last.ids, last.setId);
      assert init + [last] == calls;
      TakesOverStep(AssignCalls(map[], init), init, last, AssignCalls(map[], calls), a, b, inside);
    }
  }

  lemma TwoLabelsStep(labels: map<int, int>, c: MpiCall, after: map<int, int>, a: int, b: int, inside: int -> bool)
    requires Merged(labels, c.ids, c.setId, after) && TwoLabels(labels, a, b, inside)
    requires forall x :: x in c.ids ==> (inside(x) <==> c.setId == a || c.setId == b)
    ensures TwoLabels(after, a, b, inside)
  {
  }

  // A call with neither set id touches no id with one of the two labels.
  lemma OtherCallKeeps(labels: map<int, int>, done: seq<MpiCall>, c: MpiCall, after: map<int, int>,
                       a: int, b: int, inside: int -> bool, setId: int)
    requires Merged(labels, c.ids, c.setId, after) && TwoLabels(labels, a, b, inside)
    requires Closed(done + [c], a, b, inside) && c.setId != a && c.setId != b && (setId == a || setId == b)
    requires forall d, x :: d in done && x in d.ids ==> x in labels
    requires Kept(labels, done, setId)
    ensures Kept(after, done + [c], setId)
  {
    assert c in done + [c];
    forall d, x | d in done && d.setId == setId && x in d.ids ensures Label(after, x) == setId {
      assert d in done + [c];
      assert labels[x] == Label(labels, x) == setId && inside(x);
      assert !Touched(labels, c.ids, setId);
    }
  }

  // A call with one of the two set ids takes over, or it touches nothing of the other.
  lemma EitherIsKept(labels: map<int, int>, done: seq<MpiCall>, c: MpiCall, after: map<int, int>,
                     a: int, b: int, inside: int -> bool)
    requires Merged(labels, c.ids, c.setId, after) && TwoLabels(labels, a, b, inside)
    requires Closed(done + [c], a, b, inside) && c.setId == a
    requires forall d, x :: d in done && x in d.ids ==> x in labels
    requires Kept(labels, done, a) || Kept(labels, done, b)
    ensures Kept(after, done + [c], a) || Kept(after, done + [c], b)
  {
    assert c in done + [c];
    if Touched(labels, c.ids, b) || Kept(labels, done, a) {
      forall d, x | d in done + [c] && d.setId == a && x in d.ids ensures Label(after, x) == a {
        if x !in c.ids {
          assert labels[x] == a || labels[x] == b by {
            assert inside(x);
          }
          assert Kept(labels, done, a) ==> Label(labels, x) == a;
        }
      }
    } else {
      forall d, x | d in done + [c] && d.setId == b && x in d.ids ensures Label(after, x) == b {
        if d in done {
          assert Label(labels, x) == b;
        }
      }
    }
  }

  lemma TakesOverStep(labels: map<int, int>, done: seq<MpiCall>, c: MpiCall, after: map<int, int>,
                      a: int, b: int, inside: int -> bool)
    requires Merged(labels, c.ids, c.setId, after) && TwoLabels(labels, a, b, inside)
    requires Closed(done + [c], a, b, inside)
    requires forall d, x :: d in done && x in d.ids ==> x in labels
    requires Kept(labels, done, a) || Kept(labels, done, b)
    ensures TwoLabels(after, a, b, inside)
    ensures Kept(after, done + [c], a) || Kept(after, done + [c], b)
  {
    assert c in done + [c];
    TwoLabelsStep(labels, c, after, a, b, inside);
    if c.setId == a {
      EitherIsKept(labels, done, c, after, a, b, inside);
    } else if c.setId == b {
      assert TwoLabels(labels, b, a, inside) && Closed(done + [c], b, a, inside);
      EitherIsKept(labels, done, c, after, b, a, inside);
    } else if Kept(labels, done, a) {
      OtherCallKeeps(labels, done, c, after, a, b, inside, a);
    } else {
      OtherCallKeeps(labels, done, c, after, a, b, inside, b);
    }
  }

  lemma SameMembers(calls: seq<MpiCall>, order: seq<MpiCall>)
    requires multiset(order) == multiset(calls)
    ensures forall c :: c in order <==> c in calls
  {
    forall c ensures c in order <==> c in calls {
      assert c in order <==> c in multiset(order);
      assert c in calls <==> c in multiset(calls);
    }
  }

  ghost function FinalLabel(order: seq<MpiCall>): int -> int {
    x => Label(AssignCalls(map[], order), x)
  }

  lemma FinalIsConstant(calls: seq<MpiCall>, order: seq<MpiCall>)
    requires forall c :: c in calls ==> c in order
    ensures Constant(calls, FinalLabel(order))
  {
    forall c, x, y | c in calls && x in c.ids && y in c.ids ensures FinalLabel(order)(x) == FinalLabel(order)(y) {
      CallsEndTogether(map[], order, c, x, y);
    }
  }

  // Whatever is connected with a call that kept its label has that label.
  lemma KeptReaches(calls: seq<MpiCall>, order: seq<MpiCall>, x: int, setId: int)
    requires forall c :: c in calls <==> c in order
    requires Carries(calls, x, setId) && Kept(AssignCalls(map[], order), order, setId)
    ensures FinalLabel(order)(x) == setId
  {
    var c :| CallOf(calls, x, c) && c.setId == setId;
    assert c.ids[0] in c.ids;
    FinalIsConstant(calls, order);
    ConnectedAgree(calls, x, c.ids[0], FinalLabel(order));
  }

  ghost function CarriesEither(calls: seq<MpiCall>, a: int, b: int): int -> bool {
    x => Carries(calls, x, a) || Carries(calls, x, b)
  }

  lemma TidyIsClosed(calls: seq<MpiCall>, x: int, a: int, b: int)
    requires Tidy(calls) && Occurs(calls, x) && CarriesJust(calls, x, a, b)
    ensures Closed(calls, a, b, CarriesEither(calls, a, b))
  {
    forall c, z | c in calls && z in c.ids
      ensures CarriesEither(calls, a, b)(z) <==> c.setId == a || c.setId == b
    {
      CarriesOwn(calls, c, z);
      if CarriesEither(calls, a, b)(z) {
        var setId := if Carries(calls, z, a) then a else b;
        assert Carries(calls, x, setId) && Carries(calls, z, setId);
        if Connected(calls, z, x) {
          CarriesAlong(calls, z, x, c.setId);
        } else {
          assert SameTwo(calls, z, x);
        }
        assert Carries(calls, x, c.setId);
      }
    }
  }

  lemma CommonSetEndsTogether(calls: seq<MpiCall>, order: seq<MpiCall>, x: int, y: int, setId: int)
    requires Tidy(calls) && (forall c :: c in calls <==> c in order)
    requires Occurs(calls, x) && Occurs(calls, y) && Carries(calls, x, setId) && Carries(calls, y, setId)
    ensures FinalLabel(order)(x) == FinalLabel(order)(y)
  {
    if Connected(calls, x, y) {
      FinalIsConstant(calls, order);
      ConnectedAgree(calls, x, y, FinalLabel(order));
    } else {
      assert SameTwo(calls, x, y);
      var a, b :| CarriesJust(calls, x, a, b) && CarriesJust(calls, y, a, b);
      var inside := CarriesEither(calls, a, b);
      TidyIsClosed(calls, x, a, b);
      assert Closed(order, a, b, inside);
      OneTakesOver(order, a, b, inside);
      var winner := if Kept(AssignCalls(map[], order), order, a) then a else b;
      assert Carries(calls, x, winner) && Carries(calls, y, winner);
      KeptReaches(calls, order, x, winner);
      KeptReaches(calls, order, y, winner);
    }
  }

  ghost predicate HasSet(calls: seq<MpiCall>, setId: int, c: MpiCall) {
    c in calls && c.ids != [] && c.setId == setId
  }

  ghost function SomeCall(calls: seq<MpiCall>, setId: int): (c: MpiCall)
    requires exists c :: HasSet(calls, setId, c)
    ensures HasSet(calls, setId, c)
  {
    var c :| HasSet(calls, setId, c);
    c
  }

  ghost function FinalOfSet(calls: seq<MpiCall>, order: seq<MpiCall>): int -> int {
    setId =>
      if exists c :: HasSet(calls, setId, c) then FinalLabel(order)(SomeCall(calls, setId).ids[0]) else 0
  }

  lemma FinalRespects(calls: seq<MpiCall>, order: seq<MpiCall>)
    requires Tidy(calls) && (forall c :: c in calls <==> c in order)
    ensures Respects(map[], calls, FinalLabel(order), FinalOfSet(calls, order))
  {
    forall c, x | c in calls && x in c.ids
      ensures FinalLabel(order)(x) == FinalOfSet(calls, order)(c.setId)
    {
      assert HasSet(calls, c.setId, c);
      var d := SomeCall(calls, c.setId);
      assert d.ids[0] in d.ids;
      CarriesOwn(calls, c, x);
      CarriesOwn(calls, d, d.ids[0]);
      CommonSetEndsTogether(calls, order, x, d.ids[0], c.setId);
    }
  }

  lemma TidyIsExact(calls: seq<MpiCall>, order: seq<MpiCall>)
    requires Tidy(calls) && multiset(order) == multiset(calls)
    ensures Exact(calls, order)
  {
    SameMembers(calls, order);
    var end := AssignCalls(map[], order);
    forall x, y | Occurs(calls, x) && Occurs(calls, y) ensures Together(end, x, y) <==> Linked(map[], calls, x, y) {
      if Together(end, x, y) {
        OnlyLinkedEndTogether(map[], order, x, y);
        assert forall ofId: int -> int, ofLabel: int -> int ::
            Respects(map[], calls, ofId, ofLabel) ==> Respects(map[], order, ofId, ofLabel);
      }
      if Linked(map[], calls, x, y) {
        FinalRespects(calls, order);
        assert FinalLabel(order)(x) == FinalLabel(order)(y);
        LabelledIds(map[], order, x);
        LabelledIds(map[], order, y);
        assert Occurs(order, x) && Occurs(order, y);
      }
    }
  }

  // ---------------------------------------------------------------- orders in phases

  ghost function Filter(calls: seq<MpiCall>, keep: MpiCall -> bool): (r: seq<MpiCall>)
    ensures forall c :: c in r <==> c in calls && keep(c)
  {
    if calls == [] then []
    else (if keep(calls[0]) then [calls[0]] else []) + Filter(calls[1..], keep)
  }

  lemma {:induction false} FilterSplits(calls: seq<MpiCall>, one: MpiCall -> bool, two: MpiCall -> bool)
    requires forall c :: !(one(c) && two(c))
    ensures multiset(Filter(calls, c => one(c) || two(c)))
      == multiset(Filter(calls, one)) + multiset(Filter(calls, two))
  {
    if calls != [] {
      FilterSplits(calls[1..], one, two);
    }
  }

  lemma {:induction false} FilterAll(calls: seq<MpiCall>, keep: MpiCall -> bool)
    requires forall c :: c in calls ==> keep(c)
    ensures Filter(calls, keep) == calls
  {
    if calls != [] {
      FilterAll(calls[1..], keep);
    }
  }

  lemma {:induction false} FilterNone(calls: seq<MpiCall>, keep: MpiCall -> bool)
    requires forall c :: c in calls ==> !keep(c)
    ensures Filter(calls, keep) == []
  {
    if calls != [] {
      FilterNone(calls[1..], keep);
    }
  }

  // The calls of phase k, and the calls of the first n phases one phase after the other.
  ghost function InPhase(calls: seq<MpiCall>, phase: MpiCall -> nat, k: nat): (r: seq<MpiCall>)
    ensures forall c :: c in r <==> c in calls && phase(c) == k
  {
    Filter(calls, c => phase(c) == k)
  }

  ghost function Phases(calls: seq<MpiCall>, phase: MpiCall -> nat, n: nat): (r: seq<MpiCall>) {
    if n == 0 then [] else Phases(calls, phase, n - 1) + InPhase(calls, phase, n - 1)
  }

  lemma {:induction false} PhasesHold(calls: seq<MpiCall>, phase: MpiCall -> nat, n: nat)
    ensures multiset(Phases(calls, phase, n)) == multiset(Filter(calls, c => phase(c) < n))
  {
    if n == 0 {
      FilterNone(calls, c => phase(c) < n);
    } else {
      PhasesHold(calls, phase, n - 1);
      var before: MpiCall -> bool, now: MpiCall -> bool := c => phase(c) < n - 1, c => phase(c) == n - 1;
      FilterSplits(calls, before, now);
      FilterSame(calls, c => before(c) || now(c), c => phase(c) < n);
      FilterSame(calls, before, c => phase(c) < n - 1);
      FilterSame(calls, now, c => phase(c) == n - 1);
    }
  }

  lemma {:induction false} FilterSame(calls: seq<MpiCall>, keep: MpiCall -> bool, other: MpiCall -> bool)
    requires forall c :: keep(c) <==> other(c)
    ensures Filter(calls, keep) == Filter(calls, other)
  {
    if calls != [] {
      FilterSame(calls[1..], keep, other);
    }
  }

  lemma PhasesPermute(calls: seq<MpiCall>, phase: MpiCall -> nat, n: nat)
    requires forall c :: c in calls ==> phase(c) < n
    ensures multiset(Phases(calls, phase, n)) == multiset(calls)
  {
    PhasesHold(calls, phase, n);
    FilterAll(calls, c => phase(c) < n);
  }

  lemma FirstPhases(calls: seq<MpiCall>, phase: MpiCall -> nat)
    ensures Phases(calls, phase, 4)
      == InPhase(calls, phase, 0) + InPhase(calls, phase, 1) + InPhase(calls, phase, 2) + InPhase(calls, phase, 3)
  {
    hide InPhase;
    var one, two, three := Phases(calls, phase, 1), Phases(calls, phase, 2), Phases(calls, phase, 3);
    assert one == Phases(calls, phase, 0) + InPhase(calls, phase, 0) == InPhase(calls, phase, 0);
    assert two == one + InPhase(calls, phase, 1);
    assert three == two + InPhase(calls, phase, 2);
  }

  lemma SevenPhases(calls: seq<MpiCall>, phase: MpiCall -> nat)
    ensures Phases(calls, phase, 7)
      == InPhase(calls, phase, 0) + InPhase(calls, phase, 1) + InPhase(calls, phase, 2) + InPhase(calls, phase, 3)
         + InPhase(calls, phase, 4) + InPhase(calls, phase, 5) + InPhase(calls, phase, 6)
  {
    hide InPhase;
    FirstPhases(calls, phase);
    var five, six := Phases(calls, phase, 5), Phases(calls, phase, 6);
    assert five == Phases(calls, phase, 4) + InPhase(calls, phase, 4);
    assert six == five + InPhase(calls, phase, 5);
  }

  // ---------------------------------------------------------------- what later calls leave alone

  ghost predicate Apart(labels: map<int, int>, a: int -> bool, b: int -> bool) {
    forall x, y :: x in labels && y in labels && a(x) && b(y) ==> labels[x] != labels[y]
  }

  ghost predicate IdsWithin(calls: seq<MpiCall>, a: int -> bool) {
    forall c, x :: c in calls && x in c.ids ==> a(x)
  }

  ghost predicate Unchanged(labels: map<int, int>, after: map<int, int>, b: int -> bool) {
    forall y :: b(y) ==> (y in after <==> y in labels) && (y in labels ==> after[y] == labels[y])
  }

  // Calls on the one side whose set ids the other side does not have leave the other side alone.
  lemma {:induction false} KeepsAway(labels: map<int, int>, calls: seq<MpiCall>, a: int -> bool, b: int -> bool)
    requires IdsWithin(calls, a) && (forall x :: !(a(x) && b(x))) && Apart(labels, a, b)
    requires forall c, y :: c in calls && y in labels && b(y) ==> labels[y] != c.setId
    ensures Apart(AssignCalls(labels, calls), a, b)
    ensures Unchanged(labels, AssignCalls(labels, calls), b)
  {
    if calls != [] {
      var init, last := calls[..|calls| - 1], calls[|calls| - 1];
      KeepsAway(labels, init, a, b);
      AssignMerges(AssignCalls(labels, init), last.ids, last.setId);
      AwayStep(AssignCalls(labels, init), last, AssignCalls(labels, calls), a, b);
    }
  }

  lemma AwayStep(labels: map<int, int>, c: MpiCall, after: map<int, int>, a: int -> bool, b: int -> bool)
    requires Merged(labels, c.ids, c.setId, after) && Apart(labels, a, b)
    requires (forall x :: x in c.ids ==> a(x)) && (forall x :: !(a(x) && b(x)))
    requires forall y :: y in labels && b(y) ==> labels[y] != c.setId
    ensures Apart(after, a, b) && Unchanged(labels, after, b)
  {
  }

  // If all set ids have a property, so has every label that had it before or is given.
  lemma {:induction false} LabelsStay(labels: map<int, int>, calls: seq<MpiCall>, good: int -> bool, x: int)
    requires forall c :: c in calls ==> good(c.setId)
    requires (x in labels && good(labels[x])) || Occurs(calls, x)
    ensures x in AssignCalls(labels, calls) && good(AssignCalls(labels, calls)[x])
  {
    if calls != [] {
      var init, last := calls[..|calls| - 1], calls[|calls| - 1];
      AssignMerges(AssignCalls(labels, init), last.ids, last.setId);
      if x !in last.ids {
        if Occurs(calls, x) {
          var c :| c in calls && x in c.ids;
          assert c in init;
        }
        LabelsStay(labels, init, good, x);
      }
    }
  }

  // ---------------------------------------------------------------- an order that merges

  // Whatever is connected with the last calls has their set id.
  lemma LastSetWins(calls: seq<MpiCall>, first: seq<MpiCall>, last: seq<MpiCall>, setId: int, x: int)
    requires forall c :: c in calls <==> c in first + last
    requires forall c :: c in last <==> c in calls && c.setId == setId
    requires Carries(calls, x, setId)
    ensures FinalLabel(first + last)(x) == setId
  {
    var c :| CallOf(calls, x, c) && c.setId == setId;
    assert c in last && c.ids[0] in c.ids;
    AssignCallsConcat(map[], first, last);
    LabelsStay(AssignCalls(map[], first), last, s => s == setId, c.ids[0]);
    FinalIsConstant(calls, first + last);
    ConnectedAgree(calls, x, c.ids[0], FinalLabel(first + last));
  }

  lemma SetLast(calls: seq<MpiCall>, setId: int, x: int, y: int) returns (order: seq<MpiCall>)
    requires Occurs(calls, x) && Occurs(calls, y) && Carries(calls, x, setId) && Carries(calls, y, setId)
    ensures multiset(order) == multiset(calls) && Together(AssignCalls(map[], order), x, y)
  {
    var phase: MpiCall -> nat := (c: MpiCall) => if c.setId == setId then 1 else 0;
    PhasesPermute(calls, phase, 2);
    var first, last := Phases(calls, phase, 1), InPhase(calls, phase, 1);
    order := first + last;
    assert order == Phases(calls, phase, 2);
    SameMembers(calls, order);
    LastSetWins(calls, first, last, setId, x);
    LastSetWins(calls, first, last, setId, y);
    LabelledIds(map[], order, x);
    LabelledIds(map[], order, y);
  }

  // ---------------------------------------------------------------- an order that does not

  ghost function Side(calls: seq<MpiCall>, x: int): int -> bool {
    z => Connected(calls, x, z)
  }

  ghost predicate IsOn(calls: seq<MpiCall>, x: int, c: MpiCall) {
    c.ids != [] && Connected(calls, x, c.ids[0])
  }

  lemma OnSide(calls: seq<MpiCall>, x: int, c: MpiCall, z: int)
    requires c in calls && z in c.ids
    ensures IsOn(calls, x, c) <==> Connected(calls, x, z)
  {
    if Connected(calls, x, z) {
      ChainGrows(calls, x, z, c, c.ids[0]);
    } else if IsOn(calls, x, c) {
      ChainGrows(calls, x, c.ids[0], c, z);
    }
  }

  lemma SidesDisjoint(calls: seq<MpiCall>, x: int, y: int)
    requires Occurs(calls, x) && Occurs(calls, y) && !Connected(calls, x, y)
    ensures forall z :: !(Side(calls, x)(z) && Side(calls, y)(z))
  {
    forall z | Connected(calls, x, z) && Connected(calls, y, z) ensures false {
      ConnectedOccurs(calls, y, z);
      ConnectedBack(calls, y, z);
      ConnectedOn(calls, x, z, y);
    }
  }

  lemma SidesDifferOnCalls(calls: seq<MpiCall>, x: int, y: int)
    requires forall z :: !(Side(calls, x)(z) && Side(calls, y)(z))
    ensures forall c :: !(IsOn(calls, x, c) && IsOn(calls, y, c))
  {
    forall c | IsOn(calls, x, c) ensures !IsOn(calls, y, c) {
      assert Side(calls, x)(c.ids[0]);
    }
  }

  lemma ConnectedOccurs(calls: seq<MpiCall>, x: int, y: int)
    requires Connected(calls, x, y)
    ensures Occurs(calls, y)
  {
    var chain :| Chain(calls, chain, x, y);
    assert chain[|chain| - 1] in calls;
  }

  ghost predicate Interlinked(part: seq<MpiCall>) {
    forall y, z :: Occurs(part, y) && Occurs(part, z) ==> Connected(part, y, z)
  }

  // The calls of one side are connected among themselves.
  lemma SideIsJoined(calls: seq<MpiCall>, x: int, part: seq<MpiCall>)
    requires forall c :: c in calls && IsOn(calls, x, c) <==> c in part && c.ids != []
    ensures Interlinked(part)
  {
    forall y, z | Occurs(part, y) && Occurs(part, z) ensures Connected(part, y, z) {
      OccursOnSide(calls, x, part, y);
      OccursOnSide(calls, x, part, z);
      forall f: int -> int | Constant(part, f) ensures f(y) == f(z) {
        var g: int -> int := w => if Connected(calls, x, w) then f(w) else 0;
        forall d, v, w | d in calls && v in d.ids && w in d.ids ensures g(v) == g(w) {
          OnSide(calls, x, d, v);
          OnSide(calls, x, d, w);
        }
        ConnectedAgree(calls, x, y, g);
        ConnectedAgree(calls, x, z, g);
      }
      AgreeingIsConnected(part, y, z);
    }
  }

  lemma OccursOnSide(calls: seq<MpiCall>, x: int, part: seq<MpiCall>, y: int)
    requires forall c :: c in part && c.ids != [] ==> c in calls && IsOn(calls, x, c)
    requires Occurs(part, y)
    ensures Connected(calls, x, y)
  {
    var c :| c in part && y in c.ids;
    OnSide(calls, x, c, y);
  }

  ghost predicate AllOfSet(calls: seq<MpiCall>, t: int) {
    forall c :: c in calls ==> c.setId == t
  }

  // Once connected calls are done, those of set t last, their ids have label t.
  lemma LastTakesAll(start: map<int, int>, done: seq<MpiCall>, last: seq<MpiCall>, t: int, z: int)
    requires Interlinked(done + last) && AllOfSet(last, t) && (exists c :: c in last && c.ids != [])
    requires Occurs(done + last, z)
    ensures var end := AssignCalls(AssignCalls(start, done), last); z in end && end[z] == t
  {
    var end := AssignCalls(AssignCalls(start, done), last);
    AssignCallsConcat(start, done, last);
    var c :| c in last && c.ids != [];
    var w := c.ids[0];
    assert w in c.ids && c in done + last;
    LabelsStay(AssignCalls(start, done), last, s => s == t, w);
    var f: int -> int := y => Label(end, y);
    hide AssignCalls, Connected;
    forall d, y, y' | d in done + last && y in d.ids && y' in d.ids ensures f(y) == f(y') {
      CallsEndTogether(start, done + last, d, y, y');
    }
    assert Occurs(done + last, w);
    ConnectedAgree(done + last, w, z, f);
    LabelledIds(start, done + last, z);
  }

  ghost predicate AllOn(calls: seq<MpiCall>, x: int, part: seq<MpiCall>) {
    forall c :: c in part ==> c in calls && IsOn(calls, x, c)
  }

  ghost predicate NoneOn(calls: seq<MpiCall>, x: int, part: seq<MpiCall>) {
    forall c :: c in part ==> c in calls && !IsOn(calls, x, c)
  }

  lemma WithinSide(calls: seq<MpiCall>, x: int, part: seq<MpiCall>)
    requires AllOn(calls, x, part)
    ensures IdsWithin(part, Side(calls, x))
  {
    forall c, z | c in part && z in c.ids ensures Side(calls, x)(z) {
      OnSide(calls, x, c, z);
    }
  }

  ghost predicate Fresh(labels: map<int, int>, a: int -> bool) {
    forall z :: a(z) ==> z !in labels
  }

  lemma StaysFresh(calls: seq<MpiCall>, x: int, start: map<int, int>, part: seq<MpiCall>)
    requires NoneOn(calls, x, part) && Fresh(start, Side(calls, x))
    ensures Fresh(AssignCalls(start, part), Side(calls, x))
  {
    forall z | Connected(calls, x, z) ensures z !in AssignCalls(start, part) {
      LabelledIds(start, part, z);
      assert Side(calls, x)(z);
      if Occurs(part, z) {
        var c :| c in part && z in c.ids;
        OnSide(calls, x, c, z);
      }
    }
  }

  lemma OwnConnected(calls: seq<MpiCall>, x: int)
    requires Occurs(calls, x)
    ensures Side(calls, x)(x)
  {
    var c :| c in calls && x in c.ids;
    SameCall(calls, c, x, x);
  }

  ghost predicate AllAre(labels: map<int, int>, a: int -> bool, t: int) {
    forall z :: a(z) && z in labels ==> labels[z] == t
  }

  ghost predicate NoneIs(labels: map<int, int>, a: int -> bool, t: int) {
    forall z :: a(z) && z in labels ==> labels[z] != t
  }

  // A side whose calls come together, those of set t last, has label t.
  lemma SideTakes(calls: seq<MpiCall>, x: int, start: map<int, int>, done: seq<MpiCall>, last: seq<MpiCall>, t: int)
    requires Fresh(start, Side(calls, x)) && AllOn(calls, x, done) && AllOn(calls, x, last)
    requires Interlinked(done + last) && AllOfSet(last, t) && last != []
    ensures AllAre(AssignCalls(AssignCalls(start, done), last), Side(calls, x), t)
    ensures forall z :: Occurs(done + last, z) ==> z in AssignCalls(AssignCalls(start, done), last)
  {
    AssignCallsConcat(start, done, last);
    assert last[0] in last;
    forall z | Occurs(done + last, z)
      ensures var end := AssignCalls(AssignCalls(start, done), last); z in end && end[z] == t
    {
      LastTakesAll(start, done, last, t, z);
    }
    forall z | z in AssignCalls(start, done + last) && Side(calls, x)(z) ensures Occurs(done + last, z) {
      LabelledIds(start, done + last, z);
    }
  }

  ghost function OwnSetPhase(calls: seq<MpiCall>, x: int, y: int, t: int): MpiCall -> nat {
    (c: MpiCall) =>
      if IsOn(calls, x, c) then (if c.setId == t then 2 else 1) else if IsOn(calls, y, c) then 3 else 0
  }

  // A side that has a set id the other does not have can be kept apart.
  lemma KeptApartByOwnSet(calls: seq<MpiCall>, x: int, y: int, t: int) returns (order: seq<MpiCall>)
    requires Occurs(calls, x) && Occurs(calls, y) && !Connected(calls, x, y)
    requires Carries(calls, x, t) && !Carries(calls, y, t)
    ensures multiset(order) == multiset(calls) && !Together(AssignCalls(map[], order), x, y)
  {
    hide Phases, InPhase, Filter, Occurs, Connected, Carries, IsOn, AssignCalls;
    var phase := OwnSetPhase(calls, x, y, t);
    PhasesPermute(calls, phase, 4);
    order := Phases(calls, phase, 4);
    FirstPhases(calls, phase);
    SidesDisjoint(calls, x, y);
    OwnSetParts(calls, x, y, t);
    var early, late := InPhase(calls, phase, 1), InPhase(calls, phase, 2);
    OwnSetOrder(calls, x, y, t, InPhase(calls, phase, 0), early, late, InPhase(calls, phase, 3));
  }

  lemma OwnSetParts(calls: seq<MpiCall>, x: int, y: int, t: int)
    requires Occurs(calls, x) && Carries(calls, x, t)
    requires forall z :: !(Side(calls, x)(z) && Side(calls, y)(z))
    ensures var phase := OwnSetPhase(calls, x, y, t);
      var others, early, late, rest :=
        InPhase(calls, phase, 0), InPhase(calls, phase, 1), InPhase(calls, phase, 2), InPhase(calls, phase, 3);
      && NoneOn(calls, x, others) && NoneOn(calls, y, others)
      && AllOn(calls, x, early) && AllOn(calls, x, late) && NoneOn(calls, y, early) && NoneOn(calls, y, late)
      && AllOn(calls, y, rest) && Interlinked(early + late) && AllOfSet(late, t) && late != []
        && Occurs(early + late, x)
  {
    hide InPhase, Occurs, Connected, Carries, IsOn, Interlinked;
    SidesDifferOnCalls(calls, x, y);
    var phase := OwnSetPhase(calls, x, y, t);
    var early, late := InPhase(calls, phase, 1), InPhase(calls, phase, 2);
    forall c ensures c in calls && IsOn(calls, x, c) <==> c in early + late && c.ids != [] {
      OnHasIds(calls, x, c);
    }
    SideIsJoined(calls, x, early + late);
    CallHere(calls, x, t, early + late);
  }

  lemma OnHasIds(calls: seq<MpiCall>, x: int, c: MpiCall)
    ensures IsOn(calls, x, c) ==> c.ids != []
  {
  }

  lemma CallHere(calls: seq<MpiCall>, x: int, t: int, part: seq<MpiCall>)
    requires Occurs(calls, x) && Carries(calls, x, t)
    requires forall c :: c in calls && IsOn(calls, x, c) ==> c in part
    ensures exists c :: c in part && IsOn(calls, x, c) && c.setId == t
    ensures Occurs(part, x)
  {
    var c :| CallOf(calls, x, c) && c.setId == t;
    assert IsOn(calls, x, c);
    var d :| d in calls && x in d.ids;
    SameCall(calls, d, x, d.ids[0]);
    assert IsOn(calls, x, d);
  }

  lemma OwnSetOrder(calls: seq<MpiCall>, x: int, y: int, t: int,
                    others: seq<MpiCall>, early: seq<MpiCall>, late: seq<MpiCall>, rest: seq<MpiCall>)
    requires Occurs(calls, x) && Occurs(calls, y) && (forall z :: !(Side(calls, x)(z) && Side(calls, y)(z)))
    requires !Carries(calls, y, t)
    requires NoneOn(calls, x, others) && NoneOn(calls, y, others) && NoneOn(calls, y, early) && NoneOn(calls, y, late)
    requires AllOn(calls, x, early) && AllOn(calls, x, late) && Interlinked(early + late) && AllOfSet(late, t)
      && late != []
    requires AllOn(calls, y, rest)
    requires Occurs(early + late, x)
    ensures !Together(AssignCalls(map[], others + early + late + rest), x, y)
  {
    hide Occurs, Connected, AssignCalls;
    var e0 := AssignCalls(map[], others);
    var e2 := AssignCalls(AssignCalls(e0, early), late);
    var end := AssignCalls(e2, rest);
    AssignCallsConcat(map[], others + early + late, rest);
    AssignCallsConcat(map[], others + early, late);
    AssignCallsConcat(map[], others, early);
    var a, b := Side(calls, x), Side(calls, y);
    StaysFresh(calls, x, map[], others);
    StaysFresh(calls, y, map[], others);
    StaysFresh(calls, y, e0, early);
    StaysFresh(calls, y, AssignCalls(e0, early), late);
    SideTakes(calls, x, e0, early, late, t);
    forall c | c in rest ensures c.setId != t {
      assert CallOf(calls, y, c);
    }
    WithinSide(calls, y, rest);
    KeepsAway(e2, rest, b, a);
    OwnConnected(calls, x);
    OwnConnected(calls, y);
  }

  // ---------------------------------------------------------------- three common set ids

  ghost predicate Shares(part: seq<MpiCall>, c: MpiCall) {
    exists z :: z in c.ids && Occurs(part, z)
  }

  ghost predicate IsNext(calls: seq<MpiCall>, x: int, done: seq<MpiCall>, c: MpiCall) {
    c in calls && IsOn(calls, x, c) && c !in done && Shares(done, c)
  }

  // As long as calls of a side are left, one of them shares an id with those done.
  lemma NextExists(calls: seq<MpiCall>, x: int, done: seq<MpiCall>, c: MpiCall)
    requires done != [] && AllOn(calls, x, done) && c in calls && IsOn(calls, x, c) && c !in done
    ensures exists d :: IsNext(calls, x, done, d)
  {
    if forall d :: !IsNext(calls, x, done, d) {
      var f: int -> int := z => if Occurs(done, z) then 1 else 0;
      forall d, y, z | d in calls && y in d.ids && z in d.ids ensures f(y) == f(z) {
        if Occurs(done, y) {
          SharedStays(calls, x, done, d, y, z);
        } else if Occurs(done, z) {
          SharedStays(calls, x, done, d, z, y);
        }
      }
      assert done[0] in done && done[0].ids[0] in done[0].ids && c.ids[0] in c.ids;
      assert Occurs(done, done[0].ids[0]);
      ConnectedAgree(calls, x, c.ids[0], f);
      ConnectedAgree(calls, x, done[0].ids[0], f);
      assert IsNext(calls, x, done, c);
    }
  }

  lemma SharedStays(calls: seq<MpiCall>, x: int, done: seq<MpiCall>, d: MpiCall, y: int, z: int)
    requires AllOn(calls, x, done) && !IsNext(calls, x, done, d)
    requires d in calls && y in d.ids && z in d.ids && Occurs(done, y)
    ensures Occurs(done, z)
  {
    OccursOnSide(calls, x, done, y);
    OnSide(calls, x, d, y);
  }

  lemma JoinedGrows(done: seq<MpiCall>, c: MpiCall)
    requires Interlinked(done) && Shares(done, c)
    ensures Interlinked(done + [c])
  {
    var w :| w in c.ids && Occurs(done, w);
    forall y, z | Occurs(done + [c], y) && Occurs(done + [c], z) ensures Connected(done + [c], y, z) {
      forall f: int -> int | Constant(done + [c], f) ensures f(y) == f(z) {
        GrownAgree(done, c, w, y, f);
        GrownAgree(done, c, w, z, f);
      }
      AgreeingIsConnected(done + [c], y, z);
    }
  }

  lemma GrownAgree(done: seq<MpiCall>, c: MpiCall, w: int, y: int, f: int -> int)
    requires Interlinked(done) && w in c.ids && Occurs(done, w) && Occurs(done + [c], y) && Constant(done + [c], f)
    ensures f(w) == f(y)
  {
    assert c in done + [c];
    if Occurs(done, y) {
      ConnectedAgree(done, w, y, f);
    } else {
      var d :| d in done + [c] && y in d.ids;
      assert d == c;
    }
  }

  ghost function CallsLeft(calls: seq<MpiCall>, done: seq<MpiCall>): set<MpiCall> {
    set c | c in calls && c !in done
  }

  lemma LeftShrinks(calls: seq<MpiCall>, done: seq<MpiCall>, d: MpiCall)
    requires d in calls && d !in done
    ensures CallsLeft(calls, done + [d]) < CallsLeft(calls, done)
  {
    assert d in CallsLeft(calls, done);
    forall c | c in CallsLeft(calls, done + [d]) ensures c in CallsLeft(calls, done) {
      assert c !in done + [d];
      assert c in done ==> c in done + [d];
    }
    assert d in done + [d];
  }

  // A side can be built up call by call, each sharing an id with those before: the last call
  // leaves the others connected.
  lemma LastOfSide(calls: seq<MpiCall>, x: int, done: seq<MpiCall>, c: MpiCall)
    returns (most: seq<MpiCall>, last: MpiCall)
    requires done != [] && AllOn(calls, x, done) && Interlinked(done)
    requires c in calls && IsOn(calls, x, c) && c !in done
    ensures AllOn(calls, x, most) && Interlinked(most) && IsNext(calls, x, most, last)
    ensures forall d :: d in calls && IsOn(calls, x, d) ==> d in most || d == last
    decreases CallsLeft(calls, done)
  {
    hide Interlinked, Shares, IsOn, CallsLeft;
    NextExists(calls, x, done, c);
    var d :| IsNext(calls, x, done, d);
    if e :| e in calls && IsOn(calls, x, e) && e !in done && e != d {
      JoinedGrows(done, d);
      LeftShrinks(calls, done, d);
      most, last := LastOfSide(calls, x, done + [d], e);
    } else {
      most, last := done, d;
    }
  }

  ghost predicate OfSet(calls: seq<MpiCall>, y: int, u: int, z: int) {
    exists c :: c in calls && IsOn(calls, y, c) && c.setId == u && z in c.ids
  }

  ghost predicate IsBorder(calls: seq<MpiCall>, y: int, u: int, z: int, c: MpiCall) {
    c in calls && c.setId != u && z in c.ids && OfSet(calls, y, u, z)
  }

  // On a side with two set ids, a call with one and a call with another share an id.
  lemma BorderExists(calls: seq<MpiCall>, y: int, u: int, v: int)
    requires Carries(calls, y, u) && Carries(calls, y, v) && u != v
    ensures exists z, c :: IsBorder(calls, y, u, z, c)
  {
    if forall z, c :: !IsBorder(calls, y, u, z, c) {
      var f: int -> int := z => if OfSet(calls, y, u, z) then 1 else 0;
      forall d, z, w | d in calls && z in d.ids && w in d.ids ensures f(z) == f(w) {
        if OfSet(calls, y, u, z) {
          OfSetStays(calls, y, u, d, z, w);
        } else if OfSet(calls, y, u, w) {
          OfSetStays(calls, y, u, d, w, z);
        }
      }
      var c :| CallOf(calls, y, c) && c.setId == u;
      var d :| CallOf(calls, y, d) && d.setId == v;
      assert c.ids[0] in c.ids && d.ids[0] in d.ids;
      assert IsOn(calls, y, c);
      assert OfSet(calls, y, u, c.ids[0]);
      ConnectedAgree(calls, y, c.ids[0], f);
      ConnectedAgree(calls, y, d.ids[0], f);
      assert IsBorder(calls, y, u, d.ids[0], d);
    }
  }

  lemma OfSetStays(calls: seq<MpiCall>, y: int, u: int, d: MpiCall, z: int, w: int)
    requires !IsBorder(calls, y, u, z, d) && d in calls && z in d.ids && w in d.ids && OfSet(calls, y, u, z)
    ensures OfSet(calls, y, u, w)
  {
    var c :| c in calls && IsOn(calls, y, c) && c.setId == u && z in c.ids;
    OnSide(calls, y, c, z);
    OnSide(calls, y, d, z);
  }

  lemma ThreeSets(calls: seq<MpiCall>, x: int, u: int, v: int) returns (p: int)
    requires Carries(calls, x, u) && Carries(calls, x, v) && !CarriesJust(calls, x, u, v)
    ensures Carries(calls, x, p) && p != u && p != v
  {
    p :| !(Carries(calls, x, p) <==> p == u || p == v);
  }

  lemma OtherSideFresh(calls: seq<MpiCall>, x: int, y: int, start: map<int, int>, part: seq<MpiCall>)
    requires forall z :: !(Side(calls, x)(z) && Side(calls, y)(z))
    requires AllOn(calls, x, part) && Fresh(start, Side(calls, y))
    ensures Fresh(AssignCalls(start, part), Side(calls, y))
  {
    hide Connected, IsOn, AssignCalls;
    SidesDifferOnCalls(calls, x, y);
    StaysFresh(calls, y, start, part);
  }

  // A side whose calls of set u come first, then calls of other sets that meet them, loses label u.
  lemma GivesLabelAway(calls: seq<MpiCall>, y: int, u: int, start: map<int, int>,
                       first: seq<MpiCall>, middle: seq<MpiCall>)
    requires Fresh(start, Side(calls, y)) && AllOfSet(first, u)
    requires forall c :: c in middle ==> c.setId != u
    requires exists z :: Occurs(first, z) && Occurs(middle, z)
    ensures NoneIs(AssignCalls(AssignCalls(start, first), middle), Side(calls, y), u)
  {
    var mid := AssignCalls(start, first);
    var end := AssignCalls(mid, middle);
    var w :| Occurs(first, w) && Occurs(middle, w);
    LabelsStay(start, first, s => s == u, w);
    LabelsStay(mid, middle, s => s != u, w);
    forall z | Side(calls, y)(z) && z in end ensures end[z] != u {
      if Occurs(middle, z) {
        LabelsStay(mid, middle, s => s != u, z);
      } else {
        LabelledIds(mid, middle, z);
        LabelledIds(start, first, z);
        LabelsStay(start, first, s => s == u, z);
        TogetherStays(mid, middle, z, w);
      }
    }
  }

  // Calls of set u that meet a side with one label give it label u.
  lemma TurnsOver(calls: seq<MpiCall>, x: int, u: int, p: int, start: map<int, int>, turn: seq<MpiCall>, w: int)
    requires AllAre(start, Side(calls, x), p) && AllOfSet(turn, u) && Side(calls, x)(w) && w in start && Occurs(turn, w)
    ensures AllAre(AssignCalls(start, turn), Side(calls, x), u)
  {
    var end := AssignCalls(start, turn);
    LabelsStay(start, turn, s => s == u, w);
    forall z | Side(calls, x)(z) && z in end ensures end[z] == u {
      if Occurs(turn, z) {
        LabelsStay(start, turn, s => s == u, z);
      } else {
        LabelledIds(start, turn, z);
        TogetherStays(start, turn, z, w);
      }
    }
  }

  // The first side is given label p, all but its last call; the other side gets rid of label u;
  // the last call turns the first side to u; and nothing on the other side has u any more.
  lemma ThreeSetsOrder(calls: seq<MpiCall>, x: int, y: int, u: int, p: int, start: map<int, int>,
                       early: seq<MpiCall>, late: seq<MpiCall>, first: seq<MpiCall>, middle: seq<MpiCall>,
                       turn: seq<MpiCall>, rest: seq<MpiCall>)
    requires forall z :: !(Side(calls, x)(z) && Side(calls, y)(z))
    requires Fresh(start, Side(calls, x)) && Fresh(start, Side(calls, y)) && u != p
    requires AllOn(calls, x, early) && AllOn(calls, x, late) && AllOn(calls, x, turn)
    requires AllOn(calls, y, first) && AllOn(calls, y, middle) && AllOn(calls, y, rest)
    requires Interlinked(early + late) && AllOfSet(late, p) && late != []
    requires AllOfSet(first, u) && AllOfSet(turn, u) && AllOfSet(rest, p)
    requires forall c :: c in middle ==> c.setId != u && c.setId != p
    requires exists z :: Occurs(first, z) && Occurs(middle, z)
    requires exists z :: Occurs(early + late, z) && Occurs(turn, z)
    ensures Apart(AssignCalls(start, early + late + first + middle + turn + rest), Side(calls, y), Side(calls, x))
  {
    hide Occurs, Connected, AssignCalls, Interlinked, IsOn;
    var a, b := Side(calls, x), Side(calls, y);
    var e1 := AssignCalls(start, early);
    var e2 := AssignCalls(e1, late);
    var e3 := AssignCalls(e2, first);
    var e4 := AssignCalls(e3, middle);
    var e5 := AssignCalls(e4, turn);
    AssignCallsConcat(start, early + late + first + middle + turn, rest);
    AssignCallsConcat(start, early + late + first + middle, turn);
    AssignCallsConcat(start, early + late + first, middle);
    AssignCallsConcat(start, early + late, first);
    AssignCallsConcat(start, early, late);
    SideTakes(calls, x, start, early, late, p);
    OtherSideFresh(calls, x, y, start, early);
    OtherSideFresh(calls, x, y, e1, late);
    WithinSide(calls, y, first);
    KeepsAway(e2, first, b, a);
    WithinSide(calls, y, middle);
    KeepsAway(e3, middle, b, a);
    GivesLabelAway(calls, y, u, e2, first, middle);
    var w :| Occurs(early + late, w) && Occurs(turn, w);
    OccursOnSide(calls, x, turn, w);
    WithinSide(calls, x, turn);
    assert Side(calls, x)(w);
    KeepsAway(e4, turn, a, b);
    TurnsOver(calls, x, u, p, e4, turn, w);
    WithinSide(calls, y, rest);
    KeepsAway(e5, rest, b, a);
  }

  lemma SameCallsJoined(part: seq<MpiCall>, other: seq<MpiCall>)
    requires Interlinked(part) && (forall c :: c in part <==> c in other)
    ensures Interlinked(other)
  {
    forall y, z | Occurs(other, y) && Occurs(other, z) ensures Connected(other, y, z) {
      assert Occurs(part, y) && Occurs(part, z);
      forall f: int -> int | Constant(other, f) ensures f(y) == f(z) {
        ConnectedAgree(part, y, z, f);
      }
      AgreeingIsConnected(other, y, z);
    }
  }

  ghost function ThreeSetsPhase(calls: seq<MpiCall>, x: int, y: int, u: int, p: int, last: MpiCall): MpiCall -> nat {
    (c: MpiCall) =>
      if IsOn(calls, x, c) then (if c == last then 5 else if c.setId == p then 2 else 1)
      else if IsOn(calls, y, c) then (if c.setId == u then 3 else if c.setId == p then 6 else 4)
      else 0
  }

  lemma ThreeSetsParts(calls: seq<MpiCall>, x: int, y: int, u: int, p: int, most: seq<MpiCall>, last: MpiCall,
                       z: int, border: MpiCall)
    requires forall w :: !(Side(calls, x)(w) && Side(calls, y)(w))
    requires Interlinked(most) && AllOn(calls, x, most) && IsNext(calls, x, most, last) && last.setId == u
    requires forall d :: d in calls && IsOn(calls, x, d) ==> d in most || d == last
    requires IsBorder(calls, y, u, z, border) && p != u && p != border.setId && Carries(calls, x, p)
    ensures var phase := ThreeSetsPhase(calls, x, y, u, p, last);
      var others, early, late, first :=
        InPhase(calls, phase, 0), InPhase(calls, phase, 1), InPhase(calls, phase, 2), InPhase(calls, phase, 3);
      var middle, turn, rest := InPhase(calls, phase, 4), InPhase(calls, phase, 5), InPhase(calls, phase, 6);
      && NoneOn(calls, x, others) && NoneOn(calls, y, others)
      && AllOn(calls, x, early) && AllOn(calls, x, late) && AllOn(calls, x, turn)
      && AllOn(calls, y, first) && AllOn(calls, y, middle) && AllOn(calls, y, rest)
      && Interlinked(early + late) && AllOfSet(late, p) && late != []
      && AllOfSet(first, u) && AllOfSet(turn, u) && AllOfSet(rest, p)
      && (forall c :: c in middle ==> c.setId != u && c.setId != p)
      && (exists w :: Occurs(first, w) && Occurs(middle, w))
      && (exists w :: Occurs(early + late, w) && Occurs(turn, w))
  {
    hide InPhase, Connected, Carries, Interlinked, Filter;
    var phase := ThreeSetsPhase(calls, x, y, u, p, last);
    var early, late := InPhase(calls, phase, 1), InPhase(calls, phase, 2);
    SidesDifferOnCalls(calls, x, y);
    forall c ensures c in most <==> c in early + late {
    }
    SameCallsJoined(most, early + late);
    SetIsLate(calls, x, p, last, late);
    BorderMeets(calls, x, y, u, z, border, InPhase(calls, phase, 3), InPhase(calls, phase, 4));
    LastMeets(calls, x, most, last, early + late, InPhase(calls, phase, 5));
  }

  lemma SetIsLate(calls: seq<MpiCall>, x: int, p: int, last: MpiCall, late: seq<MpiCall>)
    requires Carries(calls, x, p) && last.setId != p
    requires forall c :: c in calls && IsOn(calls, x, c) && c != last && c.setId == p ==> c in late
    ensures late != []
  {
    var c :| CallOf(calls, x, c) && c.setId == p;
    assert IsOn(calls, x, c);
    assert c in late;
  }

  lemma BorderMeets(calls: seq<MpiCall>, x: int, y: int, u: int, z: int, border: MpiCall,
                    first: seq<MpiCall>, middle: seq<MpiCall>)
    requires IsBorder(calls, y, u, z, border)
    requires forall c :: c in calls && IsOn(calls, y, c) && c.setId == u ==> c in first
    requires IsOn(calls, y, border) ==> border in middle
    ensures Occurs(first, z) && Occurs(middle, z)
  {
    var c :| c in calls && IsOn(calls, y, c) && c.setId == u && z in c.ids;
    OnSide(calls, y, c, z);
    OnSide(calls, y, border, z);
    assert border in middle && c in first;
  }

  lemma LastMeets(calls: seq<MpiCall>, x: int, most: seq<MpiCall>, last: MpiCall, part: seq<MpiCall>,
                  turn: seq<MpiCall>)
    requires IsNext(calls, x, most, last) && (forall c :: c in most <==> c in part) && last in turn
    ensures exists w :: Occurs(part, w) && Occurs(turn, w)
  {
    var w :| w in last.ids && Occurs(most, w);
    assert Occurs(part, w) && Occurs(turn, w);
  }

  lemma KeptApartByThirdSet(calls: seq<MpiCall>, x: int, y: int, u: int, p: int, most: seq<MpiCall>, last: MpiCall,
                            z: int, border: MpiCall)
    returns (order: seq<MpiCall>)
    requires Occurs(calls, x) && Occurs(calls, y) && !Connected(calls, x, y)
    requires Interlinked(most) && AllOn(calls, x, most) && IsNext(calls, x, most, last) && last.setId == u
    requires forall d :: d in calls && IsOn(calls, x, d) ==> d in most || d == last
    requires IsBorder(calls, y, u, z, border) && p != u && p != border.setId && Carries(calls, x, p)
    ensures multiset(order) == multiset(calls) && !Together(AssignCalls(map[], order), x, y)
  {
    hide Phases, InPhase, Filter, Occurs, Connected, Carries, IsOn, AssignCalls, Interlinked, IsNext, IsBorder;
    var phase := ThreeSetsPhase(calls, x, y, u, p, last);
    SidesDisjoint(calls, x, y);
    ThreeSetsParts(calls, x, y, u, p, most, last, z, border);
    PhasesPermute(calls, phase, 7);
    order := Phases(calls, phase, 7);
    SevenPhases(calls, phase);
    var others, early, late, first :=
      InPhase(calls, phase, 0), InPhase(calls, phase, 1), InPhase(calls, phase, 2), InPhase(calls, phase, 3);
    var middle, turn, rest := InPhase(calls, phase, 4), InPhase(calls, phase, 5), InPhase(calls, phase, 6);
    StaysFresh(calls, x, map[], others);
    StaysFresh(calls, y, map[], others);
    ThreeSetsOrder(calls, x, y, u, p, AssignCalls(map[], others), early, late, first, middle, turn, rest);
    AssignCallsConcat(map[], others, early + late + first + middle + turn + rest);
    assert order == others + (early + late + first + middle + turn + rest);
    OwnConnected(calls, x);
    OwnConnected(calls, y);
  }

  // ---------------------------------------------------------------- the exact condition

  lemma UntidyKeptApart(calls: seq<MpiCall>, x: int, y: int, setId: int) returns (order: seq<MpiCall>)
    requires Occurs(calls, x) && Occurs(calls, y) && !Connected(calls, x, y)
    requires Carries(calls, x, setId) && Carries(calls, y, setId) && !SameTwo(calls, x, y)
    ensures multiset(order) == multiset(calls) && !Together(AssignCalls(map[], order), x, y)
  {
    hide Occurs, Connected, Carries, AssignCalls;
    if t :| Carries(calls, x, t) && !Carries(calls, y, t) {
      order := KeptApartByOwnSet(calls, x, y, t);
    } else if t :| Carries(calls, y, t) && !Carries(calls, x, t) {
      NotConnectedBack(calls, x, y);
      order := KeptApartByOwnSet(calls, y, x, t);
    } else {
      assert forall a, b :: CarriesJust(calls, x, a, b) ==> CarriesJust(calls, y, a, b);
      var v := ThreeSets(calls, x, setId, setId);
      var most, last := SomeLastOfSide(calls, x, setId, v);
      var u := last.setId;
      BorderExists(calls, y, u, if u == setId then v else setId);
      var z, border :| IsBorder(calls, y, u, z, border);
      BorderCarries(calls, y, u, z, border);
      var p := ThreeSets(calls, x, u, border.setId);
      order := KeptApartByThirdSet(calls, x, y, u, p, most, last, z, border);
    }
  }

  lemma NotConnectedBack(calls: seq<MpiCall>, x: int, y: int)
    requires !Connected(calls, x, y) && Occurs(calls, x)
    ensures !Connected(calls, y, x)
  {
    if Connected(calls, y, x) {
      ConnectedBack(calls, y, x);
    }
  }

  lemma BorderCarries(calls: seq<MpiCall>, y: int, u: int, z: int, border: MpiCall)
    requires IsBorder(calls, y, u, z, border)
    ensures Carries(calls, y, border.setId)
  {
    var c :| c in calls && IsOn(calls, y, c) && c.setId == u && z in c.ids;
    OnSide(calls, y, c, z);
    OnSide(calls, y, border, z);
    assert CallOf(calls, y, border);
  }

  lemma SomeLastOfSide(calls: seq<MpiCall>, x: int, u: int, v: int) returns (most: seq<MpiCall>, last: MpiCall)
    requires Carries(calls, x, u) && Carries(calls, x, v) && u != v
    ensures AllOn(calls, x, most) && Interlinked(most) && IsNext(calls, x, most, last) && Carries(calls, x, last.setId)
    ensures forall d :: d in calls && IsOn(calls, x, d) ==> d in most || d == last
  {
    var c :| CallOf(calls, x, c) && c.setId == u;
    var d :| CallOf(calls, x, d) && d.setId == v;
    forall y, z | Occurs([c], y) && Occurs([c], z) ensures Connected([c], y, z) {
      SameCall([c], c, y, z);
    }
    assert IsOn(calls, x, c) && IsOn(calls, x, d);
    most, last := LastOfSide(calls, x, [c], d);
    assert CallOf(calls, x, last);
  }

  lemma CommonSetIsLinked(calls: seq<MpiCall>, x: int, y: int, setId: int)
    requires Carries(calls, x, setId) && Carries(calls, y, setId)
    ensures Linked(map[], calls, x, y)
  {
    var c :| CallOf(calls, x, c) && c.setId == setId;
    var d :| CallOf(calls, y, d) && d.setId == setId;
    assert c.ids[0] in c.ids && d.ids[0] in d.ids;
    forall ofId: int -> int, ofLabel: int -> int | Respects(map[], calls, ofId, ofLabel) ensures ofId(x) == ofId(y) {
      assert Constant(calls, ofId);
      ConnectedAgree(calls, x, c.ids[0], ofId);
      ConnectedAgree(calls, y, d.ids[0], ofId);
    }
  }

  // Every order of the calls puts exactly the linked ids together if and only if any two
  // unconnected ids with a set id in common carry the same set ids, and at most two.
  lemma EveryOrderIsExact(calls: seq<MpiCall>)
    ensures (forall order :: multiset(order) == multiset(calls) ==> Exact(calls, order)) <==> Tidy(calls)
  {
    if Tidy(calls) {
      forall order | multiset(order) == multiset(calls) ensures Exact(calls, order) {
        TidyIsExact(calls, order);
      }
    } else {
      var x, y, setId :| && Occurs(calls, x) && Occurs(calls, y) && !Connected(calls, x, y)
        && Carries(calls, x, setId) && Carries(calls, y, setId) && !SameTwo(calls, x, y);
      var order := UntidyKeptApart(calls, x, y, setId);
      CommonSetIsLinked(calls, x, y, setId);
      assert !Exact(calls, order);
    }
  }

  // And the same condition decides whether the order of the hash map matters at all.
  lemma OrderMattersUnlessTidy(calls: seq<MpiCall>)
    ensures Tidy(calls) <==>
      forall order, other :: multiset(order) == multiset(calls) && multiset(other) == multiset(calls)
        ==> Agree(calls, order, other)
  {
    if Tidy(calls) {
      forall order, other | multiset(order) == multiset(calls) && multiset(other) == multiset(calls)
        ensures Agree(calls, order, other)
      {
        TidyIsExact(calls, order);
        TidyIsExact(calls, other);
      }
    } else {
      var x, y, setId :| && Occurs(calls, x) && Occurs(calls, y) && !Connected(calls, x, y)
        && Carries(calls, x, setId) && Carries(calls, y, setId) && !SameTwo(calls, x, y);
      var order := UntidyKeptApart(calls, x, y, setId);
      var other := SetLast(calls, setId, x, y);
      assert !Agree(calls, order, other);
    }
  }

  // The same on top of labels that earlier calls left.
  lemma StartedIsExact(starts: seq<MpiCall>, calls: seq<MpiCall>, order: seq<MpiCall>, x: int, y: int)
    requires Tidy(starts + calls) && multiset(order) == multiset(calls)
    requires Occurs(starts + calls, x) && Occurs(starts + calls, y)
    ensures Together(AssignCalls(AssignCalls(map[], starts), order), x, y) <==> Linked(map[], starts + calls, x, y)
  {
    TidyIsExact(starts + calls, starts + order);
    AssignCallsConcat(map[], starts, order);
  }
}
