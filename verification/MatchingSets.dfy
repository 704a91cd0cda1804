// Merging matching sets: every (communicator, tag) id gets the set of the calls it occurs in, and
// sets that meet are merged by relabelling.
module MatchingSets {

  // The message ids used by one call site and the matching set assigned to it.
  datatype MpiCall = MpiCall(ids: seq<int>, setId: int)

  function RelabelSet(labels: map<int, int>, oldId: int, newId: int): map<int, int> {
    map m | m in labels :: if labels[m] == oldId then newId else labels[m]
  }

  function AssignOne(labels: map<int, int>, id: int, setId: int): map<int, int> {
    (if id in labels && labels[id] != setId then RelabelSet(labels, labels[id], setId) else labels)[id := setId]
  }

  function Assign(labels: map<int, int>, ids: seq<int>, setId: int): map<int, int> {
    if ids == [] then labels else AssignOne(Assign(labels, ids[..|ids| - 1], setId), ids[|ids| - 1], setId)
  }

  function AssignCalls(labels: map<int, int>, calls: seq<MpiCall>): map<int, int> {
    if calls == [] then labels
    else Assign(AssignCalls(labels, calls[..|calls| - 1]), calls[|calls| - 1].ids, calls[|calls| - 1].setId)
  }

  // No id meets a set other than the one it has: calls that share an id have the same set, and an
  // id that has one already keeps it.
  ghost predicate OneSetEach(labels: map<int, int>, calls: seq<MpiCall>) {
    && (forall c, x :: c in calls && x in c.ids && x in labels ==> labels[x] == c.setId)
    && (forall c, d, x :: c in calls && d in calls && x in c.ids && x in d.ids ==> c.setId == d.setId)
  }

  ghost predicate Occurs(calls: seq<MpiCall>, x: int) {
    exists c :: c in calls && x in c.ids
  }

  // Every id of a call has the set of the call, the others keep theirs.
  ghost predicate Extended(labels: map<int, int>, calls: seq<MpiCall>, after: map<int, int>) {
    && (forall x :: x in after <==> x in labels || Occurs(calls, x))
    && (forall c, x :: c in calls && x in c.ids ==> x in after && after[x] == c.setId)
    && (forall x :: x in labels && !Occurs(calls, x) ==> x in after && after[x] == labels[x])
  }

  // The next call meets another set, or extends the map.
  lemma NextCall(labels: map<int, int>, done: seq<MpiCall>, before: map<int, int>, c: MpiCall)
    requires OneSetEach(labels, done) && Extended(labels, done, before)
    ensures OneSetEach(labels, done + [c]) <==> forall x :: x in c.ids && x in before ==> before[x] == c.setId
  {
    if OneSetEach(labels, done + [c]) {
      assert c in done + [c];
      forall x | x in c.ids && x in before ensures before[x] == c.setId {
        if Occurs(done, x) {
          var d :| d in done && x in d.ids;
          assert d in done + [c];
        }
      }
    }
  }

  lemma NextExtends(labels: map<int, int>, done: seq<MpiCall>, before: map<int, int>, c: MpiCall,
                    after: map<int, int>)
    requires OneSetEach(labels, done + [c]) && Extended(labels, done, before)
    requires forall x :: x in after <==> x in before || x in c.ids
    requires forall x :: x in after ==> after[x] == if x in c.ids then c.setId else before[x]
    ensures Extended(labels, done + [c], after)
  {
    assert c in done + [c] && forall d :: d in done ==> d in done + [c];
    forall x ensures Occurs(done + [c], x) <==> Occurs(done, x) || x in c.ids {
      if Occurs(done, x) {
        var d :| d in done && x in d.ids;
        assert d in done + [c];
      }
    }
  }

  lemma NothingAssigned(labels: map<int, int>)
    ensures OneSetEach(labels, []) && Extended(labels, [], labels)
  {
  }

  lemma PrefixOneSetEach(labels: map<int, int>, calls: seq<MpiCall>, i: nat)
    requires i <= |calls| && OneSetEach(labels, calls)
    ensures OneSetEach(labels, calls[..i])
  {
    assert forall c :: c in calls[..i] ==> c in calls;
  }

  class MatchingSetMap {
    var commTagToMatchingSetId: map<int, int>
    const repMode: bool

    constructor (labels: map<int, int>, rep: bool)
      ensures commTagToMatchingSetId == labels && repMode == rep
    {
      commTagToMatchingSetId, repMode := labels, rep;
    }

    // change_matching_set_id: the error is the abort outside REP mode, where sets must not meet.
    method ChangeMatchingSetId(oldId: int, newId: int) returns (error: bool)
      modifies this
      ensures error == !repMode
      ensures commTagToMatchingSetId == if error then old(commTagToMatchingSetId)
        else RelabelSet(old(commTagToMatchingSetId), oldId, newId)
    {
      if !repMode {
        return true;
      }
      error := false;
      ghost var was := commTagToMatchingSetId;
      var left := commTagToMatchingSetId.Keys;
      while left != {}
        invariant left <= was.Keys == commTagToMatchingSetId.Keys
        invariant forall m :: m in was ==>
          commTagToMatchingSetId[m] == if m !in left && was[m] == oldId then newId else was[m]
      {
        assert (forall m :: m !in left) ==> left == {};
        var msgId :| msgId in left;
        if commTagToMatchingSetId[msgId] == oldId {
          commTagToMatchingSetId := commTagToMatchingSetId[msgId := newId];
        }
        left := left - {msgId};
      }
      forall m | m in was ensures commTagToMatchingSetId[m] == RelabelSet(was, oldId, newId)[m] {
        assert m !in left;
      }
    }

    // assign_matching_set_id_to_msg_id, for the ids of one call in any order.
    method AssignMatchingSetId(ids: seq<int>, setId: int) returns (error: bool)
      modifies this
      ensures error <==> !repMode && exists x ::
        x in ids && x in old(commTagToMatchingSetId) && old(commTagToMatchingSetId)[x] != setId
      ensures !error ==> commTagToMatchingSetId == Assign(old(commTagToMatchingSetId), ids, setId)
      ensures !error && !repMode ==>
        && (forall x :: x in commTagToMatchingSetId <==> x in old(commTagToMatchingSetId) || x in ids)
        && (forall x :: x in commTagToMatchingSetId ==>
              commTagToMatchingSetId[x] == if x in ids then setId else old(commTagToMatchingSetId)[x])
    {
      error := false;
      ghost var was := commTagToMatchingSetId;
      for i := 0 to |ids|
        invariant !error && commTagToMatchingSetId == Assign(was, ids[..i], setId)
        invariant !repMode ==> forall x :: x in ids[..i] && x in was ==> was[x] == setId
        invariant !repMode ==> forall x :: x in commTagToMatchingSetId <==> x in was || x in ids[..i]
        invariant !repMode ==> forall x :: x in commTagToMatchingSetId ==>
          commTagToMatchingSetId[x] == if x in ids[..i] then setId else was[x]
      {
        var msgId := ids[i];
        assert ids[..i + 1][..i] == ids[..i] && ids[..i + 1] == ids[..i] + [msgId];
        if msgId in commTagToMatchingSetId {
          var oldSetId := commTagToMatchingSetId[msgId];
          if oldSetId != setId {
            error := ChangeMatchingSetId(oldSetId, setId);
            if error {
              return;
            }
          }
        }
        commTagToMatchingSetId := commTagToMatchingSetId[msgId := setId];
      }
      assert ids[..|ids|] == ids;
    }

    // The first loop of rempi_reqmg_get_matching_set_id_map, for the calls in any order.
    method AssignAll(calls: seq<MpiCall>) returns (error: bool)
      modifies this
      ensures error <==> !repMode && !OneSetEach(old(commTagToMatchingSetId), calls)
      ensures !error ==> commTagToMatchingSetId == AssignCalls(old(commTagToMatchingSetId), calls)
      ensures !error && !repMode ==> Extended(old(commTagToMatchingSetId), calls, commTagToMatchingSetId)
    {
      hide OneSetEach, Extended;
      error := false;
      ghost var was := commTagToMatchingSetId;
      NothingAssigned(was);
      for i := 0 to |calls|
        invariant !error && commTagToMatchingSetId == AssignCalls(was, calls[..i])
        invariant !repMode ==> OneSetEach(was, calls[..i]) && Extended(was, calls[..i], commTagToMatchingSetId)
      {
        assert calls[..i + 1][..i] == calls[..i] && calls[..i + 1] == calls[..i] + [calls[i]];
        ghost var before := commTagToMatchingSetId;
        if !repMode {
          NextCall(was, calls[..i], before, calls[i]);
        }
        error := AssignMatchingSetId(calls[i].ids, calls[i].setId);
        if error {
          if OneSetEach(was, calls) {
            PrefixOneSetEach(was, calls, i + 1);
          }
          return;
        }
        if !repMode {
          NextExtends(was, calls[..i], before, calls[i], commTagToMatchingSetId);
        }
      }
      assert calls[..|calls|] == calls;
    }

    // rempi_reqmg_get_matching_set_id_map: the arrays list the final map, in any order.
    method GetMatchingSetIdMap(calls: seq<MpiCall>)
      returns (error: bool, msgIds: array<int>, matchingSetIds: array<int>, length: nat)
      modifies this
      ensures fresh(msgIds) && fresh(matchingSetIds)
      ensures error <==> !repMode && !OneSetEach(old(commTagToMatchingSetId), calls)
      ensures !error && !repMode ==> Extended(old(commTagToMatchingSetId), calls, commTagToMatchingSetId)
      ensures !error ==>
        && commTagToMatchingSetId == AssignCalls(old(commTagToMatchingSetId), calls)
        && Lists(commTagToMatchingSetId, msgIds[..], matchingSetIds[..]) && length == |commTagToMatchingSetId|
    {
      error := AssignAll(calls);
      length := |commTagToMatchingSetId|;
      msgIds := new int[length];
      matchingSetIds := new int[length];
      if error {
        return;
      }
      var labels, index, left := commTagToMatchingSetId, 0, commTagToMatchingSetId.Keys;
      while left != {}
        invariant commTagToMatchingSetId == labels && length == |labels|
        invariant left <= labels.Keys && index + |left| == length
        invariant forall i :: 0 <= i < index ==>
          msgIds[i] in labels.Keys - left && matchingSetIds[i] == labels[msgIds[i]]
        invariant forall i, j :: 0 <= i < j < index ==> msgIds[i] != msgIds[j]
        invariant forall m :: m in labels.Keys - left ==> m in msgIds[..index]
      {
        assert (forall m :: m !in left) ==> left == {};
        var m :| m in left;
        msgIds[index], matchingSetIds[index] := m, labels[m];
        assert msgIds[..index + 1] == msgIds[..index] + [m];
        left, index := left - {m}, index + 1;
      }
      assert msgIds[..index] == msgIds[..];
    }
  }

  // Two parallel lists hold every id of the map once, each with its label.
  predicate Lists(labels: map<int, int>, ids: seq<int>, sets: seq<int>) {
    && |ids| == |sets| == |labels|
    && (forall i :: 0 <= i < |ids| ==> ids[i] in labels && sets[i] == labels[ids[i]])
    && (forall i, j :: 0 <= i < j < |ids| ==> ids[i] != ids[j])
    && (forall m :: m in labels ==> m in ids)
  }

  // ---------------------------------------------------------------- what ends together

  predicate Together(labels: map<int, int>, x: int, y: int) {
    x in labels && y in labels && labels[x] == labels[y]
  }

  lemma OneKeepsTogether(labels: map<int, int>, id: int, setId: int, x: int, y: int)
    requires Together(labels, x, y)
    ensures Together(AssignOne(labels, id, setId), x, y)
  {
  }

  lemma {:induction false} AssignKeepsTogether(labels: map<int, int>, ids: seq<int>, setId: int, x: int, y: int)
    requires Together(labels, x, y)
    ensures Together(Assign(labels, ids, setId), x, y)
  {
    if ids != [] {
      AssignKeepsTogether(labels, ids[..|ids| - 1], setId, x, y);
      OneKeepsTogether(Assign(labels, ids[..|ids| - 1], setId), ids[|ids| - 1], setId, x, y);
    }
  }

  lemma {:induction false} CallIsTogether(labels: map<int, int>, ids: seq<int>, setId: int, x: int)
    requires x in ids
    ensures x in Assign(labels, ids, setId) && Assign(labels, ids, setId)[x] == setId
  {
    if x != ids[|ids| - 1] {
      CallIsTogether(labels, ids[..|ids| - 1], setId, x);
    }
  }

  // Ids that start together stay together, whatever the calls and their order.
  lemma {:induction false} TogetherStays(labels: map<int, int>, calls: seq<MpiCall>, x: int, y: int)
    requires Together(labels, x, y)
    ensures Together(AssignCalls(labels, calls), x, y)
  {
    if calls != [] {
      var init, last := calls[..|calls| - 1], calls[|calls| - 1];
      TogetherStays(labels, init, x, y);
      AssignKeepsTogether(AssignCalls(labels, init), last.ids, last.setId, x, y);
    }
  }

  // All ids of one call end in one set, wherever the call comes.
  lemma {:induction false} CallsEndTogether(labels: map<int, int>, calls: seq<MpiCall>, c: MpiCall, x: int, y: int)
    requires c in calls && x in c.ids && y in c.ids
    ensures Together(AssignCalls(labels, calls), x, y)
  {
    var init, last := calls[..|calls| - 1], calls[|calls| - 1];
    if c in init {
      CallsEndTogether(labels, init, c, x, y);
      AssignKeepsTogether(AssignCalls(labels, init), last.ids, last.setId, x, y);
    } else {
      CallIsTogether(AssignCalls(labels, init), last.ids, last.setId, x);
      CallIsTogether(AssignCalls(labels, init), last.ids, last.setId, y);
    }
  }

  // And so do the ids of two calls that share one.
  lemma SharedIdsEndTogether(labels: map<int, int>, calls: seq<MpiCall>, c: MpiCall, d: MpiCall, shared: int, x: int,
                             y: int)
    requires c in calls && d in calls && shared in c.ids && shared in d.ids && x in c.ids && y in d.ids
    ensures Together(AssignCalls(labels, calls), x, y)
  {
    CallsEndTogether(labels, calls, c, x, shared);
    CallsEndTogether(labels, calls, d, shared, y);
  }

  // ---------------------------------------------------------------- nothing else ends together

  // A colouring of ids and labels that gives an id the colour of each setId it carries: the
  // setId it starts with and those of the calls it occurs in.
  ghost predicate Respects(labels: map<int, int>, calls: seq<MpiCall>, ofId: int -> int, ofLabel: int -> int) {
    && (forall x :: x in labels ==> ofId(x) == ofLabel(labels[x]))
    && (forall c, x :: c in calls && x in c.ids ==> ofId(x) == ofLabel(c.setId))
  }

  // Two ids are linked, through shared calls or labels, when every such colouring agrees on them.
  ghost predicate Linked(labels: map<int, int>, calls: seq<MpiCall>, x: int, y: int) {
    forall ofId: int -> int, ofLabel: int -> int :: Respects(labels, calls, ofId, ofLabel) ==> ofId(x) == ofId(y)
  }

  lemma {:induction false} AssignRespects(labels: map<int, int>, ids: seq<int>, setId: int, ofId: int -> int,
                                          ofLabel: int -> int)
    requires forall x :: x in labels ==> ofId(x) == ofLabel(labels[x])
    requires forall x :: x in ids ==> ofId(x) == ofLabel(setId)
    ensures forall x :: x in Assign(labels, ids, setId) ==> ofId(x) == ofLabel(Assign(labels, ids, setId)[x])
  {
    if ids != [] {
      AssignRespects(labels, ids[..|ids| - 1], setId, ofId, ofLabel);
      var id := ids[|ids| - 1];
      assert ofId(id) == ofLabel(setId);
    }
  }

  lemma {:induction false} CallsRespect(labels: map<int, int>, calls: seq<MpiCall>, ofId: int -> int,
                                        ofLabel: int -> int)
    requires Respects(labels, calls, ofId, ofLabel)
    ensures forall x :: x in AssignCalls(labels, calls) ==> ofId(x) == ofLabel(AssignCalls(labels, calls)[x])
  {
    if calls != [] {
      var init, last := calls[..|calls| - 1], calls[|calls| - 1];
      CallsRespect(labels, init, ofId, ofLabel);
      AssignRespects(AssignCalls(labels, init), last.ids, last.setId, ofId, ofLabel);
    }
  }

  // Two ids end in one set only if they are linked.
  lemma OnlyLinkedEndTogether(labels: map<int, int>, calls: seq<MpiCall>, x: int, y: int)
    requires Together(AssignCalls(labels, calls), x, y)
    ensures Linked(labels, calls, x, y)
  {
    forall ofId: int -> int, ofLabel: int -> int | Respects(labels, calls, ofId, ofLabel) ensures ofId(x) == ofId(y) {
      CallsRespect(labels, calls, ofId, ofLabel);
    }
  }

  // Links through labels alone do not always merge: which sets end up one can depend on the
  // order in which the hash map yields the calls.
  lemma OrderCanMatter()
    ensures var a, b, c := MpiCall([1], 1), MpiCall([1], 2), MpiCall([2], 1);
      && !Together(AssignCalls(map[], [a, b, c]), 1, 2)
      && Together(AssignCalls(map[], [a, c, b]), 1, 2)
  {
    Three(1, 1, 1, 2, 2, 1);
    Three(1, 1, 2, 1, 1, 2);
  }

  // Three calls with one id each.
  lemma Three(id0: int, set0: int, id1: int, set1: int, id2: int, set2: int)
    ensures AssignCalls(map[], [MpiCall([id0], set0), MpiCall([id1], set1), MpiCall([id2], set2)])
      == AssignOne(AssignOne(AssignOne(map[], id0, set0), id1, set1), id2, set2)
  {
    var a, b, c := MpiCall([id0], set0), MpiCall([id1], set1), MpiCall([id2], set2);
    SingleId(map[], id0, set0);
    SingleId(AssignOne(map[], id0, set0), id1, set1);
    SingleId(AssignOne(AssignOne(map[], id0, set0), id1, set1), id2, set2);
    AssignCallsSnoc(map[], [], a);
    AssignCallsSnoc(map[], [a], b);
    AssignCallsSnoc(map[], [a, b], c);
    assert [] + [a] == [a] && [a] + [b] == [a, b] && [a, b] + [c] == [a, b, c];
  }

  lemma SingleId(labels: map<int, int>, id: int, setId: int)
    ensures Assign(labels, [id], setId) == AssignOne(labels, id, setId)
  {
    assert [id][..0] == [];
  }

  lemma AssignCallsSnoc(labels: map<int, int>, calls: seq<MpiCall>, c: MpiCall)
    ensures AssignCalls(labels, calls + [c]) == Assign(AssignCalls(labels, calls), c.ids, c.setId)
  {
    assert (calls + [c])[..|calls|] == calls;
  }
}
