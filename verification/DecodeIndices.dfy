// Replaying the recorded moves on a list of positions: cdc_prepare_decode_indices, and the
// matched-event section of a chunk around it (the tail of convert_to_diff_binary on the record
// side, the last section of decode on the replay side).
module DecodeIndices {
  import opened Basics
  import opened Chains
  import opened EditScripts
  import opened DiffBinary
  import opened ClockDelta
  import opened LinearPrediction

  lemma {:induction false} ApplyMembers(s: seq<int>, moves: seq<Move>)
    requires Applicable(s, moves)
    ensures multiset(Apply(s, moves)) == multiset(s)
  {
    if moves != [] {
      ApplyMembers(s, moves[..|moves| - 1]);
      MoveMembers(Apply(s, moves[..|moves| - 1]), moves[|moves| - 1]);
    }
  }

  lemma InsertMembers(s: seq<int>, i: nat, x: int)
    requires i <= |s|
    ensures multiset(Insert(s, i, x)) == multiset(s) + multiset{x}
  {
    assert s == s[..i] + s[i..];
  }

  lemma TwoInserts(s: seq<int>, i: nat, j: nat, x: int)
    requires i <= |s| && j <= |s|
    ensures multiset(Insert(s, i, x)) == multiset(Insert(s, j, x))
  {
    InsertMembers(s, i, x);
    InsertMembers(s, j, x);
  }

  lemma ShiftMembers(s: seq<int>, i: nat, j: nat)
    requires i < |s| && j < |s|
    ensures multiset(Insert(Without(s, i), j, s[i])) == multiset(s)
  {
    InsertUndoesWithout(s, i);
    TwoInserts(Without(s, i), i, j, s[i]);
  }

  lemma MoveMembers(s: seq<int>, m: Move)
    requires CanMove(s, m)
    ensures multiset(MoveOne(s, m)) == multiset(s)
  {
    hide IndexOf, Insert, Without;
    var i := IndexOf(s, m.id);
    assert s[i] == m.id;
    ShiftMembers(s, i, i + m.delay);
  }

  // Every prefix of an applicable move list is applicable, and its next id is in the list.
  lemma {:induction false} NextMove(s: seq<int>, moves: seq<Move>, i: nat)
    requires Applicable(s, moves) && i < |moves|
    ensures Applicable(s, moves[..i]) && CanMove(Apply(s, moves[..i]), moves[i]) && moves[i].id in s
    ensures Applicable(s, moves[..i + 1]) && Apply(s, moves[..i + 1]) == MoveOne(Apply(s, moves[..i]), moves[i])
    decreases |moves|
  {
    hide CanMove, MoveOne;
    if i < |moves| - 1 {
      var init := moves[..|moves| - 1];
      NextMove(s, init, i);
      assert init[..i] == moves[..i] && init[..i + 1] == moves[..i + 1];
    } else {
      assert moves[..i + 1] == moves;
      assert moves[..i + 1][..i] == moves[..i];
      ApplyMembers(s, moves[..i]);
      MovedIsMember(s, Apply(s, moves[..i]), moves[i]);
    }
  }

  lemma MovedIsMember(s: seq<int>, t: seq<int>, m: Move)
    requires multiset(t) == multiset(s) && CanMove(t, m)
    ensures m.id in s
  {
    assert m.id in multiset(t);
  }

  lemma MovedIdsInRange(count: nat, ids: seq<int>, delays: seq<int>)
    requires |ids| == |delays| && Applicable(Iota(count), Moves(ids, delays))
    ensures forall k :: 0 <= k < |ids| ==> 0 <= ids[k] < count
  {
    forall k | 0 <= k < |ids| ensures 0 <= ids[k] < count {
      NextMove(Iota(count), Moves(ids, delays), k);
    }
  }

  // First pass: an iterator to the node of every id, reached by jumping from the previous one.
  // Values in the list are distinct, so an iterator is modelled by the value its node carries.
  method MemorizeIterators(count: nat, idVec: seq<int>, ghost ids: seq<int>) returns (iterators: map<int, int>)
    requires |idVec| == |ids| && forall k :: 0 <= k < |ids| ==> Wrap(Int32, idVec[k]) == ids[k] && 0 <= ids[k] < count
    ensures forall k :: 0 <= k < |ids| ==> ids[k] in iterators && iterators[ids[k]] == ids[k]
  {
    var list := Iota(count);
    iterators := map[];
    var it, lastId := 0, 0;
    for i := 0 to |idVec|
      invariant it == lastId && (it == 0 || 0 <= it < count)
      invariant forall k :: 0 <= k < i ==> ids[k] in iterators && iterators[ids[k]] == ids[k]
    {
      var id := Wrap(Int32, idVec[i]);
      it := it + (id - lastId);
      iterators := iterators[id := list[it]];
      lastId := id;
    }
  }

  method MoveInList(list: seq<int>, node: int, id: int, delay: int) returns (r: seq<int>)
    requires node == id && CanMove(list, Move(id, delay))
    ensures r == MoveOne(list, Move(id, delay))
  {
    var it: int := IndexOf(list, node);
    r := Without(list, it);
    it := it + delay;
    r := Insert(r, it, id);
  }

  // Second pass: erase, advance, insert. Every advance stays inside the list.
  method PermuteList(count: nat, idVec: seq<int>, delayVec: seq<int>, iterators: map<int, int>,
                     ghost ids: seq<int>, ghost delays: seq<int>)
    returns (list: seq<int>)
    requires |idVec| == |delayVec| == |ids| == |delays|
    requires forall k :: 0 <= k < |ids| ==> Wrap(Int32, idVec[k]) == ids[k] && Wrap(Int32, delayVec[k]) == delays[k]
    requires forall k :: 0 <= k < |ids| ==> ids[k] in iterators && iterators[ids[k]] == ids[k]
    requires Applicable(Iota(count), Moves(ids, delays))
    ensures list == Apply(Iota(count), Moves(ids, delays))
  {
    ghost var moves := Moves(ids, delays);
    list := Iota(count);
    for i := 0 to |idVec|
      invariant Applicable(Iota(count), moves[..i]) && list == Apply(Iota(count), moves[..i])
    {
      NextMove(Iota(count), moves, i);
      var id, delay := Wrap(Int32, idVec[i]), Wrap(Int32, delayVec[i]);
      list := MoveInList(list, iterators[id], id, delay);
    }
    assert moves[..|idVec|] == moves;
  }

  // Last pass: the sequence number at which each value comes up.
  method SequenceNumbers(list: seq<int>) returns (indices: array<int>)
    requires Distinct(list) && forall k :: 0 <= k < |list| ==> 0 <= list[k] < |list|
    ensures fresh(indices) && indices.Length == |list|
    ensures forall k :: 0 <= k < |list| ==> indices[list[k]] == k
  {
    indices := new int[|list|](_ => 0);
    for sequence := 0 to |list|
      invariant forall k :: 0 <= k < sequence ==> indices[list[k]] == k
    {
      indices[list[sequence]] := sequence;
    }
  }

  method CdcPrepareDecodeIndices(count: nat, idVec: seq<int>, delayVec: seq<int>,
                                 ghost ids: seq<int>, ghost delays: seq<int>, ghost order: seq<int>)
    returns (indices: array<int>)
    requires |idVec| == |delayVec| == |ids| == |delays|
    requires forall k :: 0 <= k < |ids| ==> Wrap(Int32, idVec[k]) == ids[k] && Wrap(Int32, delayVec[k]) == delays[k]
    requires TurnsInto(Iota(count), ids, delays, order)
    ensures fresh(indices) && indices.Length == |order| == count
    ensures forall k :: 0 <= k < count ==> 0 <= order[k] < count && indices[order[k]] == k
  {
    MovedIdsInRange(count, ids, delays);
    var iterators := MemorizeIterators(count, idVec, ids);
    var list := PermuteList(count, idVec, delayVec, iterators, ids, delays);
    ApplyMembers(Iota(count), Moves(ids, delays));
    PermutationFacts(count, list);
    indices := SequenceNumbers(list);
  }

  lemma PermutationFacts(count: nat, list: seq<int>)
    requires multiset(list) == multiset(Iota(count))
    ensures Distinct(list) && |list| == count && forall k :: 0 <= k < |list| ==> 0 <= list[k] < count
  {
    assert |multiset(list)| == |list| && |multiset(Iota(count))| == count;
    forall k | 0 <= k < |list| ensures 0 <= list[k] < count {
      assert list[k] in multiset(list);
      assert list[k] in Iota(count);
    }
    forall i, j | 0 <= i < j < |list| ensures list[i] != list[j] {
      if list[i] == list[j] {
        OccursTwice(list, i, j);
        IotaOnce(count, list[i]);
        assert false;
      }
    }
  }

  lemma OccursTwice(s: seq<int>, i: nat, j: nat)
    requires i < j < |s| && s[i] == s[j]
    ensures multiset(s)[s[i]] >= 2
  {
    assert s == s[..i] + [s[i]] + s[i + 1..j] + [s[j]] + s[j + 1..];
  }

  lemma {:induction false} IotaOnce(n: nat, x: int)
    ensures multiset(Iota(n))[x] <= 1
    ensures x >= n ==> multiset(Iota(n))[x] == 0
  {
    if n > 0 {
      IotaOnce(n - 1, x);
      assert Iota(n) == Iota(n - 1) + [n - 1];
    } else {
      assert Iota(0) == [];
    }
  }

  // ---------------------------------------------------------------- the matched-event section

  // Record side: moves, each column predicted as int, ids first.
  method CompressMatchedEvents(clocked: seq<int>, observed: seq<int>)
    returns (data: seq<int>, ghost ids: seq<int>, ghost deltas: seq<int>)
    requires Reorders(clocked, observed)
    ensures TurnsInto(Iota(|clocked|), ids, deltas, Columns(clocked, observed))
    ensures |ids| + Best(Columns(clocked, observed), |clocked|) == |clocked|
    ensures data == Predicted(Int32, ids) + Predicted(Int32, deltas)
  {
    var moveIds, moveDeltas := Compress(clocked, observed);
    ids, deltas := moveIds, moveDeltas;
    var idVec := new int[|moveIds|](i requires 0 <= i < |moveIds| => moveIds[i]);
    var deltaVec := new int[|moveDeltas|](i requires 0 <= i < |moveDeltas| => moveDeltas[i]);
    assert idVec[..] == ids && deltaVec[..] == deltas;
    CompressByLinearPrediction(Int32, idVec);
    CompressByLinearPrediction(Int32, deltaVec);
    data := idVec[..] + deltaVec[..];
  }

  // Replay side: sign-extended copies, decoded as size_t.
  method DecodeMatchedEvents(count: nat, data: seq<int>, ghost ids: seq<int>, ghost deltas: seq<int>,
                             ghost order: seq<int>)
    returns (indices: array<int>)
    requires data == Predicted(Int32, ids) + Predicted(Int32, deltas)
    requires AllInRange(Int32, ids) && AllInRange(Int32, deltas)
    requires TurnsInto(Iota(count), ids, deltas, order)
    ensures fresh(indices) && indices.Length == |order| == count
    ensures forall k :: 0 <= k < count ==> 0 <= order[k] < count && indices[order[k]] == k
  {
    var n := |data| / 2;
    assert data[..n] == Predicted(Int32, ids) && data[n..] == Predicted(Int32, deltas);
    var first := SignExtended(data[..n]);
    var second := SignExtended(data[n..]);
    var idVec := new int[n](i requires 0 <= i < n => first[i]);
    var delayVec := new int[n](i requires 0 <= i < n => second[i]);
    assert idVec[..] == first && delayVec[..] == second;
    DecompressByLinearPrediction(Size64, idVec);
    DecompressByLinearPrediction(Size64, delayVec);
    RoundTripInt(ids);
    RoundTripInt(deltas);
    indices := CdcPrepareDecodeIndices(count, idVec[..], delayVec[..], ids, deltas, order);
  }

  lemma {:induction false} DelaysInRange(s: seq<int>, moves: seq<Move>)
    requires Applicable(s, moves)
    ensures forall k :: 0 <= k < |moves| ==> -|s| < moves[k].delay < |s|
  {
    if moves != [] {
      DelaysInRange(s, moves[..|moves| - 1]);
      var before := Apply(s, moves[..|moves| - 1]);
    }
  }

  // What is recorded for an observed order decodes to that order: the event of clock-sorted
  // position Columns[k] is replayed as number k.
  method RecordThenDecode(clocked: seq<int>, observed: seq<int>) returns (indices: array<int>)
    requires Reorders(clocked, observed) && |clocked| <= TWO_31
    ensures indices.Length == |observed|
    ensures var columns := Columns(clocked, observed);
      forall k :: 0 <= k < |observed| ==> 0 <= columns[k] < indices.Length && indices[columns[k]] == k
  {
    var data;
    ghost var ids, deltas;
    data, ids, deltas := CompressMatchedEvents(clocked, observed);
    MovedIdsInRange(|clocked|, ids, deltas);
    DelaysInRange(Iota(|clocked|), Moves(ids, deltas));
    assert forall k :: 0 <= k < |deltas| ==> Moves(ids, deltas)[k].delay == deltas[k];
    indices := DecodeMatchedEvents(|clocked|, data, ids, deltas, Columns(clocked, observed));
  }
}
