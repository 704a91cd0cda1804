// From a (reversed) edit script to the "move id by delay" pairs that are written to the record.
// Models change_to_seq_order_id and the pending-map loop of convert_to_diff_binary.
module DiffBinary {
  import opened Basics
  import opened EditScripts
  import opened PathScripts

  function Moves(ids: seq<int>, deltas: seq<int>): (moves: seq<Move>)
    requires |ids| == |deltas|
    ensures |moves| == |ids|
  {
    seq(|ids|, k requires 0 <= k < |ids| => Move(ids[k], deltas[k]))
  }

  // The moves displace each id at most once and take one order to the other.
  ghost predicate TurnsInto(before: seq<int>, ids: seq<int>, deltas: seq<int>, after: seq<int>) {
    && |ids| == |deltas| && Distinct(ids)
    && Applicable(before, Moves(ids, deltas))
    && Apply(before, Moves(ids, deltas)) == after
  }

  function Ignored(script: seq<Entry>): nat {
    if script == [] then 0
    else Ignored(script[..|script| - 1]) + (if script[|script| - 1].kind == Ignore then 1 else 0)
  }

  // ---------------------------------------------------------------- the state of the scan

  // After `j` entries: ids seen once are pending (at the index where they were seen), ids seen
  // twice have moved.
  ghost predicate Scanned(script: seq<Entry>, j: nat, pending: map<int, nat>, moved: set<int>)
    requires j <= |script|
  {
    && (forall id :: id in pending ==>
      pending[id] < j && script[pending[id]].id == id && script[pending[id]].kind != Ignore)
    && (forall id, k :: id in pending && 0 <= k < j && k != pending[id] ==> script[k].id != id)
    && (forall k :: 0 <= k < j && script[k].kind != Ignore ==> script[k].id in pending || script[k].id in moved)
    && (forall k :: j <= k < |script| ==> script[k].id !in moved)
    && (forall k :: 0 <= k < |script| && script[k].kind == Ignore ==> script[k].id !in moved)
    && (forall id :: id in pending ==> id !in moved)
  }

  lemma ScanIgnore(script: seq<Entry>, j: nat, pending: map<int, nat>, moved: set<int>)
    requires Proper(script) && j < |script| && script[j].kind == Ignore
    requires Scanned(script, j, pending, moved)
    ensures Scanned(script, j + 1, pending, moved)
  {
  }

  lemma ScanFirst(script: seq<Entry>, j: nat, pending: map<int, nat>, moved: set<int>)
    requires Proper(script) && j < |script| && script[j].kind != Ignore && script[j].id !in pending
    requires Scanned(script, j, pending, moved)
    ensures Scanned(script, j + 1, pending[script[j].id := j], moved)
  {
  }

  lemma ScanSecond(script: seq<Entry>, j: nat, pending: map<int, nat>, moved: set<int>)
    requires Proper(script) && j < |script| && script[j].kind != Ignore && script[j].id in pending
    requires Scanned(script, j, pending, moved)
    ensures Scanned(script, j + 1, pending - {script[j].id}, moved + {script[j].id})
    ensures OnlyTwo(script, pending[script[j].id], j)
  {
    var i := pending[script[j].id];
    assert script[i].id == script[j].id;
    forall k | 0 <= k < |script| && k != i && k != j ensures script[k].id != script[j].id {
    }
  }

  ghost predicate OnlyTwo(script: seq<Entry>, i: nat, j: nat) {
    && i < j < |script| && script[i].id == script[j].id
    && ((script[i].kind == Add && script[j].kind == Remove) || (script[i].kind == Remove && script[j].kind == Add))
    && (forall k :: 0 <= k < |script| && k != i && k != j ==> script[k].id != script[j].id)
  }

  lemma PendingIsAlone(script: seq<Entry>, pending: map<int, nat>, moved: set<int>, id: int)
    requires Scanned(script, |script|, pending, moved) && id in pending
    ensures pending[id] < |script| && script[pending[id]].kind != Ignore && !HasPartner(script, pending[id])
  {
  }

  lemma NothingPending(script: seq<Entry>, pending: map<int, nat>, moved: set<int>)
    requires Proper(script) && Scanned(script, |script|, pending, moved)
    ensures |pending| == 0
  {
    forall id | id in pending ensures false {
      PendingIsAlone(script, pending, moved, id);
    }
    assert pending.Keys == {};
  }

  lemma ScanStart(script: seq<Entry>)
    ensures ScanState(script, 0, map[], {}, [], [])
  {
  }

  lemma ScanDone(script: seq<Entry>, pending: map<int, nat>, moved: set<int>, ids: seq<int>, deltas: seq<int>)
    requires Proper(script) && ScanState(script, |script|, pending, moved, ids, deltas)
    ensures TurnsInto(Before(script), ids, deltas, After(script))
    ensures 2 * |ids| + Ignored(script) == |script|
  {
    NothingPending(script, pending, moved);
    assert pending.Keys == {};
    AfterIsAllMoved(script, moved);
    assert script[..|script|] == script;
  }

  // What the inner loop counts: the entry is in the current list exactly when its test says so.
  lemma PresentByPending(script: seq<Entry>, j: nat, pending: map<int, nat>, moved: set<int>, k: nat)
    requires k < j <= |script| && Scanned(script, j, pending, moved)
    ensures Present(script[k], moved) <==> Counts(script[k], pending)
  {
  }

  // The moves emitted so far lead from the order before to the current list.
  ghost predicate Emitted(script: seq<Entry>, moved: set<int>, ids: seq<int>, deltas: seq<int>) {
    && TurnsInto(Before(script), ids, deltas, Current(script, moved))
    && (forall k :: 0 <= k < |ids| ==> ids[k] in moved)
  }

  lemma EmitMove(script: seq<Entry>, moved: set<int>, ids: seq<int>, deltas: seq<int>, first: nat, j: nat, id: int,
                 signed: int)
    requires Emitted(script, moved, ids, deltas)
    requires OnlyTwo(script, first, j) && script[j].id == id && id !in moved
    requires signed == SignedDelay(script, first, j, moved)
    ensures Emitted(script, moved + {id}, ids + [id], deltas + [signed])
  {
    hide Before, Apply, SignedDelay;
    var m := Move(id, signed);
    PairIsMove(script, moved, first, j, m);
    MovesSnoc(ids, deltas, m.id, signed);
    ApplySnoc(Before(script), Moves(ids, deltas), m);
  }

  // Two entries per emitted id, one per pending id, one per ignored entry.
  ghost predicate Counted(script: seq<Entry>, j: nat, pending: map<int, nat>, ids: seq<int>)
    requires j <= |script|
  {
    2 * |ids| + |pending| + Ignored(script[..j]) == j
  }

  lemma CountNext(script: seq<Entry>, j: nat, pending: map<int, nat>, ids: seq<int>)
    requires j < |script| && Counted(script, j, pending, ids)
    ensures script[j].kind == Ignore ==> Counted(script, j + 1, pending, ids)
    ensures script[j].kind != Ignore && script[j].id !in pending ==>
              Counted(script, j + 1, pending[script[j].id := j], ids)
    ensures script[j].kind != Ignore && script[j].id in pending ==>
              Counted(script, j + 1, pending - {script[j].id}, ids + [script[j].id])
  {
    assert script[..j + 1][..j] == script[..j];
    if script[j].id in pending {
      var rest := pending - {script[j].id};
      assert rest.Keys == pending.Keys - {script[j].id};
      assert |rest| == |rest.Keys| && |pending| == |pending.Keys|;
    }
  }

  // ---------------------------------------------------------------- the methods

  // ADD entries carry rows; replace each by the sequence id of the event observed there.
  method ChangeToSeqOrderId(diff: seq<Entry>, msgIdsObserved: seq<int>, mapClockToOrder: map<int, int>,
                            ghost columns: seq<int>)
    returns (r: seq<Entry>)
    requires |columns| == |msgIdsObserved|
    requires forall i :: 0 <= i < |columns| ==>
               msgIdsObserved[i] in mapClockToOrder && mapClockToOrder[msgIdsObserved[i]] == columns[i]
    requires forall k :: 0 <= k < |diff| && diff[k].kind == Add ==> 0 <= diff[k].id < |columns|
    ensures r == WithLabels(diff, columns)
  {
    r := diff;
    for i := 0 to |diff|
      invariant |r| == |diff|
      invariant forall k :: 0 <= k < i ==> r[k] == WithLabels(diff, columns)[k]
      invariant forall k :: i <= k < |diff| ==> r[k] == diff[k]
    {
      if r[i].kind == Add {
        var clockOrder := msgIdsObserved[r[i].id];
        r := r[i := Entry(mapClockToOrder[clockOrder], Add)];
      }
    }
  }

  // The test of the counting loop.
  predicate Counts(e: Entry, pending: map<int, nat>) {
    if e.kind == Ignore then true
    else if e.kind == Remove then e.id in pending
    else e.id !in pending
  }

  lemma CurrentGrows(script: seq<Entry>, j: nat, pending: map<int, nat>, moved: set<int>, i: nat, k: nat)
    requires i <= k < j <= |script| && Scanned(script, j, pending, moved)
    ensures |Current(script[i..k + 1], moved)| ==
            |Current(script[i..k], moved)| + (if Counts(script[k], pending) then 1 else 0)
  {
    hide Current, Scanned, Counts;
    assert script[i..k + 1] == script[i..k] + [script[k]];
    CurrentSnoc(script[i..k], script[k], moved);
    PresentByPending(script, j, pending, moved, k);
  }

  // Entries of the current list between the first occurrence of an id and this one.
  method CountBetween(diff: seq<Entry>, first: nat, j: nat, pending: map<int, nat>, ghost moved: set<int>)
    returns (delta: nat)
    requires first < j <= |diff| && Scanned(Rev(diff), j, pending, moved)
    ensures delta == |Current(Rev(diff)[first + 1..j], moved)|
  {
    hide Current, Scanned, Counts;
    ghost var script := Rev(diff);
    NothingBetween(script, first, moved);
    delta := 0;
    for k := first + 1 to j
      invariant delta == |Current(script[first + 1..k], moved)|
    {
      var memorized := diff[|diff| - 1 - k];
      assert memorized == script[k];
      CurrentGrows(script, j, pending, moved, first + 1, k);
      if Counts(memorized, pending) {
        delta := delta + 1;
      }
    }
  }

  lemma NothingBetween(script: seq<Entry>, first: nat, moved: set<int>)
    requires first < |script|
    ensures Current(script[first + 1..first + 1], moved) == []
  {
  }

  ghost predicate ScanState(script: seq<Entry>, j: nat, pending: map<int, nat>, moved: set<int>, ids: seq<int>,
                            deltas: seq<int>) {
    j <= |script| && Scanned(script, j, pending, moved) && Emitted(script, moved, ids, deltas)
      && Counted(script, j, pending, ids)
  }

  lemma StateAfterMove(script: seq<Entry>, j: nat, pending: map<int, nat>, moved: set<int>, ids: seq<int>,
                       deltas: seq<int>, signed: int)
    requires Proper(script) && j < |script| && ScanState(script, j, pending, moved, ids, deltas)
    requires script[j].kind != Ignore && script[j].id in pending
    requires signed == SignedDelay(script, pending[script[j].id], j, moved)
    ensures var id := script[j].id;
            ScanState(script, j + 1, pending - {id}, moved + {id}, ids + [id], deltas + [signed])
  {
    ScanSecond(script, j, pending, moved);
    EmitMove(script, moved, ids, deltas, pending[script[j].id], j, script[j].id, signed);
    CountNext(script, j, pending, ids);
  }

  // One entry of the scan: remember an id seen for the first time, emit a move for the second.
  method ScanEntry(diff: seq<Entry>, j: nat, pending: map<int, nat>, ids: seq<int>, deltas: seq<int>,
                   ghost moved: set<int>)
    returns (pending': map<int, nat>, ids': seq<int>, deltas': seq<int>, ghost moved': set<int>)
    requires Proper(Rev(diff)) && j < |diff| && ScanState(Rev(diff), j, pending, moved, ids, deltas)
    ensures ScanState(Rev(diff), j + 1, pending', moved', ids', deltas')
  {
    hide Proper, Emitted, Counted, Current;
    ghost var script := Rev(diff);
    var entry := diff[|diff| - 1 - j];
    assert entry == script[j];
    if entry.kind == Ignore {
      ScanIgnore(script, j, pending, moved);
      CountNext(script, j, pending, ids);
      return pending, ids, deltas, moved;
    }
    if entry.id !in pending {
      ScanFirst(script, j, pending, moved);
      CountNext(script, j, pending, ids);
      return pending[entry.id := j], ids, deltas, moved;
    }
    var first := pending[entry.id];
    var delta: int := CountBetween(diff, first, j, pending, moved);
    if entry.kind == Remove { delta := -delta; }
    StateAfterMove(script, j, pending, moved, ids, deltas, delta);
    return pending - {entry.id}, ids + [entry.id], deltas + [delta], moved + {entry.id};
  }

  // The emitted moves take the order before to the order after, one move per displaced id.
  method ConvertToMoves(diff: seq<Entry>) returns (ids: seq<int>, deltas: seq<int>)
    requires Proper(Rev(diff))
    ensures TurnsInto(Before(Rev(diff)), ids, deltas, After(Rev(diff)))
    ensures 2 * |ids| + Ignored(Rev(diff)) == |diff|
  {
    ghost var script := Rev(diff);
    ghost var moved: set<int> := {};
    var pending: map<int, nat> := map[];
    ids, deltas := [], [];
    ScanStart(script);
    for j := 0 to |diff|
      invariant ScanState(script, j, pending, moved, ids, deltas)
    {
      pending, ids, deltas, moved := ScanEntry(diff, j, pending, ids, deltas, moved);
    }
    ScanDone(script, pending, moved, ids, deltas);
  }

  lemma MovesSnoc(ids: seq<int>, deltas: seq<int>, id: int, delta: int)
    requires |ids| == |deltas|
    ensures Moves(ids + [id], deltas + [delta]) == Moves(ids, deltas) + [Move(id, delta)]
  {
  }
}
