// Remote indexing: every rank learns which slot of each predecessor's window is its own.
module RemoteSlots {

  import opened Basics

  predicate RanksBelow(ranks: seq<int>, n: nat) {
    forall i :: 0 <= i < |ranks| ==> 0 <= ranks[i] < n
  }

  function InsertRank(ranks: seq<int>, r: int): seq<int> {
    if ranks == [] || ranks[|ranks| - 1] < r then ranks + [r]
    else InsertRank(ranks[..|ranks| - 1], r) + [ranks[|ranks| - 1]]
  }

  // The sort by rank that is intended; the source's comparison function never returns a
  // negative number.
  function SortRanks(ranks: seq<int>): seq<int> {
    if ranks == [] then [] else InsertRank(SortRanks(ranks[..|ranks| - 1]), ranks[|ranks| - 1])
  }

  lemma {:induction false} InsertHas(ranks: seq<int>, r: int, x: int)
    ensures x in InsertRank(ranks, r) <==> x in ranks || x == r
    ensures |InsertRank(ranks, r)| == |ranks| + 1
  {
    if !(ranks == [] || ranks[|ranks| - 1] < r) {
      var init, last := ranks[..|ranks| - 1], ranks[|ranks| - 1];
      InsertHas(init, r, x);
      assert init + [last] == ranks;
    }
  }

  lemma {:induction false} InsertAscends(ranks: seq<int>, r: int)
    requires Increasing(ranks) && r !in ranks
    ensures Increasing(InsertRank(ranks, r))
  {
    if !(ranks == [] || ranks[|ranks| - 1] < r) {
      var init, last := ranks[..|ranks| - 1], ranks[|ranks| - 1];
      InsertAscends(init, r);
      var inserted := InsertRank(init, r);
      forall i | 0 <= i < |inserted| ensures inserted[i] < last {
        InsertHas(init, r, inserted[i]);
      }
    }
  }

  lemma {:induction false} SortHas(ranks: seq<int>, x: int)
    ensures x in SortRanks(ranks) <==> x in ranks
    ensures |SortRanks(ranks)| == |ranks|
  {
    if ranks != [] {
      var init, last := ranks[..|ranks| - 1], ranks[|ranks| - 1];
      SortHas(init, x);
      InsertHas(SortRanks(init), last, x);
      assert init + [last] == ranks;
    }
  }

  lemma {:induction false} SortAscends(ranks: seq<int>)
    requires Distinct(ranks)
    ensures Increasing(SortRanks(ranks))
  {
    if ranks != [] {
      var init, last := ranks[..|ranks| - 1], ranks[|ranks| - 1];
      SortAscends(init);
      SortHas(init, last);
      InsertAscends(SortRanks(init), last);
    }
  }

  // What arrives at every rank, in any order: exactly the ranks that have it as a predecessor.
  ghost predicate Announced(preds: seq<seq<int>>, arrivals: seq<seq<int>>) {
    && |arrivals| == |preds|
    && (forall r :: 0 <= r < |preds| ==> RanksBelow(preds[r], |preds|) && Distinct(preds[r]))
    && (forall s :: 0 <= s < |preds| ==> Distinct(arrivals[s]) && RanksBelow(arrivals[s], |preds|))
    && (forall s, r :: 0 <= s < |preds| && 0 <= r < |preds| ==> (r in arrivals[s] <==> s in preds[r]))
  }

  // Step 1: every rank flags its predecessors, and the sum over all ranks counts the readers.
  function Readers(preds: seq<seq<int>>, s: int): set<int> {
    set r | 0 <= r < |preds| && s in preds[r]
  }

  method FlagPreds(pred: seq<int>, n: nat) returns (flags: seq<nat>)
    requires RanksBelow(pred, n)
    ensures |flags| == n && forall s :: 0 <= s < n ==> flags[s] == if s in pred then 1 else 0
  {
    flags := seq(n, _ => 0);
    for i := 0 to |pred|
      invariant |flags| == n && forall s :: 0 <= s < n ==> flags[s] == if s in pred[..i] then 1 else 0
    {
      flags := flags[pred[i] := 1];
    }
    assert pred[..|pred|] == pred;
  }

  method CountReaders(preds: seq<seq<int>>) returns (counts: seq<nat>)
    requires forall r :: 0 <= r < |preds| ==> RanksBelow(preds[r], |preds|)
    ensures |counts| == |preds| && forall s :: 0 <= s < |preds| ==> counts[s] == |Readers(preds, s)|
  {
    hide Readers;
    var n := |preds|;
    counts := seq(n, _ => 0);
    NoReaders(preds);
    for r := 0 to n
      invariant |counts| == n && forall s :: 0 <= s < n ==> counts[s] == |Readers(preds[..r], s)|
    {
      var flags := FlagPreds(preds[r], n);
      forall s | 0 <= s < n ensures |Readers(preds[..r + 1], s)| == |Readers(preds[..r], s)| + flags[s] {
        MoreReaders(preds, r, s);
      }
      counts := seq(n, s requires 0 <= s < n => counts[s] + flags[s]);
    }
    assert preds[..n] == preds;
  }

  lemma NoReaders(preds: seq<seq<int>>)
    ensures forall s :: Readers(preds[..0], s) == {}
  {
  }

  lemma MoreReaders(preds: seq<seq<int>>, r: nat, s: int)
    requires r < |preds|
    ensures |Readers(preds[..r + 1], s)| == |Readers(preds[..r], s)| + (if s in preds[r] then 1 else 0)
  {
    var before, after := Readers(preds[..r], s), Readers(preds[..r + 1], s);
    forall q ensures q in after <==> q in before || (q == r && s in preds[r]) {
      assert 0 <= q <= r ==> preds[..r + 1][q] == preds[q];
      assert 0 <= q < r ==> preds[..r][q] == preds[q];
    }
    assert after == before + (if s in preds[r] then {r} else {});
  }

  // So as many messages are received as there are readers.
  lemma CountIsArrivals(preds: seq<seq<int>>, arrivals: seq<seq<int>>, s: nat)
    requires Announced(preds, arrivals) && s < |preds|
    ensures |Readers(preds, s)| == |arrivals[s]|
  {
    DistinctCount(arrivals[s]);
    assert Readers(preds, s) == SetOf(arrivals[s]);
  }

  // The slot belongs to the reader.
  predicate SlotIs(succRanks: seq<int>, slot: int, reader: int) {
    0 <= slot < |succRanks| && succRanks[slot] == reader
  }

  // Everyone who announced itself has been sent its slot by the first n ranks.
  ghost predicate Sent(arrivals: seq<seq<int>>, succRanks: seq<seq<int>>, inbox: map<(int, int), int>, n: nat) {
    && n <= |succRanks| && n <= |arrivals|
    && forall s, r :: 0 <= s < n && r in arrivals[s] ==> (s, r) in inbox && SlotIs(succRanks[s], inbox[(s, r)], r)
  }

  // Steps 3 and 4: the successors are sorted, and each is sent the index it got.
  method SendIndices(s: int, sorted: seq<int>, inbox: map<(int, int), int>) returns (inbox': map<(int, int), int>)
    requires Distinct(sorted)
    ensures forall t, r :: t != s && (t, r) in inbox ==> (t, r) in inbox' && inbox'[(t, r)] == inbox[(t, r)]
    ensures forall r :: r in sorted ==> (s, r) in inbox' && SlotIs(sorted, inbox'[(s, r)], r)
  {
    inbox' := inbox;
    for localIndex := 0 to |sorted|
      invariant forall t, r :: t != s && (t, r) in inbox ==> (t, r) in inbox' && inbox'[(t, r)] == inbox[(t, r)]
      invariant forall i :: 0 <= i < localIndex ==> (s, sorted[i]) in inbox' && inbox'[(s, sorted[i])] == i
    {
      inbox' := inbox'[(s, sorted[localIndex]) := localIndex];
    }
  }

  // Step 5: a rank stores the indices it is sent by its predecessors.
  method ReceiveIndices(r: int, pred: seq<int>, ghost arrivals: seq<seq<int>>, ghost succRanks: seq<seq<int>>,
                        inbox: map<(int, int), int>) returns (indices: seq<int>)
    requires |succRanks| == |arrivals| && Sent(arrivals, succRanks, inbox, |arrivals|) && RanksBelow(pred, |arrivals|)
    requires forall k :: 0 <= k < |pred| ==> r in arrivals[pred[k]]
    ensures |indices| == |pred| && forall k :: 0 <= k < |pred| ==> SlotIs(succRanks[pred[k]], indices[k], r)
  {
    indices := [];
    for k := 0 to |pred|
      invariant |indices| == k && forall i :: 0 <= i < k ==> SlotIs(succRanks[pred[i]], indices[i], r)
    {
      indices := indices + [inbox[(pred[k], r)]];
    }
  }

  // rempi_cp_remote_indexing as seen by all ranks.
  method RemoteIndexing(preds: seq<seq<int>>, arrivals: seq<seq<int>>)
    returns (succRanks: seq<seq<int>>, predIndices: seq<seq<int>>)
    requires Announced(preds, arrivals)
    ensures |succRanks| == |predIndices| == |preds|
    // every rank's window has one slot for each of its readers
    ensures forall s :: 0 <= s < |preds| ==> |succRanks[s]| == |arrivals[s]| && Increasing(succRanks[s])
    // the slot r reads from s is inside the window of s and is the one s writes for r
    ensures forall r :: 0 <= r < |preds| ==> Agrees(succRanks, preds[r], predIndices[r], r)
  {
    var counts := CountReaders(preds);
    succRanks := [];
    var inbox: map<(int, int), int> := map[];
    for s := 0 to |preds|
      invariant |succRanks| == s && Sent(arrivals, succRanks, inbox, s)
      invariant forall t :: 0 <= t < s ==> |succRanks[t]| == |arrivals[t]| && Increasing(succRanks[t])
    {
      CountIsArrivals(preds, arrivals, s);
      var received := arrivals[s][..counts[s]];
      assert received == arrivals[s];
      var sorted := SortRanks(received);
      SortHas(arrivals[s], 0);
      SortAscends(arrivals[s]);
      forall r | r in arrivals[s] ensures r in sorted {
        SortHas(arrivals[s], r);
      }
      inbox := SendIndices(s, sorted, inbox);
      succRanks := succRanks + [sorted];
    }
    predIndices := [];
    for r := 0 to |preds|
      invariant |predIndices| == r && forall q :: 0 <= q < r ==> Agrees(succRanks, preds[q], predIndices[q], q)
    {
      forall k | 0 <= k < |preds[r]| ensures r in arrivals[preds[r][k]] {
        assert preds[r][k] in preds[r];
      }
      var indices := ReceiveIndices(r, preds[r], arrivals, succRanks, inbox);
      predIndices := predIndices + [indices];
    }
  }

  ghost predicate Agrees(succRanks: seq<seq<int>>, pred: seq<int>, indices: seq<int>, r: int) {
    && |indices| == |pred| && RanksBelow(pred, |succRanks|)
    && forall k :: 0 <= k < |pred| ==> SlotIs(succRanks[pred[k]], indices[k], r)
  }

  // Two ranks that read the same window read different slots.
  lemma ReadersDoNotShare(succRanks: seq<seq<int>>, preds: seq<seq<int>>, predIndices: seq<seq<int>>, a: nat, b: nat,
                          i: nat, j: nat)
    requires |preds| == |predIndices| && a < |preds| && b < |preds| && a != b
    requires forall r :: 0 <= r < |preds| ==> Agrees(succRanks, preds[r], predIndices[r], r)
    requires i < |preds[a]| && j < |preds[b]| && preds[a][i] == preds[b][j]
    ensures i < |predIndices[a]| && j < |predIndices[b]| && predIndices[a][i] != predIndices[b][j]
  {
    assert Agrees(succRanks, preds[a], predIndices[a], a) && Agrees(succRanks, preds[b], predIndices[b], b);
    assert SlotIs(succRanks[preds[a][i]], predIndices[a][i], a) && SlotIs(succRanks[preds[b][j]], predIndices[b][j], b);
  }
}
