// Increasing chains of a sequence and the quadratic dynamic program that measures them.
// `Best` is the reference the incremental search of PathSearch is proved against; it knows
// nothing of leaf lists, parents or sweeping.
module Chains {

  import opened Basics

  // Length of the longest increasing chain of `s` whose values are all below `bound`.
  function Best(s: seq<int>, bound: int): nat {
    if s == [] then 0
    else
      var last, rest := s[|s| - 1], s[..|s| - 1];
      if last < bound then Max(Best(rest, bound), 1 + Best(rest, last)) else Best(rest, bound)
  }

  // `rows` picks positions of `s`, left to right, carrying increasing values below `bound`.
  ghost predicate IsChainBelow(s: seq<int>, rows: seq<nat>, bound: int) {
    && (forall i :: 0 <= i < |rows| ==> rows[i] < |s| && s[rows[i]] < bound)
    && (forall i, j :: 0 <= i < j < |rows| ==> rows[i] < rows[j] && s[rows[i]] < s[rows[j]])
  }

  lemma {:induction false} NoChainIsLonger(s: seq<int>, rows: seq<nat>, bound: int)
    requires IsChainBelow(s, rows, bound)
    ensures |rows| <= Best(s, bound)
    decreases |s|
  {
    if rows != [] {
      assert rows[0] < |s|;
      var last, rest := s[|s| - 1], s[..|s| - 1];
      var init := rows[..|rows| - 1];
      if rows[|rows| - 1] == |s| - 1 {
        assert forall i :: 0 <= i < |init| ==> rows[i] < rows[|rows| - 1];
        NoChainIsLonger(rest, init, last);
      } else {
        assert forall i :: 0 <= i < |rows| ==> rows[i] <= rows[|rows| - 1];
        NoChainIsLonger(rest, rows, bound);
      }
    }
  }

  ghost function LongestChain(s: seq<int>, bound: int): (rows: seq<nat>)
    ensures IsChainBelow(s, rows, bound) && |rows| == Best(s, bound)
  {
    if s == [] then []
    else
      var last, rest := s[|s| - 1], s[..|s| - 1];
      if last < bound && Best(rest, bound) < 1 + Best(rest, last) then
        LongestChain(rest, last) + [|s| - 1]
      else
        LongestChain(rest, bound)
  }

  // `Best` is the maximum length: it bounds every chain and some chain attains it.
  lemma BestIsMaximum(s: seq<int>, bound: int)
    ensures forall rows :: IsChainBelow(s, rows, bound) ==> |rows| <= Best(s, bound)
    ensures exists rows :: IsChainBelow(s, rows, bound) && |rows| == Best(s, bound)
  {
    forall rows | IsChainBelow(s, rows, bound) ensures |rows| <= Best(s, bound) {
      NoChainIsLonger(s, rows, bound);
    }
    var rows := LongestChain(s, bound);
    assert IsChainBelow(s, rows, bound);
  }

  lemma {:induction false} BestIsMonotone(s: seq<int>, low: int, high: int)
    requires low <= high
    ensures Best(s, low) <= Best(s, high)
  {
    if s != [] {
      BestIsMonotone(s[..|s| - 1], low, high);
    }
  }
}
