// Notions that several parts share.
module Basics {

  function Max(a: int, b: int): int {
    if a < b then b else a
  }

  lemma MaxIsHighest(a: int, b: int)
    ensures Max(a, b) >= a && Max(a, b) >= b && (Max(a, b) == a || Max(a, b) == b)
  {
  }

  predicate Increasing(s: seq<int>) {
    forall i, j :: 0 <= i < j < |s| ==> s[i] < s[j]
  }

  predicate Distinct(s: seq<int>) {
    forall i, j :: 0 <= i < j < |s| ==> s[i] != s[j]
  }

  function SetOf(s: seq<int>): set<int> {
    set x | x in s
  }

  lemma SetOfNext(s: seq<int>, i: nat)
    requires i < |s|
    ensures SetOf(s[..i + 1]) == SetOf(s[..i]) + {s[i]} && s[i] in SetOf(s)
  {
    assert s[..i + 1] == s[..i] + [s[i]];
  }

  lemma {:induction false} DistinctCount(s: seq<int>)
    requires Distinct(s)
    ensures |SetOf(s)| == |s|
  {
    if s == [] {
      assert SetOf(s) == {};
    } else {
      var init, last := s[..|s| - 1], s[|s| - 1];
      DistinctCount(init);
      assert SetOf(s) == SetOf(init) + {last} && last !in SetOf(init);
    }
  }

  lemma IncreasingCount(s: seq<int>)
    requires Increasing(s)
    ensures |SetOf(s)| == |s|
  {
    DistinctCount(s);
  }

  ghost predicate IsLeast(s: set<int>, x: int) {
    x in s && forall y :: y in s ==> x <= y
  }

  lemma {:induction false} LeastExists(s: set<int>)
    requires s != {}
    ensures exists x :: IsLeast(s, x)
  {
    assert (forall x :: x !in s) ==> s == {};
    var x :| x in s;
    var rest := s - {x};
    if rest == {} {
      forall y | y in s ensures x <= y {
        assert y == x || y in rest;
      }
      assert IsLeast(s, x);
    } else {
      LeastExists(rest);
      var m :| IsLeast(rest, m);
      var least := if x < m then x else m;
      forall y | y in s ensures least <= y {
        assert y == x || y in rest;
      }
      assert IsLeast(s, least);
    }
  }

  // The keys of a map in the order in which std::map yields them.
  method SortedKeys(keys: set<int>) returns (ids: seq<int>)
    ensures Increasing(ids) && SetOf(ids) == keys
  {
    ids := [];
    var left := keys;
    while left != {}
      invariant left <= keys && SetOf(ids) == keys - left && Increasing(ids)
      invariant forall i, y :: 0 <= i < |ids| && y in left ==> ids[i] < y
    {
      LeastExists(left);
      assert exists x :: IsLeast(left, x) && x in left;
      var x :| x in left && forall y :: y in left ==> x <= y;
      assert SetOf(ids + [x]) == SetOf(ids) + {x};
      ids, left := ids + [x], left - {x};
    }
  }
}
