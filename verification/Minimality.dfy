// No record of single-element moves is shorter than the one the search finds: elements that
// never move keep their order, so they form an increasing chain of the observed columns.
module Minimality {
  import opened Basics
  import opened Chains
  import opened EditScripts
  import opened DiffBinary
  import opened DecodeIndices

  function Keep(s: seq<int>, moved: set<int>): seq<int> {
    if s == [] then []
    else Keep(s[..|s| - 1], moved) + (if s[|s| - 1] in moved then [] else [s[|s| - 1]])
  }

  function MovedIds(moves: seq<Move>): set<int> {
    set k | 0 <= k < |moves| :: moves[k].id
  }

  lemma {:induction false} KeepConcat(a: seq<int>, b: seq<int>, moved: set<int>)
    ensures Keep(a + b, moved) == Keep(a, moved) + Keep(b, moved)
  {
    if b == [] {
      assert a + b == a;
    } else {
      assert (a + b)[..|a + b| - 1] == a + b[..|b| - 1];
      KeepConcat(a, b[..|b| - 1], moved);
      Associative(Keep(a, moved), Keep(b[..|b| - 1], moved), if b[|b| - 1] in moved then [] else [b[|b| - 1]]);
    }
  }

  lemma KeepSkips(s: seq<int>, x: int, moved: set<int>)
    requires x in moved
    ensures Keep(s + [x], moved) == Keep(s, moved)
  {
    assert (s + [x])[..|s|] == s;
  }

  // A moved element is invisible to Keep, wherever it stands.
  lemma KeepInsert(s: seq<int>, i: nat, x: int, moved: set<int>)
    requires i <= |s| && x in moved
    ensures Keep(Insert(s, i, x), moved) == Keep(s, moved)
  {
    assert s == s[..i] + s[i..];
    KeepSkips(s[..i], x, moved);
    KeepConcat(s[..i] + [x], s[i..], moved);
    KeepConcat(s[..i], s[i..], moved);
  }

  lemma KeepMove(s: seq<int>, m: Move, moved: set<int>)
    requires CanMove(s, m) && m.id in moved
    ensures Keep(MoveOne(s, m), moved) == Keep(s, moved)
  {
    var i := IndexOf(s, m.id);
    InsertUndoesWithout(s, i);
    KeepInsert(Without(s, i), i, m.id, moved);
    KeepInsert(Without(s, i), i + m.delay, m.id, moved);
  }

  lemma {:induction false} UnmovedKeepOrder(s: seq<int>, moves: seq<Move>, moved: set<int>)
    requires Applicable(s, moves) && forall k :: 0 <= k < |moves| ==> moves[k].id in moved
    ensures Keep(Apply(s, moves), moved) == Keep(s, moved)
  {
    if moves != [] {
      UnmovedKeepOrder(s, moves[..|moves| - 1], moved);
      KeepMove(Apply(s, moves[..|moves| - 1]), moves[|moves| - 1], moved);
    }
  }

  // An increasing selection of `s` is no longer than its longest increasing chain.
  lemma {:induction false} KeptIsChain(s: seq<int>, moved: set<int>, bound: int)
    requires Increasing(Keep(s, moved))
    requires Keep(s, moved) != [] ==> Keep(s, moved)[|Keep(s, moved)| - 1] < bound
    ensures |Keep(s, moved)| <= Best(s, bound)
  {
    if s != [] {
      var init, last := s[..|s| - 1], s[|s| - 1];
      var kept := Keep(init, moved);
      if last in moved {
        assert Keep(s, moved) == kept;
        KeptIsChain(init, moved, bound);
      } else {
        assert Keep(s, moved)[..|kept|] == kept;
        assert Keep(s, moved)[|kept|] == last;
        KeptIsChain(init, moved, last);
      }
    }
  }

  lemma {:induction false} KeepIota(n: nat, moved: set<int>)
    ensures Increasing(Keep(Iota(n), moved))
    ensures forall k :: 0 <= k < |Keep(Iota(n), moved)| ==> Keep(Iota(n), moved)[k] < n
    ensures |Keep(Iota(n), moved)| + |moved| >= n
    decreases n
  {
    hide Keep;
    KeepLast(n, moved);
    if n > 0 {
      if n - 1 in moved {
        KeepIota(n - 1, moved - {n - 1});
        KeepSame(Iota(n - 1), moved - {n - 1}, moved);
      } else {
        KeepIota(n - 1, moved);
      }
    }
  }

  lemma KeepLast(n: nat, moved: set<int>)
    ensures n == 0 ==> Keep(Iota(n), moved) == []
    ensures n > 0 ==> Keep(Iota(n), moved) == Keep(Iota(n - 1), moved) + (if n - 1 in moved then [] else [n - 1])
  {
    assert n > 0 ==> Iota(n)[..n - 1] == Iota(n - 1);
  }

  lemma {:induction false} KeepSame(s: seq<int>, m1: set<int>, m2: set<int>)
    requires forall k :: 0 <= k < |s| ==> (s[k] in m1 <==> s[k] in m2)
    ensures Keep(s, m1) == Keep(s, m2)
  {
    if s != [] {
      KeepSame(s[..|s| - 1], m1, m2);
    }
  }

  lemma {:induction false} FewMovedIds(moves: seq<Move>)
    ensures |MovedIds(moves)| <= |moves|
  {
    if moves != [] {
      var init, m := moves[..|moves| - 1], moves[|moves| - 1];
      FewMovedIds(init);
      assert MovedIds(moves) == MovedIds(init) + {m.id};
    }
  }

  // Any moves at all that turn the sorted order into `columns` number at least as many as there
  // are events outside a longest increasing chain; together with Compress, the record is minimal.
  lemma NoShorterMoves(n: nat, columns: seq<int>, moves: seq<Move>)
    requires Applicable(Iota(n), moves) && Apply(Iota(n), moves) == columns
    ensures |moves| + Best(columns, n) >= n
  {
    var moved := MovedIds(moves);
    UnmovedKeepOrder(Iota(n), moves, moved);
    KeepIota(n, moved);
    KeptIsChain(columns, moved, n);
    FewMovedIds(moves);
  }
}
