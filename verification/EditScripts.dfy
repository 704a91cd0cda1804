// Edit scripts between two orders of the same elements, and the "move id by delay" steps they
// turn into. A script lists IGNORE, REMOVE and ADD entries; reading IGNORE and REMOVE gives the
// order before, reading IGNORE and ADD the order after.
module EditScripts {
  import opened Basics

  datatype Kind = Ignore | Add | Remove
  datatype Entry = Entry(id: int, kind: Kind)
  datatype Move = Move(id: int, delay: int)

  function Iota(n: nat): (s: seq<int>)
    ensures |s| == n && forall i :: 0 <= i < n ==> s[i] == i
  {
    seq(n, i => i)
  }

  // ---------------------------------------------------------------- single-element moves

  function IndexOf(s: seq<int>, x: int): (i: nat)
    requires x in s
    ensures i < |s| && s[i] == x && x !in s[..i]
  {
    if s[0] == x then 0 else 1 + IndexOf(s[1..], x)
  }

  function Without(s: seq<int>, i: nat): seq<int>
    requires i < |s|
  {
    s[..i] + s[i + 1..]
  }

  function Insert(s: seq<int>, i: nat, x: int): seq<int>
    requires i <= |s|
  {
    s[..i] + [x] + s[i..]
  }

  lemma InsertUndoesWithout(s: seq<int>, i: nat)
    requires i < |s|
    ensures Insert(Without(s, i), i, s[i]) == s
  {
  }

  predicate CanMove(s: seq<int>, m: Move) {
    m.id in s && 0 <= IndexOf(s, m.id) + m.delay <= |s| - 1
  }

  // Take the id out, walk `delay` places from its successor, put it back there.
  function MoveOne(s: seq<int>, m: Move): (r: seq<int>)
    requires CanMove(s, m)
    ensures |r| == |s|
  {
    var i := IndexOf(s, m.id);
    var rest := Without(s, i);
    Insert(rest, i + m.delay, m.id)
  }

  predicate Applicable(s: seq<int>, moves: seq<Move>)
    decreases |moves|, 0
  {
    moves == [] ||
    (&& Applicable(s, moves[..|moves| - 1])
     && CanMove(Apply(s, moves[..|moves| - 1]), moves[|moves| - 1]))
  }

  function Apply(s: seq<int>, moves: seq<Move>): (r: seq<int>)
    requires Applicable(s, moves)
    ensures |r| == |s|
    decreases |moves|, 1
  {
    if moves == [] then s
    else MoveOne(Apply(s, moves[..|moves| - 1]), moves[|moves| - 1])
  }

  lemma ApplySnoc(s: seq<int>, moves: seq<Move>, m: Move)
    requires Applicable(s, moves) && CanMove(Apply(s, moves), m)
    ensures Applicable(s, moves + [m]) && Apply(s, moves + [m]) == MoveOne(Apply(s, moves), m)
  {
    assert (moves + [m])[..|moves|] == moves;
  }

  lemma IndexOfUnique(s: seq<int>, i: nat)
    requires i < |s| && s[i] !in s[..i]
    ensures IndexOf(s, s[i]) == i
  {
  }

  // Moving forward past `b`, and backward past it.
  lemma MoveForward(a: seq<int>, x: int, b: seq<int>, c: seq<int>)
    requires x !in a
    ensures CanMove(a + [x] + b + c, Move(x, |b|))
    ensures MoveOne(a + [x] + b + c, Move(x, |b|)) == a + b + [x] + c
  {
    var s := a + [x] + b + c;
    assert s[|a|] == x && s[..|a|] == a;
    IndexOfUnique(s, |a|);
    assert Without(s, |a|) == a + b + c;
  }

  lemma MoveBackward(a: seq<int>, b: seq<int>, x: int, c: seq<int>)
    requires x !in a && x !in b
    ensures CanMove(a + b + [x] + c, Move(x, -|b|))
    ensures MoveOne(a + b + [x] + c, Move(x, -|b|)) == a + [x] + b + c
  {
    var s := a + b + [x] + c;
    assert s[|a + b|] == x && s[..|a + b|] == a + b;
    IndexOfUnique(s, |a + b|);
    assert Without(s, |a + b|) == a + b + c;
  }

  // ---------------------------------------------------------------- scripts

  predicate Present(e: Entry, moved: set<int>) {
    e.kind == Ignore || (e.kind == Remove && e.id !in moved) || (e.kind == Add && e.id in moved)
  }

  function Slot(e: Entry, moved: set<int>): seq<int> {
    if Present(e, moved) then [e.id] else []
  }

  // The list half way through: ids in `moved` already sit at their ADD entry, the others still
  // at their REMOVE entry.
  function Current(script: seq<Entry>, moved: set<int>): seq<int> {
    if script == [] then []
    else
      var last := script[|script| - 1];
      Current(script[..|script| - 1], moved) + Slot(last, moved)
  }

  function Ids(script: seq<Entry>): set<int> {
    set k | 0 <= k < |script| :: script[k].id
  }

  function Before(script: seq<Entry>): seq<int> {
    Current(script, {})
  }

  function After(script: seq<Entry>): seq<int> {
    Current(script, Ids(script))
  }

  // Ids repeat only as one ADD and one REMOVE, and each of those has its partner.
  ghost predicate Proper(script: seq<Entry>) {
    && (forall i, j :: 0 <= i < j < |script| && script[i].id == script[j].id ==>
          || (script[i].kind == Add && script[j].kind == Remove)
          || (script[i].kind == Remove && script[j].kind == Add))
    && (forall i :: 0 <= i < |script| && script[i].kind != Ignore ==> HasPartner(script, i))
  }

  ghost predicate HasPartner(script: seq<Entry>, i: nat)
    requires i < |script|
  {
    exists j :: 0 <= j < |script| && j != i && script[j].id == script[i].id
  }

  lemma CurrentSnoc(script: seq<Entry>, e: Entry, moved: set<int>)
    ensures Current(script + [e], moved) ==
            Current(script, moved) + Slot(e, moved)
  {
    assert (script + [e])[..|script|] == script;
  }

  lemma Associative(a: seq<int>, b: seq<int>, c: seq<int>)
    ensures a + b + c == a + (b + c)
  {
  }

  lemma {:induction false} CurrentConcat(a: seq<Entry>, b: seq<Entry>, moved: set<int>)
    ensures Current(a + b, moved) == Current(a, moved) + Current(b, moved)
  {
    if b == [] {
      assert a + b == a;
    } else {
      var init, last := b[..|b| - 1], b[|b| - 1];
      CurrentConcat(a, init, moved);
      CurrentSnoc(a + init, last, moved);
      assert a + b == a + init + [last];
      Associative(Current(a, moved), Current(init, moved), Slot(last, moved));
    }
  }

  lemma {:induction false} CurrentAgree(script: seq<Entry>, m1: set<int>, m2: set<int>)
    requires forall k :: 0 <= k < |script| ==> (Present(script[k], m1) <==> Present(script[k], m2))
    ensures Current(script, m1) == Current(script, m2)
  {
    if script != [] {
      CurrentAgree(script[..|script| - 1], m1, m2);
    }
  }

  ghost predicate Shows(script: seq<Entry>, moved: set<int>, x: int) {
    exists k :: 0 <= k < |script| && Present(script[k], moved) && script[k].id == x
  }

  lemma ShowsSnoc(script: seq<Entry>, e: Entry, moved: set<int>, x: int)
    ensures Shows(script + [e], moved, x) <==> Shows(script, moved, x) || (Present(e, moved) && e.id == x)
  {
    var longer := script + [e];
    assert longer[|script|] == e;
    if k :| 0 <= k < |script| && Present(script[k], moved) && script[k].id == x {
      assert longer[k] == script[k];
    }
  }

  lemma {:induction false} CurrentMember(script: seq<Entry>, moved: set<int>, x: int)
    ensures x in Current(script, moved) <==> Shows(script, moved, x)
  {
    if script != [] {
      var init, last := script[..|script| - 1], script[|script| - 1];
      CurrentMember(init, moved, x);
      ShowsSnoc(init, last, moved, x);
      assert init + [last] == script;
    }
  }

  lemma {:induction false} DistinctCurrent(script: seq<Entry>, moved: set<int>)
    requires Distinct(Current(script, moved))
    ensures forall i, j :: 0 <= i < j < |script| && Present(script[i], moved) && Present(script[j], moved)
              ==> script[i].id != script[j].id
  {
    if script != [] {
      var init, last := script[..|script| - 1], script[|script| - 1];
      var before := Current(init, moved);
      assert before == Current(script, moved)[..|before|];
      DistinctCurrent(init, moved);
      CurrentMember(init, moved, last.id);
      if Present(last, moved) {
        assert Current(script, moved)[|before|] == last.id;
        assert last.id !in before;
        forall i | 0 <= i < |init| && Present(script[i], moved) ensures script[i].id != last.id {
          assert init[i] == script[i];
        }
      }
    }
  }

  // A script between two orders of the same distinct elements is proper.
  lemma ScriptIsProper(script: seq<Entry>)
    requires Distinct(Before(script)) && Distinct(After(script))
    requires forall x :: x in Before(script) <==> x in After(script)
    ensures Proper(script)
  {
    var all := Ids(script);
    DistinctCurrent(script, {});
    DistinctCurrent(script, all);
    forall i | 0 <= i < |script| && script[i].kind != Ignore ensures HasPartner(script, i) {
      CurrentMember(script, {}, script[i].id);
      CurrentMember(script, all, script[i].id);
      assert Present(script[i], if script[i].kind == Remove then {} else all);
    }
  }

  lemma AfterIsAllMoved(script: seq<Entry>, moved: set<int>)
    requires forall k :: 0 <= k < |script| && script[k].kind != Ignore ==> script[k].id in moved
    ensures Current(script, moved) == After(script)
  {
    CurrentAgree(script, moved, Ids(script));
  }

  // ---------------------------------------------------------------- one entry pair = one move

  lemma Blank(a: seq<int>, x: int, b: seq<int>, c: seq<int>)
    ensures a + [x] + b + [] + c == a + [x] + b + c
    ensures a + [] + b + [x] + c == a + b + [x] + c
  {
    assert a + [] == a && a + [x] + b + [] == a + [x] + b;
  }

  // The current list around the two entries of an id, before and after it has moved.
  lemma AroundPair(script: seq<Entry>, moved: set<int>, i: nat, j: nat, id: int)
    requires i < j < |script| && script[i].id == script[j].id == id && id !in moved
    requires (script[i].kind == Add && script[j].kind == Remove) || (script[i].kind == Remove && script[j].kind == Add)
    requires forall k :: 0 <= k < |script| && k != i && k != j ==> script[k].id != id
    ensures var a, b, c :=
      Current(script[..i], moved), Current(script[i + 1..j], moved), Current(script[j + 1..], moved);
      && id !in a && id !in b
      && var early, late := a + [id] + b + c, a + b + [id] + c;
      if script[j].kind == Add then
        Current(script, moved) == early && Current(script, moved + {id}) == late
      else
        Current(script, moved) == late && Current(script, moved + {id}) == early
  {
    PartKeepsOut(script[..i], moved, id);
    PartKeepsOut(script[i + 1..j], moved, id);
    PartKeepsOut(script[j + 1..], moved, id);
    var a, b, c := Current(script[..i], moved), Current(script[i + 1..j], moved), Current(script[j + 1..], moved);
    Blank(a, id, b, c);
    SplitCurrent(script, moved, i, j);
    SplitCurrent(script, moved + {id}, i, j);
    if script[j].kind == Add {
      assert Slot(script[i], moved) == [id] && Slot(script[j], moved) == [];
    } else {
      assert Slot(script[i], moved) == [] && Slot(script[j], moved) == [id];
    }
  }

  // How far the id of entries `i` and `j` has to travel, backwards if its ADD comes first.
  function SignedDelay(script: seq<Entry>, i: nat, j: nat, moved: set<int>): int
    requires i < j < |script|
  {
    if script[j].kind == Remove then -|Current(script[i + 1..j], moved)| else |Current(script[i + 1..j], moved)|
  }

  // The list entries between the two entries of an id are exactly the places it has to travel.
  lemma PairIsMove(script: seq<Entry>, moved: set<int>, i: nat, j: nat, m: Move)
    requires i < j < |script| && script[i].id == script[j].id == m.id && m.id !in moved
    requires (script[i].kind == Add && script[j].kind == Remove) || (script[i].kind == Remove && script[j].kind == Add)
    requires forall k :: 0 <= k < |script| && k != i && k != j ==> script[k].id != m.id
    requires m.delay == SignedDelay(script, i, j, moved)
    ensures CanMove(Current(script, moved), m)
    ensures MoveOne(Current(script, moved), m) == Current(script, moved + {m.id})
  {
    AroundPair(script, moved, i, j, m.id);
    var a, b, c := Current(script[..i], moved), Current(script[i + 1..j], moved), Current(script[j + 1..], moved);
    if script[j].kind == Remove {
      MoveBackward(a, b, m.id, c);
    } else {
      MoveForward(a, m.id, b, c);
    }
  }

  lemma PartKeepsOut(part: seq<Entry>, moved: set<int>, id: int)
    requires forall k :: 0 <= k < |part| ==> part[k].id != id
    ensures Current(part, moved + {id}) == Current(part, moved)
    ensures id !in Current(part, moved)
  {
    CurrentAgree(part, moved, moved + {id});
    CurrentMember(part, moved, id);
  }

  lemma SplitCurrent(script: seq<Entry>, moved: set<int>, i: nat, j: nat)
    requires i < j < |script|
    ensures Current(script, moved) ==
            Current(script[..i], moved) + Slot(script[i], moved) + Current(script[i + 1..j], moved)
            + Slot(script[j], moved) + Current(script[j + 1..], moved)
  {
    var a, b, c := script[..i], script[i + 1..j], script[j + 1..];
    assert script == a + [script[i]] + b + [script[j]] + c;
    CurrentConcat(a + [script[i]] + b + [script[j]], c, moved);
    CurrentSnoc(a + [script[i]] + b, script[j], moved);
    CurrentConcat(a + [script[i]], b, moved);
    CurrentSnoc(a, script[i], moved);
  }
}
