// Nodes of the edit-path tree, one per matched pair (row = observed position, column =
// clock-sorted position), and what a pruned list of candidate leaves still knows: for every
// column that can still come it answers like the full dynamic program.
module SearchNodes {
  import opened Basics
  import opened Chains

  // A node never changes once it is in the leaf list, so nodes are values; `Null` is the root.
  datatype Node = Null | ClockNode(row: int, column: int, rowDistance: int, columnDistance: int,
                                   shortestDistance: int, parent: Node)

  function Length(p: Node): nat {
    if p.Null? then 0 else 1 + Length(p.parent)
  }

  ghost predicate WellFormed(p: Node, columns: seq<int>) {
    p.Null? ||
    (&& 0 <= p.row < |columns| && columns[p.row] == p.column && 0 <= p.column
     && p.shortestDistance == p.row + p.column + 2 - Length(p)
     && WellFormed(p.parent, columns)
     && if p.parent.Null? then p.rowDistance == p.row && p.columnDistance == p.column
        else
          && 0 <= p.rowDistance == p.row - (p.parent.row + 1)
          && 0 <= p.columnDistance == p.column - (p.parent.column + 1))
  }

  ghost predicate OnPath(q: Node, p: Node) {
    q == p || (p.ClockNode? && OnPath(q, p.parent))
  }

  // Length of the chain that ends at the first node of the path left of `column`.
  function Reach(p: Node, column: int): nat {
    if p.Null? then 0 else if p.column < column then Length(p) else Reach(p.parent, column)
  }

  function LeafReach(leaves: seq<Node>, column: int): nat {
    if leaves == [] then 0
    else Max(LeafReach(leaves[..|leaves| - 1], column), Reach(leaves[|leaves| - 1], column))
  }

  // The pruned leaf list answers exactly like the full dynamic program, for every column that
  // can still come.
  ghost predicate Covers(leaves: seq<Node>, columns: seq<int>) {
    forall c: nat :: c !in columns ==> LeafReach(leaves, c) == Best(columns, c)
  }

  function Sweep(leaves: seq<Node>, start: int): seq<Node> {
    if leaves == [] then []
    else
      var last := leaves[|leaves| - 1];
      Sweep(leaves[..|leaves| - 1], start) +
      (if last.ClockNode? && last.column < start then [] else [last])
  }

  lemma {:induction false} LengthFits(p: Node, columns: seq<int>)
    requires WellFormed(p, columns) && p.ClockNode?
    ensures Length(p) <= p.row + 1 && Length(p) <= p.column + 1
  {
    if p.parent.ClockNode? {
      LengthFits(p.parent, columns);
    }
  }

  lemma {:induction false} PathStaysWellFormed(p: Node, columns: seq<int>, column: int)
    requires WellFormed(p, columns)
    ensures WellFormed(p, columns + [column])
  {
    if p.ClockNode? {
      PathStaysWellFormed(p.parent, columns, column);
    }
  }

  lemma {:induction false} OnPathFacts(q: Node, p: Node, columns: seq<int>, column: int)
    requires WellFormed(p, columns) && OnPath(q, p)
    ensures WellFormed(q, columns)
    ensures Reach(q, column) <= Reach(p, column)
    ensures Length(q) <= Length(p)
  {
    if q != p {
      OnPathFacts(q, p.parent, columns, column);
      ReachBelowLength(p.parent, column);
    }
  }

  lemma {:induction false} ReachBelowLength(p: Node, column: int)
    ensures Reach(p, column) <= Length(p)
  {
    if p.ClockNode? {
      ReachBelowLength(p.parent, column);
    }
  }

  lemma {:induction false} LeafReachConcat(a: seq<Node>, b: seq<Node>, column: int)
    ensures LeafReach(a + b, column) == Max(LeafReach(a, column), LeafReach(b, column))
  {
    if b == [] {
      assert a + b == a;
    } else {
      assert (a + b)[..|a + b| - 1] == a + b[..|b| - 1];
      LeafReachConcat(a, b[..|b| - 1], column);
    }
  }

  lemma {:induction false} LeafReachMember(leaves: seq<Node>, k: nat, column: int)
    requires k < |leaves|
    ensures Reach(leaves[k], column) <= LeafReach(leaves, column)
  {
    if k < |leaves| - 1 {
      LeafReachMember(leaves[..|leaves| - 1], k, column);
    }
  }

  lemma LeafReachSnoc(leaves: seq<Node>, last: Node, column: int)
    ensures LeafReach(leaves + [last], column) == Max(LeafReach(leaves, column), Reach(last, column))
  {
    assert (leaves + [last])[..|leaves|] == leaves;
  }

  // Sweeping loses nothing, as long as some kept leaf reaches as far as every leaf that goes.
  lemma {:induction false} SweepKeepsReach(leaves: seq<Node>, start: int, column: int, far: nat)
    requires forall k :: 0 <= k < |leaves| && leaves[k].ClockNode? && leaves[k].column < start ==>
      Length(leaves[k]) <= far
    ensures LeafReach(Sweep(leaves, start), column) <= LeafReach(leaves, column)
    ensures LeafReach(leaves, column) <= Max(LeafReach(Sweep(leaves, start), column), far)
  {
    if leaves != [] {
      var init, last := leaves[..|leaves| - 1], leaves[|leaves| - 1];
      SweepKeepsReach(init, start, column, far);
      if last.ClockNode? && last.column < start {
        assert Sweep(leaves, start) == Sweep(init, start);
        ReachBelowLength(last, column);
      } else {
        LeafReachSnoc(Sweep(init, start), last, column);
      }
    }
  }

  lemma {:induction false} SweepMembers(leaves: seq<Node>, start: int)
    ensures forall x :: x in Sweep(leaves, start) ==> x in leaves
  {
    if leaves != [] {
      SweepMembers(leaves[..|leaves| - 1], start);
    }
  }

  // Dropping a leaf changes nothing once its whole path hangs below another leaf.
  lemma LeafReachDrop(leaves: seq<Node>, k: nat, column: int)
    requires k < |leaves|
    ensures LeafReach(leaves, column) ==
            Max(LeafReach(leaves[..k] + leaves[k + 1..], column), Reach(leaves[k], column))
  {
    LeafReachConcat(leaves[..k], leaves[k + 1..], column);
    LeafReachSnoc(leaves[..k], leaves[k], column);
    LeafReachConcat(leaves[..k] + [leaves[k]], leaves[k + 1..], column);
    assert leaves[..k] + [leaves[k]] + leaves[k + 1..] == leaves;
  }

  lemma BestSnoc(columns: seq<int>, column: int, bound: int)
    ensures Best(columns + [column], bound) ==
            if column < bound then Max(Best(columns, bound), 1 + Best(columns, column)) else Best(columns, bound)
  {
    assert (columns + [column])[..|columns|] == columns;
  }

  // Reach of the leaf list once `added` hangs below `parent`, itself dropped if it was a leaf.
  lemma ReachAfterAdd(leaves: seq<Node>, kept: seq<Node>, added: Node, k: nat, column: int)
    requires added.ClockNode? && Length(added.parent) == LeafReach(leaves, added.column)
    requires added.parent.ClockNode? ==> added.parent.column < added.column
    requires Reach(added.parent, column) <= LeafReach(leaves, column)
    requires kept == leaves || (k < |leaves| && leaves[k] == added.parent && kept == leaves[..k] + leaves[k + 1..])
    ensures LeafReach(kept + [added], column) ==
            if added.column < column then Max(LeafReach(leaves, column), 1 + LeafReach(leaves, added.column))
            else LeafReach(leaves, column)
  {
    LeafReachSnoc(kept, added, column);
    if kept != leaves {
      LeafReachDrop(leaves, k, column);
    }
  }

  lemma CoverAfterAdd(columns: seq<int>, leaves: seq<Node>, kept: seq<Node>, added: Node, k: nat, m: nat)
    requires Covers(leaves, columns)
    requires added.ClockNode? && 0 <= added.column && added.column !in columns
    requires Length(added.parent) == LeafReach(leaves, added.column)
    requires added.parent.ClockNode? ==>
               && added.parent.column < added.column && m < |leaves|
               && OnPath(added.parent, leaves[m]) && WellFormed(leaves[m], columns)
    requires kept == leaves || (k < |leaves| && leaves[k] == added.parent && kept == leaves[..k] + leaves[k + 1..])
    ensures Covers(kept + [added], columns + [added.column])
  {
    forall c: nat | c !in columns + [added.column]
      ensures LeafReach(kept + [added], c) == Best(columns + [added.column], c)
    {
      if added.parent.ClockNode? {
        OnPathFacts(added.parent, leaves[m], columns, c);
        LeafReachMember(leaves, m, c);
      }
      ReachAfterAdd(leaves, kept, added, k, c);
      BestSnoc(columns, added.column, c);
    }
  }

  lemma CoverAfterSweep(columns: seq<int>, leaves: seq<Node>, added: Node)
    requires Covers(leaves + [added], columns) && added.ClockNode?
    requires forall c: nat :: c < added.column ==> c in columns
    requires forall x :: x in leaves && x.ClockNode? && x.column < added.column ==> Length(x) <= Length(added)
    requires added.column in columns
    ensures Covers(Sweep(leaves + [added], added.column), columns)
    ensures Sweep(leaves + [added], added.column) == Sweep(leaves, added.column) + [added]
  {
    assert (leaves + [added])[..|leaves + [added]| - 1] == leaves;
    var swept := Sweep(leaves + [added], added.column);
    assert swept == Sweep(leaves, added.column) + [added];
    forall c: nat | c !in columns ensures LeafReach(swept, c) == Best(columns, c) {
      assert c > added.column;
      SweepKeepsReach(leaves + [added], added.column, c, Length(added));
      LeafReachMember(swept, |swept| - 1, c);
      assert swept[|swept| - 1] == added;
    }
  }

  ghost predicate GoodLeaves(leaves: seq<Node>, columns: seq<int>) {
    forall x :: x in leaves ==> x.ClockNode? && WellFormed(x, columns)
  }

  ghost predicate ValidLeaves(leaves: seq<Node>, columns: seq<int>) {
    GoodLeaves(leaves, columns) && Covers(leaves, columns)
  }

  lemma LeavesStayGood(leaves: seq<Node>, columns: seq<int>, column: int)
    requires GoodLeaves(leaves, columns)
    ensures GoodLeaves(leaves, columns + [column])
  {
    forall x | x in leaves ensures WellFormed(x, columns + [column]) {
      PathStaysWellFormed(x, columns, column);
    }
  }

  lemma ShorterLeaves(leaves: seq<Node>, column: int, far: nat)
    requires LeafReach(leaves, column) <= far
    ensures forall x :: x in leaves && x.ClockNode? && x.column < column ==> Length(x) <= far
  {
    forall x | x in leaves && x.ClockNode? && x.column < column ensures Length(x) <= far {
      var m :| 0 <= m < |leaves| && leaves[m] == x;
      LeafReachMember(leaves, m, column);
    }
  }

  // What FindParent establishes about the parent of a new node.
  ghost predicate BestParent(leaves: seq<Node>, columns: seq<int>, column: int, parent: Node, below: nat) {
    && Length(parent) == LeafReach(leaves, column)
    && (parent.ClockNode? ==> parent.column < column && below < |leaves| && OnPath(parent, leaves[below]))
  }

  ghost predicate Dropped(leaves: seq<Node>, kept: seq<Node>, parent: Node, k: nat) {
    kept == leaves || (k < |leaves| && leaves[k] == parent && kept == leaves[..k] + leaves[k + 1..])
  }

  lemma AddStep(leaves: seq<Node>, columns: seq<int>, kept: seq<Node>, added: Node, k: nat, m: nat)
    requires ValidLeaves(leaves, columns)
    requires added.ClockNode? && Dropped(leaves, kept, added.parent, k)
    requires added.row == |columns| && 0 <= added.column && added.column !in columns
    requires BestParent(leaves, columns, added.column, added.parent, m)
    requires WellFormed(added, columns + [added.column])
    ensures ValidLeaves(kept + [added], columns + [added.column])
  {
    if added.parent.ClockNode? {
      assert leaves[m] in leaves;
    }
    CoverAfterAdd(columns, leaves, kept, added, k, m);
    LeavesStayGood(leaves, columns, added.column);
  }

  lemma SweepStep(leaves: seq<Node>, columns: seq<int>, kept: seq<Node>, added: Node, k: nat)
    requires added.ClockNode? && Dropped(leaves, kept, added.parent, k)
    requires Length(added.parent) == LeafReach(leaves, added.column)
    requires added.column in columns && forall c: nat :: c < added.column ==> c in columns
    requires ValidLeaves(kept + [added], columns)
    ensures ValidLeaves(Sweep(kept + [added], added.column), columns)
    ensures Sweep(kept + [added], added.column) == Sweep(kept, added.column) + [added]
  {
    ShorterLeaves(leaves, added.column, Length(added));
    assert forall x :: x in kept ==> x in leaves;
    CoverAfterSweep(columns, kept, added);
    SweepMembers(kept + [added], added.column);
  }

  // The new node is well formed when its distances are taken from its best parent.
  lemma NewNodeWellFormed(columns: seq<int>, added: Node)
    requires added.ClockNode? && added.row == |columns| && 0 <= added.column
    requires WellFormed(added.parent, columns)
    requires added.shortestDistance == added.row + added.column + 2 - Length(added)
    requires if added.parent.Null? then added.rowDistance == added.row && added.columnDistance == added.column
             else
               && added.parent.column < added.column
               && added.rowDistance == added.row - (added.parent.row + 1)
               && added.columnDistance == added.column - (added.parent.column + 1)
    ensures WellFormed(added, columns + [added.column])
  {
    PathStaysWellFormed(added.parent, columns, added.column);
  }

  lemma {:induction false} OnPathStep(node: Node, p: Node)
    requires node.ClockNode? && OnPath(node, p)
    ensures OnPath(node.parent, p)
  {
    if node != p {
      OnPathStep(node, p.parent);
    } else {
      assert OnPath(node.parent, p.parent);
    }
  }
}
