// The incremental search behind clock delta compression: a list of candidate leaves, pruned by
// erasing parents and by sweeping leaves left of the start column.
// Models class shortest_edit_distance_path_search of rempi_clock_delta_compression.cpp.
module PathSearch {
  import opened Chains
  import opened SearchNodes
  import opened EditScripts
  import opened PathScripts

  class ShortestEditDistancePathSearch {
    var leafList: seq<Node>
    ghost var columns: seq<int>  // the column matched by each row so far

    ghost predicate Valid()
      reads this
    {
      ValidLeaves(leafList, columns)
    }

    constructor ()
      ensures Valid() && columns == [] && leafList == []
    {
      leafList, columns := [], [];
    }

    // First node at or above `searchNode` that lies strictly up and left of the new one; the
    // distance to it, or -1 and no parent.
    static method FindShortestNode(row: int, column: int, searchNode: Node, ghost columns: seq<int>)
      returns (distance: int, parent: Node)
      requires WellFormed(searchNode, columns) && row == |columns| && column !in columns
      ensures OnPath(parent, searchNode) || parent.Null?
      ensures parent.Null? <==> distance < 0
      ensures Length(parent) == Reach(searchNode, column)
      ensures parent.ClockNode? ==> parent.column < column && distance == row + column - Length(parent)
    {
      var node := searchNode;
      while node.ClockNode?
        invariant WellFormed(node, columns)
        invariant OnPath(node, searchNode)
        invariant Reach(node, column) == Reach(searchNode, column)
        decreases node
      {
        var rowDistance := row - (node.row + 1);
        var columnDistance := column - (node.column + 1);
        if rowDistance >= 0 && columnDistance >= 0 {
          LengthFits(node, columns);
          return node.shortestDistance + rowDistance + columnDistance, node;
        }
        OnPathStep(node, searchNode);
        node := node.parent;
      }
      return -1, Null;
    }

    method SweepNonCandidateLeaf(start: int)
      modifies this`leafList
      requires forall x :: x in leafList ==> x.ClockNode?
      ensures leafList == Sweep(old(leafList), start)
    {
      var i := 0;
      ghost var done := 0;
      while i < |leafList|
        invariant 0 <= i <= |leafList| && 0 <= done <= |old(leafList)|
        invariant leafList[..i] == Sweep(old(leafList)[..done], start)
        invariant leafList[i..] == old(leafList)[done..]
        decreases |leafList| - i
      {
        assert leafList[i] == leafList[i..][0] == old(leafList)[done];
        assert old(leafList)[..done + 1][..done] == old(leafList)[..done];
        assert old(leafList)[done..][1..] == old(leafList)[done + 1..];
        if leafList[i].column < start {
          leafList := leafList[..i] + leafList[i + 1..];
        } else {
          assert leafList[..i + 1] == leafList[..i] + [leafList[i]];
          i := i + 1;
        }
        done := done + 1;
      }
      assert leafList[..i] == leafList && old(leafList)[..done] == old(leafList);
    }

    // Best parent over all candidate leaves, with the leaf to erase if the parent is one.
    method FindParent(row: int, column: int)
      returns (distance: int, parent: Node, shortestLeaf: nat, needErase: bool, ghost below: nat)
      requires Valid() && row == |columns| && column !in columns
      ensures BestParent(leafList, columns, column, parent, below)
      ensures WellFormed(parent, columns)
      ensures parent.ClockNode? ==> distance == row + column - Length(parent)
      ensures parent.Null? ==> !needErase
      ensures needErase ==> shortestLeaf < |leafList| && leafList[shortestLeaf] == parent
    {
      distance, parent := row + column + 1, Null;
      shortestLeaf, needErase, below := 0, false, 0;
      for i := 0 to |leafList|
        invariant Length(parent) == LeafReach(leafList[..i], column)
        invariant parent.ClockNode? ==>
            && parent.column < column && distance == row + column - Length(parent)
            && below < i && OnPath(parent, leafList[below])
        invariant WellFormed(parent, columns)
        invariant parent.Null? ==> distance == row + column + 1 && !needErase
        invariant needErase ==> shortestLeaf < i && leafList[shortestLeaf] == parent
      {
        assert leafList[i] in leafList;
        assert leafList[..i + 1] == leafList[..i] + [leafList[i]];
        LeafReachSnoc(leafList[..i], leafList[i], column);
        var found, node := FindShortestNode(row, column, leafList[i], columns);
        if found >= 0 && found < distance {
          OnPathFacts(node, leafList[i], columns, column);
          distance, parent, below := found, node, i;
          if leafList[i] == node {
            shortestLeaf, needErase := i, true;
          } else {
            needErase := false;
          }
        }
      }
      assert leafList[..|leafList|] == leafList;
    }

    // The new leaf ends a longest chain: its distance is the one the plain dynamic program
    // gives, although only the pruned leaf list is searched.
    method AddNode(row: int, column: int, currentColumnOfStartIt: int)
      requires Valid() && row == |columns| && column !in columns
      requires 0 <= currentColumnOfStartIt <= column
      requires forall c: nat :: c < currentColumnOfStartIt ==> c in columns
      modifies this
      ensures Valid() && columns == old(columns) + [column]
      ensures |leafList| > 0
      ensures var leaf := leafList[|leafList| - 1];
        && leaf.ClockNode? && leaf.row == row && leaf.column == column
        && Length(leaf) == 1 + Best(old(columns), column)
        && leaf.shortestDistance == row + column + 2 - Length(leaf)
    {
      var distance, parent, shortestLeaf, needErase, below := FindParent(row, column);
      var rowDistance, columnDistance, shortestDistance := row, column, row + column + 1;
      if parent.ClockNode? {
        rowDistance := row - (parent.row + 1);
        columnDistance := column - (parent.column + 1);
        shortestDistance := distance + 1;
      }
      var newNode := ClockNode(row, column, rowDistance, columnDistance, shortestDistance, parent);
      NewNodeWellFormed(columns, newNode);
      ghost var leaves := leafList;
      if needErase {
        leafList := leafList[..shortestLeaf] + leafList[shortestLeaf + 1..];
      }
      ghost var kept := leafList;
      AddStep(leaves, columns, kept, newNode, shortestLeaf, below);
      columns := columns + [column];
      leafList := leafList + [newNode];
      if column == currentColumnOfStartIt {
        SweepStep(leaves, columns, kept, newNode, shortestLeaf);
        SweepNonCandidateLeaf(currentColumnOfStartIt);
      }
    }

    // Walks from the last leaf to the root and lists the edit script backwards, without the
    // entry of the bottom-right node itself.
    method ConvertToDiffReversed(ghost rows: nat) returns (diff: seq<Entry>)
      requires Valid() && |leafList| > 0 && |columns| <= rows + 1
      ensures RowFits(leafList[|leafList| - 1], rows)
      ensures Rev(diff) + [Entry(leafList[|leafList| - 1].column, Ignore)]
        == Script(leafList[|leafList| - 1], Iota(rows))
    {
      ghost var leaf := leafList[|leafList| - 1];
      assert leaf in leafList;
      WellFormedFits(leaf, columns, rows);
      ghost var labels := Iota(rows);
      diff := [];
      var node := leafList[|leafList| - 1];
      while node.ClockNode?
        invariant RowFits(node, rows)
        invariant Script(leaf, labels) == Script(node, labels) + Rev(diff)
        invariant node == leaf ==> diff == []
        invariant node != leaf ==> |diff| > 0 && diff[0] == Entry(leaf.column, Ignore)
        decreases node
      {
        diff := NodeEntries(node, diff, labels, Script(leaf, labels));
        node := node.parent;
      }
      RevFirst(diff);
      diff := diff[1..];
    }

    static method NodeEntries(node: Node, before: seq<Entry>, ghost labels: seq<int>, ghost whole: seq<Entry>)
      returns (diff: seq<Entry>)
      requires node.ClockNode? && labels == Iota(|labels|) && RowFits(node, |labels|)
      requires whole == Script(node, labels) + Rev(before)
      ensures whole == Script(node.parent, labels) + Rev(diff)
      ensures before + [Entry(node.column, Ignore)] <= diff
    {
      ghost var above := Script(node.parent, labels);
      ghost var adds := AddRun(labels, node.row - node.rowDistance, node.rowDistance);
      RevSnoc(before, Entry(node.column, Ignore));
      diff := before + [Entry(node.column, Ignore)];
      diff := PushRemoves(node, diff, above + adds, whole);
      diff := PushAdds(node, diff, above, labels, whole);
    }

    static method PushRemoves(node: Node, before: seq<Entry>, ghost front: seq<Entry>, ghost whole: seq<Entry>)
      returns (diff: seq<Entry>)
      requires node.ClockNode? && 0 <= node.columnDistance
      requires whole == front + RemoveRun(node.column - node.columnDistance, node.columnDistance) + Rev(before)
      ensures whole == front + Rev(diff) && before <= diff
    {
      ghost var run := RemoveRun(node.column - node.columnDistance, node.columnDistance);
      assert run[..node.columnDistance] == run;
      diff := before;
      for column := 0 to node.columnDistance
        invariant whole == front + run[..node.columnDistance - column] + Rev(diff)
        invariant before <= diff
      {
        var upIndex := node.column - 1 - column;
        LastToRev(front, run, node.columnDistance - column, diff);
        diff := diff + [Entry(upIndex, Remove)];
      }
      assert front + run[..0] == front;
    }

    static method PushAdds(node: Node, before: seq<Entry>, ghost front: seq<Entry>, ghost labels: seq<int>,
                           ghost whole: seq<Entry>)
      returns (diff: seq<Entry>)
      requires node.ClockNode? && labels == Iota(|labels|) && RowFits(node, |labels|)
      requires whole == front + AddRun(labels, node.row - node.rowDistance, node.rowDistance) + Rev(before)
      ensures whole == front + Rev(diff) && before <= diff
    {
      ghost var run := AddRun(labels, node.row - node.rowDistance, node.rowDistance);
      assert run[..node.rowDistance] == run;
      diff := before;
      for row := 0 to node.rowDistance
        invariant whole == front + run[..node.rowDistance - row] + Rev(diff)
        invariant before <= diff
      {
        var leftIndex := node.row - 1 - row;
        LastToRev(front, run, node.rowDistance - row, diff);
        diff := diff + [Entry(leftIndex, Add)];
      }
      assert front + run[..0] == front;
    }
  }

  // The last entry of a run moves to the end of the reversed list.
  lemma LastToRev(front: seq<Entry>, run: seq<Entry>, n: nat, diff: seq<Entry>)
    requires 0 < n <= |run|
    ensures front + run[..n] + Rev(diff) == front + run[..n - 1] + Rev(diff + [run[n - 1]])
  {
    RevSnoc(diff, run[n - 1]);
    assert run[..n] == run[..n - 1] + [run[n - 1]];
  }

  lemma RevFirst(diff: seq<Entry>)
    requires |diff| > 0
    ensures Rev(diff) == Rev(diff[1..]) + [diff[0]]
  {
  }
}
