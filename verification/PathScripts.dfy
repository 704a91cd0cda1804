// The edit script a tree path stands for: chain nodes stay (IGNORE), skipped columns are
// REMOVEd, skipped rows are ADDed.
module PathScripts {
  import opened SearchNodes
  import opened EditScripts

  function Rev(s: seq<Entry>): (r: seq<Entry>)
    ensures |r| == |s|
  {
    seq(|s|, i requires 0 <= i < |s| => s[|s| - 1 - i])
  }

  lemma RevSnoc(s: seq<Entry>, e: Entry)
    ensures Rev(s + [e]) == [e] + Rev(s)
  {
  }

  function AddRun(labels: seq<int>, from: nat, n: nat): (r: seq<Entry>)
    requires from + n <= |labels|
    ensures |r| == n
  {
    seq(n, k requires 0 <= k < n => Entry(labels[from + k], Add))
  }

  function RemoveRun(from: int, n: nat): (r: seq<Entry>)
    ensures |r| == n
  {
    seq(n, k => Entry(from + k, Remove))
  }

  // Rows, columns and distances fit together; rows above the last one have a label.
  predicate RowFits(p: Node, rows: nat) {
    p.Null? ||
    (&& 0 <= p.rowDistance <= p.row <= rows && 0 <= p.columnDistance
     && RowFits(p.parent, rows))
  }

  // `labels[r]` is what an ADD of row r carries.
  function Script(p: Node, labels: seq<int>): seq<Entry>
    requires RowFits(p, |labels|)
  {
    if p.Null? then []
    else
      Script(p.parent, labels) + AddRun(labels, p.row - p.rowDistance, p.rowDistance)
      + RemoveRun(p.column - p.columnDistance, p.columnDistance) + [Entry(p.column, Ignore)]
  }

  function WithLabels(script: seq<Entry>, labels: seq<int>): (r: seq<Entry>)
    requires forall k :: 0 <= k < |script| && script[k].kind == Add ==> 0 <= script[k].id < |labels|
    ensures |r| == |script|
  {
    seq(|script|, k requires 0 <= k < |script| =>
      if script[k].kind == Add then Entry(labels[script[k].id], Add) else script[k])
  }

  lemma {:induction false} WellFormedFits(p: Node, columns: seq<int>, rows: nat)
    requires WellFormed(p, columns) && |columns| <= rows + 1
    ensures RowFits(p, rows)
  {
    if p.ClockNode? {
      WellFormedFits(p.parent, columns, rows);
    }
  }

  lemma {:induction false} RelabelScript(p: Node, labels: seq<int>)
    requires RowFits(p, |labels|)
    ensures var raw := Script(p, Iota(|labels|));
      && (forall k :: 0 <= k < |raw| && raw[k].kind == Add ==> 0 <= raw[k].id < |labels|)
      && WithLabels(raw, labels) == Script(p, labels)
  {
    if p.ClockNode? {
      RelabelScript(p.parent, labels);
    }
  }

  // ---------------------------------------------------------------- reading a path script

  lemma {:induction false} AllPresent(script: seq<Entry>, moved: set<int>)
    requires forall k :: 0 <= k < |script| ==> Present(script[k], moved)
    ensures |Current(script, moved)| == |script|
    ensures forall k :: 0 <= k < |script| ==> Current(script, moved)[k] == script[k].id
  {
    if script != [] {
      AllPresent(script[..|script| - 1], moved);
    }
  }

  lemma {:induction false} NonePresent(script: seq<Entry>, moved: set<int>)
    requires forall k :: 0 <= k < |script| ==> !Present(script[k], moved)
    ensures Current(script, moved) == []
  {
    if script != [] {
      NonePresent(script[..|script| - 1], moved);
    }
  }

  lemma FourParts(a: seq<Entry>, b: seq<Entry>, c: seq<Entry>, e: Entry, moved: set<int>)
    requires e.kind == Ignore
    ensures Current(a + b + c + [e], moved) ==
            Current(a, moved) + Current(b, moved) + Current(c, moved) + [e.id]
  {
    hide Current;
    CurrentSnoc(a + b + c, e, moved);
    CurrentConcat(a + b, c, moved);
    CurrentConcat(a, b, moved);
  }

  // What a node adds on top of its parent: its columns before the moves, its rows after them.
  lemma NodeReads(p: Node, labels: seq<int>, moved: set<int>)
    requires p.ClockNode? && RowFits(p, |labels|)
    ensures Current(Script(p, labels), moved) ==
            Current(Script(p.parent, labels), moved)
            + Current(AddRun(labels, p.row - p.rowDistance, p.rowDistance), moved)
            + Current(RemoveRun(p.column - p.columnDistance, p.columnDistance), moved)
            + [p.column]
  {
    hide Current, AddRun, RemoveRun;
    var a, b := Script(p.parent, labels), AddRun(labels, p.row - p.rowDistance, p.rowDistance);
    var c := RemoveRun(p.column - p.columnDistance, p.columnDistance);
    FourParts(a, b, c, Entry(p.column, Ignore), moved);
  }

  ghost predicate AllIn(s: seq<int>, all: set<int>) {
    forall k :: 0 <= k < |s| ==> s[k] in all
  }

  ghost predicate BelowIn(n: int, all: set<int>) {
    forall k :: 0 <= k < n ==> k in all
  }

  // Before any move the columns of a run are there and its rows are not; after all moves it is
  // the other way round.
  lemma RemoveRunReads(from: nat, n: nat, column: int, none: set<int>)
    requires column == from + n && none == {}
    ensures Iota(from) + [] + Current(RemoveRun(from, n), none) + [column] == Iota(column + 1)
  {
    AllPresent(RemoveRun(from, n), none);
  }

  lemma AddRunGone(labels: seq<int>, from: nat, n: nat, none: set<int>)
    requires from + n <= |labels| && none == {}
    ensures Current(AddRun(labels, from, n), none) == []
  {
    NonePresent(AddRun(labels, from, n), none);
  }

  lemma AddRunReads(columns: seq<int>, labels: seq<int>, from: nat, n: nat, row: nat, column: int, all: set<int>)
    requires row == from + n && labels <= columns && row <= |labels| && row < |columns| && columns[row] == column
    requires AllIn(labels, all)
    ensures columns[..from] + Current(AddRun(labels, from, n), all) + [] + [column] == columns[..row + 1]
  {
    AllPresent(AddRun(labels, from, n), all);
  }

  lemma RemoveRunGone(from: int, n: nat, column: int, all: set<int>)
    requires 0 <= from && from + n == column && BelowIn(column, all)
    ensures Current(RemoveRun(from, n), all) == []
  {
    NonePresent(RemoveRun(from, n), all);
  }

  lemma Glue(whole: seq<int>, above: seq<int>, rows: seq<int>, columns: seq<int>, column: int,
             above': seq<int>, rows': seq<int>, columns': seq<int>, total: seq<int>)
    requires whole == above + rows + columns + [column]
    requires above == above'
    requires rows == rows'
    requires columns == columns'
    requires above' + rows' + columns' + [column] == total
    ensures whole == total
  {
  }

  lemma SortedStep(p: Node, labels: seq<int>, none: set<int>)
    requires none == {}
    requires p.ClockNode? && RowFits(p, |labels|) && 0 <= p.column - p.columnDistance
    requires Current(Script(p.parent, labels), none) == Iota(p.column - p.columnDistance)
    ensures Current(Script(p, labels), none) == Iota(p.column + 1)
  {
    hide Current, Script, AddRun, RemoveRun;
    var row, column := p.row - p.rowDistance, p.column - p.columnDistance;
    var rows, columns :=
      Current(AddRun(labels, row, p.rowDistance), none), Current(RemoveRun(column, p.columnDistance), none);
    AddRunGone(labels, row, p.rowDistance, none);
    RemoveRunReads(column, p.columnDistance, p.column, none);
    NodeReads(p, labels, none);
    Glue(Current(Script(p, labels), none), Current(Script(p.parent, labels), none), rows, columns, p.column,
         Iota(column), [], columns, Iota(p.column + 1));
  }

  // Before any move a path script reads 0, 1, ..., p.column.
  lemma {:induction false} ReadsSorted(p: Node, columns: seq<int>, labels: seq<int>, none: set<int>)
    requires WellFormed(p, columns) && RowFits(p, |labels|) && none == {}
    ensures Current(Script(p, labels), none) == if p.Null? then [] else Iota(p.column + 1)
  {
    if p.ClockNode? {
      ReadsSorted(p.parent, columns, labels, none);
      assert p.parent.Null? ==> Iota(p.column - p.columnDistance) == [];
      SortedStep(p, labels, none);
    }
  }

  lemma ObservedStep(p: Node, labels: seq<int>, all: set<int>, first: seq<int>, total: seq<int>)
    requires p.ClockNode? && RowFits(p, |labels|) && p.columnDistance <= p.column && BelowIn(p.column, all)
    requires Current(Script(p.parent, labels), all) == first
    requires first + Current(AddRun(labels, p.row - p.rowDistance, p.rowDistance), all) + [] + [p.column] == total
    ensures Current(Script(p, labels), all) == total
  {
    hide Current, Script, AddRun, RemoveRun;
    var row, column := p.row - p.rowDistance, p.column - p.columnDistance;
    var rows, gone :=
      Current(AddRun(labels, row, p.rowDistance), all), Current(RemoveRun(column, p.columnDistance), all);
    var whole := Current(Script(p, labels), all);
    assert whole == first + rows + gone + [p.column] by {
      NodeReads(p, labels, all);
    }
    RemoveRunGone(column, p.columnDistance, p.column, all);
    Glue(whole, first, rows, gone, p.column, first, rows, [], total);
  }

  // After all moves it reads the observed columns.
  lemma {:induction false} ReadsObserved(p: Node, columns: seq<int>, labels: seq<int>, all: set<int>)
    requires WellFormed(p, columns) && RowFits(p, |labels|) && labels <= columns
    requires AllIn(labels, all) && (p.ClockNode? ==> BelowIn(p.column, all))
    ensures Current(Script(p, labels), all) == if p.Null? then [] else columns[..p.row + 1]
  {
    if p.ClockNode? {
      ReadsObserved(p.parent, columns, labels, all);
      var row := p.row - p.rowDistance;
      assert p.parent.Null? ==> columns[..row] == [];
      AddRunReads(columns, labels, row, p.rowDistance, p.row, p.column, all);
      ObservedStep(p, labels, all, columns[..row], columns[..p.row + 1]);
    }
  }
}
