// rempi_clock_delta_compression::compress: cursor search over the clock-sorted events, the edit
// path search, and the moves that record the observed order.
module ClockDelta {
  import opened Basics
  import opened Chains
  import opened SearchNodes
  import opened EditScripts
  import opened PathScripts
  import opened DiffBinary
  import opened PathSearch

  // `observed` is a reordering of the clock orders `clocked`, which are sorted.
  ghost predicate Reorders(clocked: seq<int>, observed: seq<int>) {
    && |observed| == |clocked|
    && (forall i, j :: 0 <= i < j < |clocked| ==> clocked[i] < clocked[j])
    && (forall i :: 0 <= i < |observed| ==> observed[i] in clocked)
    && (forall i :: 0 <= i < |clocked| ==> clocked[i] in observed)
    && Distinct(observed)
  }

  // The column (position in clock order) of each observed event.
  function Columns(clocked: seq<int>, observed: seq<int>): (columns: seq<int>)
    requires forall i :: 0 <= i < |observed| ==> observed[i] in clocked
    ensures |columns| == |observed|
  {
    seq(|observed|, i requires 0 <= i < |observed| => IndexOf(clocked, observed[i]))
  }

  lemma ColumnsFacts(clocked: seq<int>, observed: seq<int>)
    requires Reorders(clocked, observed)
    ensures var columns := Columns(clocked, observed);
      && Distinct(columns)
      && forall i :: 0 <= i < |columns| ==> 0 <= columns[i] < |clocked| && clocked[columns[i]] == observed[i]
  {
  }

  lemma ColumnIs(clocked: seq<int>, x: int, k: nat)
    requires forall i, j :: 0 <= i < j < |clocked| ==> clocked[i] < clocked[j]
    requires k < |clocked| && clocked[k] == x
    ensures IndexOf(clocked, x) == k
  {
    IndexOfUnique(clocked, k);
  }

  // ---------------------------------------------------------------- the two cursors

  // Bits say which columns are matched; the start column is the least unmatched one.
  ghost predicate Cursors(matchedBits: seq<bool>, columns: seq<int>, start: nat) {
    && start <= |matchedBits|
    && (forall c :: 0 <= c < |matchedBits| ==> (matchedBits[c] <==> c in columns))
    && (forall c :: 0 <= c < start ==> matchedBits[c])
    && (start < |matchedBits| ==> !matchedBits[start])
  }

  method NextStartSearchIt(upClock: int, leftClock: int, searchIt: nat, startIt: nat,
                           columnOfSearchIt: int, columnOfStartIt: int)
    returns (it: nat, column: int)
    ensures if upClock > leftClock || columnOfSearchIt == -1 then it == startIt && column == columnOfStartIt
            else it == searchIt + 1 && column == columnOfSearchIt + 1
  {
    if upClock > leftClock || columnOfSearchIt == -1 {
      return startIt, columnOfStartIt;
    }
    return searchIt + 1, columnOfSearchIt + 1;
  }

  // Walks right to the event with this clock order; -1 if it runs off the end.
  method FindMatchedClockColumn(clocked: seq<int>, left: int, searchIt: nat) returns (it: nat, traversed: int)
    requires searchIt <= |clocked|
    ensures traversed == -1 ==> left !in clocked[searchIt..]
    ensures traversed != -1 ==>
      && 0 <= traversed && it == searchIt + traversed < |clocked| && clocked[it] == left
  {
    it, traversed := searchIt, 0;
    while it < |clocked|
      invariant searchIt <= it <= |clocked| && traversed == it - searchIt
      invariant forall k :: searchIt <= k < it ==> clocked[k] != left
    {
      if clocked[it] == left {
        return;
      }
      it, traversed := it + 1, traversed + 1;
    }
    traversed := -1;
  }

  // The source tests matched_bits one past the end once every column is matched; the loop here
  // stops at the end instead.
  method UpdateStartIt(columnOfStartIt: nat, matchedColumn: nat, matchedBits: array<bool>, startIt: nat,
                       ghost columns: seq<int>)
    returns (column: nat, it: nat)
    requires matchedColumn < matchedBits.Length && startIt == columnOfStartIt
    requires Cursors(matchedBits[..], columns, columnOfStartIt)
    modifies matchedBits
    ensures Cursors(matchedBits[..], columns + [matchedColumn], column) && it == column
  {
    matchedBits[matchedColumn] := true;
    column, it := columnOfStartIt, startIt;
    var i := columnOfStartIt;
    while i < matchedBits.Length && matchedBits[i]
      invariant i == column == it <= matchedBits.Length
      invariant forall c :: 0 <= c < i ==> matchedBits[c]
    {
      i, it, column := i + 1, it + 1, column + 1;
    }
  }

  // Where the cursor starts, the wanted column is never behind it.
  lemma CursorNotPast(clocked: seq<int>, observed: seq<int>, i: nat, bits: seq<bool>, start: nat)
    requires Reorders(clocked, observed) && i < |observed|
    requires |bits| == |clocked| && Cursors(bits, Columns(clocked, observed)[..i], start)
    ensures start <= Columns(clocked, observed)[i]
    ensures i > 0 && clocked[Columns(clocked, observed)[i - 1]] <= observed[i] ==>
              Columns(clocked, observed)[i - 1] + 1 <= Columns(clocked, observed)[i]
    ensures Columns(clocked, observed)[i] !in Columns(clocked, observed)[..i]
  {
    ColumnsFacts(clocked, observed);
    var columns := Columns(clocked, observed);
    assert columns[i] !in columns[..i];
  }

  // One observed event: the cursor search finds its column.
  method MatchColumn(clocked: seq<int>, observed: seq<int>, i: nat, searchIt: nat, startIt: nat,
                     columnOfSearchIt: int, columnOfStartIt: nat, ghost bits: seq<bool>)
    returns (it: nat, column: int)
    requires Reorders(clocked, observed) && i < |observed|
    requires |bits| == |clocked| && Cursors(bits, Columns(clocked, observed)[..i], columnOfStartIt)
    requires startIt == columnOfStartIt && searchIt < |clocked|
    requires if i == 0 then columnOfSearchIt == -1
             else columnOfSearchIt == searchIt == Columns(clocked, observed)[i - 1]
    ensures it == column == Columns(clocked, observed)[i]
  {
    CursorNotPast(clocked, observed, i, bits, columnOfStartIt);
    ColumnsFacts(clocked, observed);
    ghost var wanted := Columns(clocked, observed)[i];
    var from, base :=
      NextStartSearchIt(clocked[searchIt], observed[i], searchIt, startIt, columnOfSearchIt, columnOfStartIt);
    assert clocked[from..][wanted - from] == observed[i];
    var traversed;
    it, traversed := FindMatchedClockColumn(clocked, observed[i], from);
    column := base + traversed;
    ColumnIs(clocked, observed[i], it);
  }

  // ---------------------------------------------------------------- compress

  lemma {:induction false} IgnoredScript(p: Node, labels: seq<int>)
    requires RowFits(p, |labels|)
    ensures Ignored(Script(p, labels)) == Length(p)
  {
    if p.ClockNode? {
      IgnoredScript(p.parent, labels);
      var adds := AddRun(labels, p.row - p.rowDistance, p.rowDistance);
      var removes := RemoveRun(p.column - p.columnDistance, p.columnDistance);
      IgnoredConcat(Script(p.parent, labels), adds);
      IgnoredConcat(Script(p.parent, labels) + adds, removes);
      NoIgnores(adds);
      NoIgnores(removes);
    }
  }

  lemma {:induction false} IgnoredConcat(a: seq<Entry>, b: seq<Entry>)
    ensures Ignored(a + b) == Ignored(a) + Ignored(b)
  {
    if b == [] {
      assert a + b == a;
    } else {
      IgnoredConcat(a, b[..|b| - 1]);
      assert (a + b)[..|a + b| - 1] == a + b[..|b| - 1];
    }
  }

  lemma {:induction false} NoIgnores(s: seq<Entry>)
    requires forall k :: 0 <= k < |s| ==> s[k].kind != Ignore
    ensures Ignored(s) == 0
  {
    if s != [] {
      NoIgnores(s[..|s| - 1]);
    }
  }

  // Every entry is in the list before or after, ignored ones in both.
  lemma {:induction false} EntriesSplit(script: seq<Entry>, none: set<int>, all: set<int>)
    requires none == {} && forall k :: 0 <= k < |script| ==> script[k].id in all
    ensures |Current(script, none)| + |Current(script, all)| == |script| + Ignored(script)
  {
    if script != [] {
      EntriesSplit(script[..|script| - 1], none, all);
    }
  }

  lemma ColumnsCover(clocked: seq<int>, observed: seq<int>)
    requires Reorders(clocked, observed)
    ensures forall x :: x in Iota(|clocked|) <==> x in Columns(clocked, observed)
  {
    ColumnsFacts(clocked, observed);
    var columns := Columns(clocked, observed);
    forall x | 0 <= x < |clocked| ensures x in columns {
      var i :| 0 <= i < |observed| && observed[i] == clocked[x];
      ColumnIs(clocked, observed[i], x);
      assert columns[i] == x;
    }
    forall x | x in Iota(|clocked|) ensures x in columns {
      var k :| 0 <= k < |clocked| && Iota(|clocked|)[k] == x;
    }
    forall x | x in columns ensures x in Iota(|clocked|) {
      assert Iota(|clocked|)[x] == x;
    }
  }

  // `script` is the path script of the bottom-right leaf, without that leaf's own entry.
  ghost predicate LeafScript(script: seq<Entry>, leaf: Node, columns: seq<int>) {
    && leaf.ClockNode? && leaf.row == leaf.column == |columns|
    && WellFormed(leaf, columns + [|columns|])
    && RowFits(leaf, |columns|)
    && script + [Entry(|columns|, Ignore)] == Script(leaf, columns)
  }

  lemma LeafScriptBefore(script: seq<Entry>, leaf: Node, columns: seq<int>, none: set<int>)
    requires LeafScript(script, leaf, columns) && none == {}
    ensures Current(script, none) == Iota(|columns|)
  {
    ReadsSorted(leaf, columns + [|columns|], columns, none);
    CurrentSnoc(script, Entry(|columns|, Ignore), none);
    assert Iota(|columns| + 1)[..|columns|] == Iota(|columns|);
  }

  lemma LeafScriptAfter(script: seq<Entry>, leaf: Node, columns: seq<int>, all: set<int>)
    requires LeafScript(script, leaf, columns)
    requires forall k :: 0 <= k < |columns| ==> k in all && columns[k] in all
    ensures Current(script, all) == columns
  {
    ReadsObserved(leaf, columns + [|columns|], columns, all);
    CurrentSnoc(script, Entry(|columns|, Ignore), all);
    assert (columns + [|columns|])[..|columns| + 1] == columns + [|columns|];
  }

  lemma LeafScriptSizes(script: seq<Entry>, leaf: Node, columns: seq<int>)
    requires LeafScript(script, leaf, columns)
    ensures Ignored(script) + 1 == Length(leaf)
  {
    IgnoredScript(leaf, columns);
    assert (script + [Entry(|columns|, Ignore)])[..|script|] == script;
  }

  lemma LeafScriptTurns(script: seq<Entry>, leaf: Node, columns: seq<int>)
    requires LeafScript(script, leaf, columns) && Distinct(columns)
    requires forall x :: x in Iota(|columns|) <==> x in columns
    ensures Proper(script) && Before(script) == Iota(|columns|) && After(script) == columns
    ensures |script| + Length(leaf) == 2 * |columns| + 1
  {
    var all := Ids(script) + (set x | x in Iota(|columns|)) + (set x | x in columns);
    forall k | 0 <= k < |columns| ensures k in all && columns[k] in all {
      assert Iota(|columns|)[k] in Iota(|columns|) && columns[k] in columns;
    }
    LeafScriptBefore(script, leaf, columns, {});
    LeafScriptAfter(script, leaf, columns, all);
    CurrentAgree(script, all, Ids(script));
    ScriptIsProper(script);
    EntriesSplit(script, {}, all);
    LeafScriptSizes(script, leaf, columns);
  }

  lemma RevRelabel(diff: seq<Entry>, columns: seq<int>, whole: seq<Entry>)
    requires forall k :: 0 <= k < |whole| && whole[k].kind == Add ==> 0 <= whole[k].id < |columns|
    requires whole == Rev(diff) + [Entry(|columns|, Ignore)]
    ensures forall k :: 0 <= k < |diff| && diff[k].kind == Add ==> 0 <= diff[k].id < |columns|
    ensures WithLabels(whole, columns) == Rev(WithLabels(diff, columns)) + [Entry(|columns|, Ignore)]
  {
    forall k | 0 <= k < |diff| && diff[k].kind == Add ensures 0 <= diff[k].id < |columns| {
      assert whole[|diff| - 1 - k] == diff[k];
    }
  }

  // What holds after `i` observed events have been matched.
  ghost predicate Tracking(clocked: seq<int>, observed: seq<int>, i: nat, searched: seq<int>, bits: seq<bool>,
                           searchIt: nat, startIt: nat, columnOfSearchIt: int, columnOfStartIt: nat,
                           order: map<int, int>)
    requires Reorders(clocked, observed)
  {
    && i <= |observed| && searched == Columns(clocked, observed)[..i]
    && |bits| == |clocked| && startIt == columnOfStartIt && Cursors(bits, searched, columnOfStartIt)
    && (if i == 0 then columnOfSearchIt == -1 && searchIt == 0
        else columnOfSearchIt == searchIt == Columns(clocked, observed)[i - 1])
    && Ordered(observed, Columns(clocked, observed), i, order)
  }

  ghost predicate Ordered(observed: seq<int>, columns: seq<int>, i: nat, order: map<int, int>)
    requires i <= |observed| == |columns|
  {
    forall k :: 0 <= k < i ==> observed[k] in order && order[observed[k]] == columns[k]
  }

  method MatchNext(clocked: seq<int>, observed: seq<int>, i: nat, search: ShortestEditDistancePathSearch,
                   matchedBits: array<bool>, searchIt: nat, startIt: nat, columnOfSearchIt: int,
                   columnOfStartIt: nat, order: map<int, int>)
    returns (searchIt': nat, startIt': nat, columnOfSearchIt': int, columnOfStartIt': nat, order': map<int, int>)
    requires Reorders(clocked, observed) && search.Valid() && i < |observed|
    requires Tracking(clocked, observed, i, search.columns, matchedBits[..], searchIt, startIt, columnOfSearchIt,
      columnOfStartIt, order)
    modifies search, matchedBits
    ensures search.Valid()
    ensures Tracking(clocked, observed, i + 1, search.columns, matchedBits[..], searchIt', startIt',
      columnOfSearchIt', columnOfStartIt', order')
  {
    ColumnsFacts(clocked, observed);
    CursorNotPast(clocked, observed, i, matchedBits[..], columnOfStartIt);
    ghost var searched := search.columns;
    searchIt', columnOfSearchIt' :=
      MatchColumn(clocked, observed, i, searchIt, startIt, columnOfSearchIt, columnOfStartIt, matchedBits[..]);
    search.AddNode(i, columnOfSearchIt', columnOfStartIt);
    order' := order[clocked[searchIt'] := columnOfSearchIt'];
    columnOfStartIt', startIt' := UpdateStartIt(columnOfStartIt, columnOfSearchIt', matchedBits, startIt, searched);
    OrderedNext(observed, Columns(clocked, observed), i, order);
    assert Columns(clocked, observed)[..i + 1] == search.columns;
  }

  lemma OrderedNext(observed: seq<int>, columns: seq<int>, i: nat, order: map<int, int>)
    requires i < |observed| == |columns| && Distinct(observed) && Ordered(observed, columns, i, order)
    ensures Ordered(observed, columns, i + 1, order[observed[i] := columns[i]])
  {
  }

  lemma TrackingStart(clocked: seq<int>, observed: seq<int>, bits: seq<bool>)
    requires Reorders(clocked, observed) && |bits| == |clocked| && forall c :: 0 <= c < |bits| ==> !bits[c]
    ensures Tracking(clocked, observed, 0, [], bits, 0, 0, -1, 0, map[])
  {
  }

  lemma TrackingDone(clocked: seq<int>, observed: seq<int>, searched: seq<int>, bits: seq<bool>, searchIt: nat,
                     startIt: nat,
                     columnOfSearchIt: int, columnOfStartIt: nat, order: map<int, int>)
    requires Reorders(clocked, observed)
    requires Tracking(clocked, observed, |observed|, searched, bits, searchIt, startIt, columnOfSearchIt,
      columnOfStartIt, order)
    ensures searched == Columns(clocked, observed) && |clocked| !in searched
    ensures columnOfStartIt <= |clocked| && forall c: nat :: c < columnOfStartIt ==> c in searched
    ensures Ordered(observed, Columns(clocked, observed), |observed|, order)
  {
    ColumnsFacts(clocked, observed);
  }

  method MatchAll(clocked: seq<int>, observed: seq<int>, search: ShortestEditDistancePathSearch)
    returns (columnOfStartIt: nat, order: map<int, int>)
    requires Reorders(clocked, observed) && search.Valid() && search.columns == []
    modifies search
    ensures search.Valid()
    ensures search.columns == Columns(clocked, observed) && |clocked| !in search.columns
    ensures columnOfStartIt <= |clocked| && forall c: nat :: c < columnOfStartIt ==> c in search.columns
    ensures Ordered(observed, Columns(clocked, observed), |observed|, order)
  {
    order := map[];
    var matchedBits := new bool[|clocked|](_ => false);
    var searchIt, startIt, columnOfSearchIt := 0, 0, -1;
    columnOfStartIt := 0;
    TrackingStart(clocked, observed, matchedBits[..]);
    for i := 0 to |observed|
      invariant fresh(matchedBits) && search.Valid()
      invariant Tracking(clocked, observed, i, search.columns, matchedBits[..], searchIt, startIt,
                         columnOfSearchIt, columnOfStartIt, order)
    {
      searchIt, startIt, columnOfSearchIt, columnOfStartIt, order :=
        MatchNext(clocked, observed, i, search, matchedBits, searchIt, startIt, columnOfSearchIt, columnOfStartIt,
          order);
    }
    TrackingDone(clocked, observed, search.columns, matchedBits[..], searchIt, startIt, columnOfSearchIt,
      columnOfStartIt, order);
  }

  // The record of an observed order: moves that turn the clock-sorted order into it, as many
  // as there are events outside a longest increasing chain.
  method Compress(clocked: seq<int>, observed: seq<int>) returns (ids: seq<int>, deltas: seq<int>)
    requires Reorders(clocked, observed)
    ensures TurnsInto(Iota(|clocked|), ids, deltas, Columns(clocked, observed))
    ensures |ids| + Best(Columns(clocked, observed), |clocked|) == |clocked|
  {
    ghost var columns := Columns(clocked, observed);
    var search := new ShortestEditDistancePathSearch();
    var columnOfStartIt, mapClockToOrder := MatchAll(clocked, observed, search);
    search.AddNode(|clocked|, |clocked|, columnOfStartIt);
    ghost var leaf := search.leafList[|search.leafList| - 1];
    assert leaf in search.leafList;
    var diff := search.ConvertToDiffReversed(|clocked|);
    RelabelScript(leaf, columns);
    RevRelabel(diff, columns, Script(leaf, Iota(|clocked|)));
    diff := ChangeToSeqOrderId(diff, observed, mapClockToOrder, columns);
    ColumnsFacts(clocked, observed);
    ColumnsCover(clocked, observed);
    LeafScriptTurns(Rev(diff), leaf, columns);
    LeafScriptSizes(Rev(diff), leaf, columns);
    ids, deltas := ConvertToMoves(diff);
  }
}
