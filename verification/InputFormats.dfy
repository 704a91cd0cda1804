// Recording all matching sets of a chunk: every observed event goes to the table of its test id.
module InputFormats {
  import opened Basics
  import opened ReplayTables
  import opened ReplaySteps
  import opened TableRecorder

  // A recorder with the value of what it has collected.
  ghost predicate Holds(rec: TableRecorder, c: Collection)
    reads rec
  {
    rec.Valid() && rec.View() == c
  }

  lemma HoldsGives(rec: TableRecorder, c: Collection)
    requires Holds(rec, c)
    ensures rec.Valid() && rec.View() == c && ValidCollection(c)
  {
  }

  lemma NowHolds(rec: TableRecorder)
    requires rec.Valid()
    ensures Holds(rec, rec.View())
  {
  }

  lemma ValidGives(c: Collection)
    requires ValidCollection(c)
    ensures forall k :: 0 <= k < |c.events| ==> c.events[k].Matched?
  {
  }

  // A collected table and its layout.
  ghost predicate LaidTable(c: Collection, layout: Layout) {
    ValidCollection(c) && LaidOut(c.events, layout)
  }

  lemma LaidOutIsTable(c: Collection, layout: Layout)
    requires ValidCollection(c) && LaidOut(c.events, layout)
    ensures LaidTable(c, layout)
  {
  }

  function ObservedOf(views: map<int, Collection>, testId: int): seq<Event> {
    if testId in views then views[testId].observed else []
  }

  // What format makes of a table: the clock orders and the epoch line.
  datatype Layout = Layout(perm: seq<nat>, ranks: seq<int>, clocks: seq<int>)

  ghost predicate LaidOut(events: seq<Event>, layout: Layout)
    requires forall k :: 0 <= k < |events| ==> events[k].Matched?
  {
    && |layout.perm| == |events| && Ordered(SortByClock(Positions(events)), |events|, layout.perm)
    && EpochDrawn(SortByClock(Positions(events)), layout.ranks, layout.clocks)
  }

  ghost predicate AllCollected(views: map<int, Collection>) {
    forall id :: id in views ==> ValidCollection(views[id])
  }

  ghost predicate Fails(views: map<int, Collection>, id: int)
    requires AllCollected(views)
  {
    id in views && FormatFails(views[id].events)
  }

  class InputFormat {
    var tables: map<int, TableRecorder>
    ghost var views: map<int, Collection>

    ghost predicate Valid()
      reads this, tables.Values
    {
      && views.Keys == tables.Keys
      && (forall a, b :: a in tables && b in tables && a != b ==> tables[a] != tables[b])
      && (forall id :: id in tables ==> Holds(tables[id], views[id]))
    }

    constructor ()
      ensures Valid() && tables == map[]
    {
      tables, views := map[], map[];
    }

    // A test id that is seen for the first time gets a table.
    method Provide(testId: int)
      requires Valid()
      modifies this
      ensures Valid() && fresh(tables.Values - old(tables.Values)) && testId in tables
      ensures if testId in old(tables) then tables == old(tables) && views == old(views) else fresh(tables[testId])
      ensures views.Keys == old(views.Keys) + {testId} && ObservedOf(views, testId) == ObservedOf(old(views), testId)
      ensures forall id :: id in old(views) ==> views[id] == old(views)[id]
    {
      hide Holds, ValidCollection, TableRecorder.Valid;
      if testId !in tables {
        var table := new TableRecorder();
        NowHolds(table);
        tables, views := tables[testId := table], views[testId := table.View()];
      }
    }

    method AddTo(testId: int, event: Event)
      requires Valid() && testId in tables
      modifies this`views, tables[testId]
      ensures Valid() && views == old(views)[testId := views[testId]]
      ensures views[testId].observed == old(views)[testId].observed + [event]
    {
      hide Holds, ValidCollection, TableRecorder.Valid;
      var table := tables[testId];
      HoldsGives(table, views[testId]);
      table.Add(event);
      NowHolds(table);
      views := views[testId := table.View()];
    }

    // add
    method Add(testId: int, event: Event)
      requires Valid()
      modifies this, if testId in tables then {tables[testId]} else {}
      ensures Valid() && fresh(tables.Values - old(tables.Values))
      ensures views.Keys == old(views.Keys) + {testId}
      ensures ObservedOf(views, testId) == ObservedOf(old(views), testId) + [event]
      ensures forall id :: id in old(views) && id != testId ==> views[id] == old(views)[id]
    {
      hide Valid;
      Provide(testId);
      AddTo(testId, event);
    }

    lemma AllValid()
      requires Valid()
      ensures AllCollected(views) && views.Keys == tables.Keys
    {
      hide Holds, ValidCollection;
      forall id | id in views ensures ValidCollection(views[id]) {
        HoldsGives(tables[id], views[id]);
      }
    }

    method FormatOne(id: int) returns (layout: Layout, error: bool)
      requires Valid() && id in views
      ensures AllCollected(views) && (error <==> Fails(views, id)) && LaidTable(views[id], layout)
    {
      hide Holds, ValidCollection, FormatFails, LaidOut, TableRecorder.Valid;
      AllValid();
      HoldsGives(tables[id], views[id]);
      ValidGives(views[id]);
      var perm, ranks, clocks;
      perm, ranks, clocks, error := tables[id].Format();
      FormattedLays(views[id].events, perm, ranks, clocks);
      layout := Layout(perm, ranks, clocks);
      LaidOutIsTable(views[id], layout);
    }

    // format, table by table in the order of their ids; it aborts at the first that fails.
    method Format() returns (layouts: map<int, Layout>, error: bool)
      requires Valid()
      ensures AllCollected(views) && (error <==> exists id :: Fails(views, id))
      ensures !error ==> AllLaidOut(views, layouts)
    {
      hide Holds, ValidCollection, FormatFails, LaidTable, Increasing, Valid;
      AllValid();
      var ids := SortedKeys(tables.Keys);
      layouts := map[];
      for i := 0 to |ids|
        invariant layouts.Keys == SetOf(ids[..i]) && layouts.Keys <= views.Keys && AllCollected(views)
        invariant forall id :: id in layouts ==> !Fails(views, id)
        invariant forall id :: id in layouts ==> LaidTable(views[id], layouts[id])
      {
        assert ids[i] in SetOf(ids);
        var layout;
        layout, error := FormatOne(ids[i]);
        if error {
          return;
        }
        assert ids[..i + 1] == ids[..i] + [ids[i]];
        layouts := layouts[ids[i] := layout];
      }
      error := false;
      assert ids[..|ids|] == ids;
    }
  }

  ghost predicate AllLaidOut(views: map<int, Collection>, layouts: map<int, Layout>) {
    layouts.Keys == views.Keys && forall id :: id in views ==> LaidTable(views[id], layouts[id])
  }

  lemma FormattedLays(events: seq<Event>, perm: seq<nat>, ranks: seq<int>, clocks: seq<int>)
    requires forall k :: 0 <= k < |events| ==> events[k].Matched?
    requires |perm| == |events| && Ordered(SortByClock(Positions(events)), |events|, perm)
    requires EpochDrawn(SortByClock(Positions(events)), ranks, clocks)
    ensures LaidOut(events, Layout(perm, ranks, clocks))
  {
  }
}
