// The basic encoder: equal neighbouring events are counted on the way in, written as eight ints
// each, read back and counted down on the way out.
module BasicPipeline {
  import opened LinearPrediction
  import opened Options
  import opened ChunkFormat

  // mpi_inputs of an event, in the order of its eight ints.
  datatype Inputs = Inputs(count: int, kind: int, flag: int, rank: int, withNext: int, index: int, msgId: int,
                           groupId: int)

  const RECV := 1
  const TEST := 2
  const IGNORE := 0

  function RecvEvent(rank: int): Inputs {
    Inputs(1, RECV, IGNORE, rank, IGNORE, IGNORE, IGNORE, IGNORE)
  }

  // operator==: only tests are compared, and neither their counts nor their groups.
  predicate SameTest(a: Inputs, b: Inputs) {
    && a.kind == TEST && b.kind == TEST && a.flag == b.flag && a.rank == b.rank
    && a.withNext == b.withNext && a.index == b.index && a.msgId == b.msgId
  }

  // An event as the application sees it: a test with count 1, or a receive as it is created.
  predicate Single(e: Inputs) {
    e.count == 1 && (e.kind == TEST || (e.kind == RECV && e == RecvEvent(e.rank)))
  }

  // An event as it is queued: a counted test, or a receive.
  predicate Counted(e: Inputs) {
    e.count >= 1 && (e.kind == TEST || (e.kind == RECV && e == RecvEvent(e.rank)))
  }

  function Copies(e: Inputs): seq<Inputs> {
    if e.count < 1 then [] else seq(e.count, _ => e.(count := 1))
  }

  function Expanded(events: seq<Inputs>): seq<Inputs> {
    if events == [] then [] else Expanded(events[..|events| - 1]) + Copies(events[|events| - 1])
  }

  lemma ExpandedSnoc(events: seq<Inputs>, e: Inputs)
    ensures Expanded(events + [e]) == Expanded(events) + Copies(e)
  {
    assert (events + [e])[..|events|] == events;
  }

  lemma {:induction false} ExpandedConcat(a: seq<Inputs>, b: seq<Inputs>)
    ensures Expanded(a + b) == Expanded(a) + Expanded(b)
  {
    hide Copies, Expanded;
    if b == [] {
      NoneExpanded();
      assert a + b == a && Expanded(a) + [] == Expanded(a);
    } else {
      var init, last := b[..|b| - 1], b[|b| - 1];
      ExpandedConcat(a, init);
      ExpandedSnoc(a + init, last);
      ExpandedSnoc(init, last);
      assert a + b == (a + init) + [last] && b == init + [last];
      assert Expanded(a) + (Expanded(init) + Copies(last)) == (Expanded(a) + Expanded(init)) + Copies(last);
    }
  }

  // ---------------------------------------------------------------- the event list

  // No test is followed by the same test of the same group: neighbours that are equal are counted
  // as one.
  ghost predicate NoRepeats(events: seq<Inputs>) {
    forall i :: 0 <= i < |events| - 1 && events[i].kind == TEST && events[i + 1].kind == TEST ==>
      var a, b := events[i], events[i + 1];
      a.flag != b.flag || a.rank != b.rank || a.withNext != b.withNext || a.index != b.index || a.msgId != b.msgId
        || a.groupId != b.groupId
  }

  class EventList {
    var events: seq<Inputs>
    var previousRecording: Option<Inputs>
    var closed: bool
    var replay: seq<Inputs>
    var previousReplaying: Option<Inputs>

    ghost predicate Valid()
      reads this
    {
      && (forall i :: 0 <= i < |events| ==> Counted(events[i]))
      && (previousRecording.Some? ==> Counted(previousRecording.value))
      && (forall i :: 0 <= i < |replay| ==> Counted(replay[i]))
      && (previousReplaying.Some? ==> Counted(previousReplaying.value))
      && NoRepeats(Recorded()) && (previousRecording == None && !closed ==> events == [])
    }

    lemma ValidCounts()
      requires Valid()
      ensures AllCounted(events)
    {
    }

    // The queue with the event that may still be counted up.
    ghost function Recorded(): seq<Inputs>
      reads this
    {
      events + (if previousRecording.Some? then [previousRecording.value] else [])
    }

    // Everything that was pushed, in order.
    ghost function Pushed(): seq<Inputs>
      reads this
    {
      Expanded(events) + (if previousRecording.Some? then Copies(previousRecording.value) else [])
    }

    // Everything that is still to be handed out.
    ghost function ToReplay(): seq<Inputs>
      reads this
    {
      (if previousReplaying.Some? then Copies(previousReplaying.value) else []) + Expanded(replay)
    }

    constructor ()
      ensures Valid() && Pushed() == [] && ToReplay() == [] && !closed && Recorded() == []
    {
      events, previousRecording, closed, replay, previousReplaying := [], None, false, [], None;
    }

    // Pushing to a closed list is an abort.
    method Push(event: Inputs) returns (error: bool)
      requires Valid() && Single(event)
      modifies this`events, this`previousRecording
      ensures Valid() && error == closed
      ensures NoRepeats(Recorded())
      ensures Pushed() == if error then old(Pushed()) else old(Pushed()) + [event]
    {
      if closed {
        return true;
      }
      error := false;
      hide Expanded, NoRepeats;
      CountDown(event);
      if previousRecording == None {
        previousRecording := Some(event);
        OneEvent(event);
        return;
      }
      var previous := previousRecording.value;
      NextEvent(events, previous, event);
      if SameTest(previous, event) && previous.groupId == event.groupId {
        CountUp(previous, event);
        previousRecording := Some(previous.(count := previous.count + 1));
      } else {
        ExpandedSnoc(events, previous);
        events := events + [previous];
        previousRecording := Some(event);
      }
    }

    // The events queue and its closing are one step for the thread that writes chunks.
    method PushAll() returns (error: bool)
      requires Valid()
      modifies this`events, this`previousRecording, this`closed
      ensures Valid() && closed && error == old(closed)
      ensures NoRepeats(Recorded())
      ensures !error ==> Expanded(events) == old(Pushed()) && previousRecording == None
    {
      if closed {
        return true;
      }
      hide Expanded, NoRepeats, Copies;
      error := false;
      if previousRecording.Some? {
        ExpandedSnoc(events, previousRecording.value);
        events := events + [previousRecording.value];
        previousRecording := None;
      }
      closed := true;
      assert Recorded() == old(Recorded()) == events;
    }

    method EnqueueReplay(event: Inputs)
      requires Valid() && Counted(event)
      modifies this`replay
      ensures Valid() && ToReplay() == old(ToReplay()) + Copies(event)
    {
      ExpandedSnoc(replay, event);
      replay := replay + [event];
    }

    // Counts the current event down; none when the queue is empty.
    method DequeueReplay() returns (event: Option<Inputs>)
      requires Valid()
      modifies this`replay, this`previousReplaying
      ensures Valid() && (event == None <==> old(ToReplay()) == [])
      ensures event.Some? ==> [event.value] + ToReplay() == old(ToReplay())
    {
      hide Expanded, Copies;
      NoneExpanded();
      if previousReplaying == None {
        if |replay| == 0 {
          return None;
        }
        TakeFirst(replay);
        previousReplaying := Some(replay[0]);
        replay := replay[1..];
      }
      var current := previousReplaying.value;
      CountDown(current);
      if current.count == 1 {
        event := Some(current);
        previousReplaying := None;
      } else {
        event := Some(Inputs(1, TEST, current.flag, current.rank, current.withNext, current.index,
                             current.msgId, current.groupId));
        previousReplaying := Some(current.(count := current.count - 1));
      }
    }
  }

  lemma OneEvent(event: Inputs)
    ensures NoRepeats([] + [event])
  {
  }

  // The next event is counted with the last one, or differs from it.
  lemma NextEvent(events: seq<Inputs>, previous: Inputs, event: Inputs)
    requires NoRepeats(events + [previous])
    ensures NoRepeats(events + [previous.(count := previous.count + 1)])
    ensures !(SameTest(previous, event) && previous.groupId == event.groupId) ==>
      NoRepeats(events + [previous] + [event])
  {
    var before, counted := events + [previous], events + [previous.(count := previous.count + 1)];
    forall i | 0 <= i < |counted| - 1 && counted[i].kind == TEST && counted[i + 1].kind == TEST
      ensures !SameTest(counted[i], counted[i + 1]) || counted[i].groupId != counted[i + 1].groupId
    {
      assert counted[i] == before[i] && counted[i + 1].kind == before[i + 1].kind;
    }
    var after := before + [event];
    assert forall i :: 0 <= i < |before| ==> after[i] == before[i];
  }

  lemma CountUp(previous: Inputs, event: Inputs)
    requires Counted(previous) && Single(event) && SameTest(previous, event) && previous.groupId == event.groupId
    ensures Counted(previous.(count := previous.count + 1))
    ensures Copies(previous.(count := previous.count + 1)) == Copies(previous) + [event]
  {
    assert previous.(count := 1) == event;
  }

  lemma CountDown(e: Inputs)
    requires Counted(e)
    ensures e.count == 1 ==> Copies(e) == [e]
    ensures e.count > 1 ==> e.kind == TEST && Counted(e.(count := e.count - 1))
    ensures e.count > 1 ==> Copies(e) == [e.(count := 1)] + Copies(e.(count := e.count - 1))
  {
  }

  lemma TakeFirst(replay: seq<Inputs>)
    requires replay != []
    ensures Expanded(replay) == Copies(replay[0]) + Expanded(replay[1..])
  {
    hide Copies, Expanded;
    assert replay == [replay[0]] + replay[1..];
    ExpandedConcat([replay[0]], replay[1..]);
    ExpandedOne(replay[0]);
  }

  lemma NoneExpanded()
    ensures Expanded([]) == []
  {
  }

  lemma ExpandedOne(e: Inputs)
    ensures Expanded([e]) == Copies(e)
  {
    ExpandedSnoc([], e);
    assert [] + [e] == [e] && Expanded([]) + Copies(e) == Copies(e);
  }

  // ---------------------------------------------------------------- the record file

  function Fields(e: Inputs): (f: seq<int>)
    ensures |f| == 8
  {
    [e.count, e.kind, e.flag, e.rank, e.withNext, e.index, e.msgId, e.groupId]
  }

  function AllFields(chunk: seq<Inputs>): (f: seq<int>)
    ensures |f| == 8 * |chunk|
  {
    if chunk == [] then [] else AllFields(chunk[..|chunk| - 1]) + Fields(chunk[|chunk| - 1])
  }

  lemma {:induction false} FieldsAt(chunk: seq<Inputs>, i: nat)
    requires i < |chunk|
    ensures AllFields(chunk)[8 * i..8 * i + 8] == Fields(chunk[i])
  {
    if i < |chunk| - 1 {
      FieldsAt(chunk[..|chunk| - 1], i);
      assert AllFields(chunk)[8 * i..8 * i + 8] == AllFields(chunk[..|chunk| - 1])[8 * i..8 * i + 8];
    }
  }

  predicate Storable(chunk: seq<Inputs>) {
    && 32 * |chunk| < TWO_64 && AllInRange(Int32, AllFields(chunk))
    && forall i :: 0 <= i < |chunk| ==> Counted(chunk[i])
  }

  // The size of a chunk in bytes, then eight ints per event.
  function ChunkRecord(chunk: seq<Inputs>): seq<Byte> {
    Size(32 * |chunk|) + PutWords(Int32, AllFields(chunk))
  }

  function FileOf(chunks: seq<seq<Inputs>>): seq<Byte> {
    if chunks == [] then [] else FileOf(chunks[..|chunks| - 1]) + ChunkRecord(chunks[|chunks| - 1])
  }

  function Joined(chunks: seq<seq<Inputs>>): seq<Inputs> {
    if chunks == [] then [] else Joined(chunks[..|chunks| - 1]) + chunks[|chunks| - 1]
  }

  // encode and write_record_file, without compression.
  method WriteChunk(file: seq<Byte>, chunk: seq<Inputs>) returns (file': seq<Byte>)
    ensures file' == file + ChunkRecord(chunk)
  {
    var originalBuff: seq<int> := [];
    for i := 0 to |chunk|
      invariant originalBuff == AllFields(chunk[..i])
    {
      assert chunk[..i + 1][..i] == chunk[..i];
      originalBuff := originalBuff + Fields(chunk[i]);
    }
    assert chunk[..|chunk|] == chunk;
    file' := file + (Size(4 * 8 * |chunk|) + PutWords(Int32, originalBuff));
  }

  lemma {:induction false} IntAt(chunk: seq<Inputs>, i: nat, j: nat)
    requires i < |chunk| && j < 8
    ensures AllFields(chunk)[8 * i + j] == Fields(chunk[i])[j]
  {
    if i < |chunk| - 1 {
      IntAt(chunk[..|chunk| - 1], i, j);
    }
  }

  lemma FieldAt(file: seq<Byte>, at: nat, chunk: seq<Inputs>, i: nat, j: nat)
    requires HasWords(file, at, Int32, AllFields(chunk)) && i < |chunk| && j < 8
    ensures Has(file, at + 32 * i + 4 * j, PutWord(Int32, Fields(chunk[i])[j]))
  {
    hide PutWord, Has, AllFields, Fields, HasWords;
    IntAt(chunk, i, j);
    OneWord(file, at, AllFields(chunk), 8 * i + j);
  }

  lemma OneWord(file: seq<Byte>, at: nat, ints: seq<int>, k: nat)
    requires HasWords(file, at, Int32, ints) && k < |ints|
    ensures Has(file, at + 4 * k, PutWord(Int32, ints[k]))
  {
    hide PutWord, Has;
    assert Has(file, at + SizeOf(Int32) * k, PutWord(Int32, ints[k]));
  }

  // Where everything of a chunk is in its bytes: the size, then 32 bytes an event.
  lemma ChunkLayout(file: seq<Byte>, at: nat, chunk: seq<Inputs>, i: nat)
    requires Has(file, at, ChunkRecord(chunk)) && i < |chunk|
    ensures |ChunkRecord(chunk)| == 8 + 32 * |chunk| && Has(file, at, PutWord(Size64, 32 * |chunk|))
    ensures var from, e := at + 8 + 32 * i, chunk[i];
      && Has(file, from, PutWord(Int32, e.count)) && Has(file, from + 4, PutWord(Int32, e.kind))
      && Has(file, from + 8, PutWord(Int32, e.flag)) && Has(file, from + 12, PutWord(Int32, e.rank))
      && Has(file, from + 16, PutWord(Int32, e.withNext)) && Has(file, from + 20, PutWord(Int32, e.index))
      && Has(file, from + 24, PutWord(Int32, e.msgId)) && Has(file, from + 28, PutWord(Int32, e.groupId))
  {
    hide PutWords, PutWord, Has, AllFields, HasWords;
    HasSplit(file, at, Size(32 * |chunk|), PutWords(Int32, AllFields(chunk)));
    WordsAt(file, at + 8, Int32, AllFields(chunk));
    FieldAt(file, at + 8, chunk, i, 0);
    FieldAt(file, at + 8, chunk, i, 1);
    FieldAt(file, at + 8, chunk, i, 2);
    FieldAt(file, at + 8, chunk, i, 3);
    FieldAt(file, at + 8, chunk, i, 4);
    FieldAt(file, at + 8, chunk, i, 5);
    FieldAt(file, at + 8, chunk, i, 6);
    FieldAt(file, at + 8, chunk, i, 7);
  }

  // One event from its ints. Receives keep their rank only; another type is an abort.
  method DecodeEvent(f: seq<int>) returns (e: Inputs, error: bool)
    requires |f| == 8
    ensures f[1] == RECV ==> e == RecvEvent(f[3])
    ensures f[1] == TEST ==> Fields(e) == f
    ensures error <==> f[1] != RECV && f[1] != TEST
  {
    error := false;
    if f[1] == RECV {
      e := RecvEvent(f[3]);
    } else if f[1] == TEST {
      e := Inputs(f[0], TEST, f[2], f[3], f[4], f[5], f[6], f[7]);
    } else {
      error := true;
      e := RecvEvent(0);
    }
  }

  lemma CountedIsDecoded(e: Inputs, d: Inputs)
    requires Counted(e)
    requires e.kind == RECV ==> d == RecvEvent(e.rank)
    requires e.kind == TEST ==> Fields(d) == Fields(e)
    ensures d == e
  {
    assert Fields(d)[0] == d.count && Fields(d)[1] == d.kind && Fields(d)[2] == d.flag && Fields(d)[3] == d.rank;
    assert Fields(d)[4] == d.withNext && Fields(d)[5] == d.index;
    assert Fields(d)[6] == d.msgId && Fields(d)[7] == d.groupId;
  }

  // read_record_file: the chunk at the cursor comes back as it was written.
  method ReadChunk(file: seq<Byte>, at: nat, ghost chunk: seq<Inputs>)
    returns (events: seq<Inputs>, at': nat, error: bool)
    requires Storable(chunk) && Has(file, at, ChunkRecord(chunk))
    ensures events == chunk && at' == at + |ChunkRecord(chunk)| && !error
  {
    hide PutWords, PutWord, Has, Counted, Fields, AllFields, Storable, ChunkRecord;
    ghost var ints := AllFields(chunk);
    RecordParts(chunk);
    HasSplit(file, at, Size(32 * |chunk|), PutWords(Int32, ints));
    var recordSize;
    recordSize, at' := ReadWord(Size64, file, at, 32 * |chunk|);
    var sequence := CopyVec(Int32, file, at', 8 * (recordSize / 4 / 8), ints);
    at' := at' + recordSize;
    events, error := DecodeEvents(sequence, chunk);
  }

  lemma RecordParts(chunk: seq<Inputs>)
    requires Storable(chunk)
    ensures ChunkRecord(chunk) == Size(32 * |chunk|) + PutWords(Int32, AllFields(chunk))
    ensures 32 * |chunk| < TWO_64 && AllInRange(Int32, AllFields(chunk))
    ensures forall i :: 0 <= i < |chunk| ==> Counted(chunk[i])
  {
  }

  // The decode loop: eight ints at a time.
  method DecodeEvents(sequence: seq<int>, ghost chunk: seq<Inputs>) returns (events: seq<Inputs>, error: bool)
    requires sequence == AllFields(chunk) && forall i :: 0 <= i < |chunk| ==> Counted(chunk[i])
    ensures events == chunk && !error
  {
    hide Counted, Fields, AllFields;
    events, error := [], false;
    ghost var i := 0;
    var decoded := 0;
    while decoded < |sequence|
      invariant decoded == 8 * i && i <= |chunk| && events == chunk[..i] && !error
    {
      FieldsAt(chunk, i);
      FieldKinds(chunk[i]);
      var e, broken := DecodeEvent(sequence[decoded..decoded + 8]);
      CountedIsDecoded(chunk[i], e);
      error := error || broken;
      events := events + [e];
      decoded := decoded + 8;
      i := i + 1;
    }
  }

  lemma FieldKinds(e: Inputs)
    ensures Fields(e)[1] == e.kind && Fields(e)[3] == e.rank
    ensures Counted(e) ==> e.kind == RECV || e.kind == TEST
  {
  }

  // ---------------------------------------------------------------- the whole pipeline

  lemma {:induction false} FileFrom(chunks: seq<seq<Inputs>>, i: nat)
    requires i < |chunks|
    ensures Has(FileOf(chunks), |FileOf(chunks[..i])|, ChunkRecord(chunks[i]))
    ensures |FileOf(chunks[..i + 1])| == |FileOf(chunks[..i])| + |ChunkRecord(chunks[i])| <= |FileOf(chunks)|
    decreases |chunks|
  {
    hide ChunkRecord;
    var init := chunks[..|chunks| - 1];
    if i < |chunks| - 1 {
      FileFrom(init, i);
      assert init[..i] == chunks[..i] && init[..i + 1] == chunks[..i + 1];
      HasLonger(FileOf(init), ChunkRecord(chunks[|chunks| - 1]), |FileOf(chunks[..i])|, ChunkRecord(chunks[i]));
    } else {
      assert chunks[..i + 1] == chunks;
    }
  }

  lemma ChunkRecordNotEmpty(chunk: seq<Inputs>)
    ensures ChunkRecord(chunk) != []
  {
  }

  // All chunks are written, read until the end of the file, queued and counted down.
  method WriteAndReplay(chunks: seq<seq<Inputs>>) returns (out: seq<Inputs>, error: bool)
    requires forall i :: 0 <= i < |chunks| ==> Storable(chunks[i])
    ensures !error && out == Expanded(Joined(chunks))
  {
    var file := WriteAll(chunks);
    var list := new EventList();
    error := ReadAll(file, chunks, list);
    out := DrainAll(list);
  }

  method WriteAll(chunks: seq<seq<Inputs>>) returns (file: seq<Byte>)
    ensures file == FileOf(chunks)
  {
    hide ChunkRecord;
    file := [];
    for i := 0 to |chunks|
      invariant file == FileOf(chunks[..i])
    {
      assert chunks[..i + 1][..i] == chunks[..i];
      file := WriteChunk(file, chunks[i]);
    }
    assert chunks[..|chunks|] == chunks;
  }

  method ReadAll(file: seq<Byte>, ghost chunks: seq<seq<Inputs>>, list: EventList) returns (error: bool)
    requires (forall i :: 0 <= i < |chunks| ==> Storable(chunks[i])) && file == FileOf(chunks)
    requires list.Valid() && list.ToReplay() == []
    modifies list`replay
    ensures list.Valid() && !error && list.ToReplay() == Expanded(Joined(chunks))
  {
    hide FileOf, ChunkRecord, Storable, Has, Expanded;
    error := false;
    var at := 0;
    ghost var i := 0;
    EmptyStart(chunks);
    while at < |file|
      invariant i <= |chunks| && at == |FileOf(chunks[..i])| <= |file| && (at == |file| <==> i == |chunks|) && !error
      invariant list.Valid() && list.ToReplay() == Expanded(Joined(chunks[..i]))
      decreases |chunks| - i
    {
      FileFrom(chunks, i);
      var events, next, broken := ReadChunk(file, at, chunks[i]);
      error := error || broken;
      StorableGives(chunks[i]);
      EnqueueAll(list, events);
      assert chunks[..i + 1][..i] == chunks[..i];
      ExpandedConcat(Joined(chunks[..i]), chunks[i]);
      EndOfFile(chunks, i + 1);
      at := next;
      i := i + 1;
    }
    assert chunks[..|chunks|] == chunks;
  }

  lemma EmptyStart(chunks: seq<seq<Inputs>>)
    ensures FileOf(chunks[..0]) == [] && Expanded(Joined(chunks[..0])) == []
    ensures FileOf(chunks) == [] <==> |chunks| == 0
  {
    if |chunks| > 0 {
      ChunkRecordNotEmpty(chunks[|chunks| - 1]);
    }
  }

  lemma EndOfFile(chunks: seq<seq<Inputs>>, i: nat)
    requires i <= |chunks|
    ensures |FileOf(chunks[..i])| == |FileOf(chunks)| <==> i == |chunks|
  {
    hide FileOf, ChunkRecord;
    if i < |chunks| {
      FileFrom(chunks, i);
      ChunkRecordNotEmpty(chunks[i]);
    } else {
      assert chunks[..i] == chunks;
    }
  }

  lemma StorableGives(chunk: seq<Inputs>)
    requires Storable(chunk)
    ensures forall i :: 0 <= i < |chunk| ==> Counted(chunk[i])
  {
  }

  // insert_encoder_input_format_chunk
  method EnqueueAll(list: EventList, events: seq<Inputs>)
    requires list.Valid() && forall i :: 0 <= i < |events| ==> Counted(events[i])
    modifies list`replay
    ensures list.Valid() && list.ToReplay() == old(list.ToReplay()) + Expanded(events)
  {
    hide Counted, Copies;
    for i := 0 to |events|
      invariant list.Valid() && list.ToReplay() == old(list.ToReplay()) + Expanded(events[..i])
    {
      assert events[..i + 1][..i] == events[..i];
      list.EnqueueReplay(events[i]);
    }
    assert events[..|events|] == events;
  }

  method DrainAll(list: EventList) returns (out: seq<Inputs>)
    requires list.Valid()
    modifies list
    ensures out == old(list.ToReplay())
  {
    hide Expanded, Copies, Counted, EventList.Valid, EventList.ToReplay;
    out := [];
    while true
      invariant list.Valid() && out + list.ToReplay() == old(list.ToReplay())
      decreases |list.ToReplay()|
    {
      ghost var left := list.ToReplay();
      var event := list.DequeueReplay();
      if event == None {
        assert out + left == out;
        return;
      }
      assert out + left == out + [event.value] + list.ToReplay();
      out := out + [event.value];
    }
  }

  // Lossless: whatever was pushed, however the queue is divided into chunks, comes out again.
  method RecordAndReplay(observed: seq<Inputs>, sizes: seq<nat>) returns (out: seq<Inputs>, error: bool)
    requires |observed| < TWO_31 && forall i :: 0 <= i < |observed| ==> Single(observed[i]) && FieldsFit(observed[i])
    ensures !error && out == observed
  {
    hide Expanded, Copies, Counted, Single, FieldsFit, Cut, Storable, Joined, EventList.Valid, EventList.Pushed;
    var list := Record(observed);
    var chunks := Cut(list.events, sizes);
    CutJoins(list.events, sizes);
    QueueFits(list.events, observed);
    CutFits(list.events, sizes);
    out, error := WriteAndReplay(chunks);
  }

  // The application's side: every event is pushed, and then the list is closed.
  method Record(observed: seq<Inputs>) returns (list: EventList)
    requires forall i :: 0 <= i < |observed| ==> Single(observed[i])
    ensures fresh(list) && AllCounted(list.events) && Expanded(list.events) == observed
  {
    hide Expanded, Copies, Counted, Single, EventList.Valid, EventList.Pushed;
    list := new EventList();
    for i := 0 to |observed|
      invariant list.Valid() && !list.closed && list.Pushed() == observed[..i] && fresh(list)
    {
      var refused := list.Push(observed[i]);
      assert observed[..i + 1] == observed[..i] + [observed[i]];
    }
    assert observed[..|observed|] == observed;
    var refused := list.PushAll();
    list.ValidCounts();
  }

  // Every field is an int.
  predicate FieldsFit(e: Inputs) {
    AllInRange(Int32, Fields(e))
  }

  ghost predicate AllCounted(events: seq<Inputs>) {
    forall i :: 0 <= i < |events| ==> Counted(events[i])
  }

  ghost predicate AllFit(events: seq<Inputs>) {
    forall i :: 0 <= i < |events| ==> FieldsFit(events[i])
  }

  // Counts stay within int when there are not more events than that.
  lemma {:induction false} QueueFits(queue: seq<Inputs>, observed: seq<Inputs>)
    requires AllCounted(queue) && Expanded(queue) == observed && |observed| < TWO_31 && AllFit(observed)
    ensures AllFit(queue) && |queue| <= |observed|
  {
    hide Expanded, Copies, Counted, FieldsFit;
    if queue != [] {
      var init, last := queue[..|queue| - 1], queue[|queue| - 1];
      var before := Expanded(init);
      assert queue == init + [last];
      ExpandedSnoc(init, last);
      CopiesOf(last);
      forall i | 0 <= i < |before| ensures FieldsFit(before[i]) {
        assert observed[i] == before[i];
      }
      QueueFits(init, before);
      assert observed[|before|] == last.(count := 1);
      CountFits(last);
      forall i | 0 <= i < |queue| ensures FieldsFit(queue[i]) {
        assert i < |init| ==> queue[i] == init[i];
      }
    }
  }

  lemma CopiesOf(e: Inputs)
    requires Counted(e)
    ensures |Copies(e)| == e.count >= 1 && Copies(e)[0] == e.(count := 1)
  {
  }

  lemma CountFits(e: Inputs)
    requires 1 <= e.count < TWO_31 && FieldsFit(e.(count := 1))
    ensures FieldsFit(e)
  {
    var one := e.(count := 1);
    forall i | 0 <= i < 8 ensures InRange(Int32, Fields(e)[i]) {
      assert InRange(Int32, Fields(one)[i]);
    }
  }

  lemma {:induction false} ChunkFits(chunk: seq<Inputs>)
    requires AllFit(chunk)
    ensures AllInRange(Int32, AllFields(chunk))
  {
    hide FieldsFit;
    if chunk != [] {
      ChunkFits(chunk[..|chunk| - 1]);
      assert FieldsFit(chunk[|chunk| - 1]);
      LastFits(AllFields(chunk[..|chunk| - 1]), chunk[|chunk| - 1]);
    }
  }

  lemma LastFits(fields: seq<int>, e: Inputs)
    requires AllInRange(Int32, fields) && FieldsFit(e)
    ensures AllInRange(Int32, fields + Fields(e))
  {
  }

  lemma {:induction false} CutFits(events: seq<Inputs>, sizes: seq<nat>)
    requires AllCounted(events) && AllFit(events) && |events| < TWO_31
    ensures forall i :: 0 <= i < |Cut(events, sizes)| ==> Storable(Cut(events, sizes)[i])
    decreases |sizes|
  {
    hide FieldsFit, Counted, AllFields;
    if events != [] {
      if sizes == [] || sizes[0] == 0 || sizes[0] >= |events| {
        ChunkFits(events);
      } else {
        ChunkFits(events[..sizes[0]]);
        CutFits(events[sizes[0]..], sizes[1..]);
      }
    }
  }

  // Chunks of the given sizes, the rest in one.
  function Cut(events: seq<Inputs>, sizes: seq<nat>): seq<seq<Inputs>>
    decreases |sizes|
  {
    if events == [] then []
    else if sizes == [] || sizes[0] == 0 || sizes[0] >= |events| then [events]
    else [events[..sizes[0]]] + Cut(events[sizes[0]..], sizes[1..])
  }

  lemma {:induction false} JoinedFirst(first: seq<Inputs>, rest: seq<seq<Inputs>>)
    ensures Joined([first] + rest) == first + Joined(rest)
    decreases |rest|
  {
    if rest == [] {
      assert [first] + rest == [first] && Joined([first]) == Joined([]) + first;
      assert [first][..0] == [] && Joined([]) == [];
      assert [] + first == first && first + [] == first;
    } else {
      var init, last := rest[..|rest| - 1], rest[|rest| - 1];
      JoinedFirst(first, init);
      assert ([first] + rest)[..|rest|] == [first] + init;
    }
  }

  lemma {:induction false} CutJoins(events: seq<Inputs>, sizes: seq<nat>)
    ensures Joined(Cut(events, sizes)) == events
    decreases |sizes|
  {
    if events != [] {
      if sizes == [] || sizes[0] == 0 || sizes[0] >= |events| {
        JoinedFirst(events, []);
        assert [events] + [] == [events] && events + Joined([]) == events;
      } else {
        CutJoins(events[sizes[0]..], sizes[1..]);
        JoinedFirst(events[..sizes[0]], Cut(events[sizes[0]..], sizes[1..]));
      }
    }
  }
}
