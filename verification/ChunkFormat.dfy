// The bytes of a chunk: what compress_non_matched_events and compress_matched_events queue for
// each table, and the decode loop that walks them.
module ChunkFormat {
  import opened LinearPrediction

  type Byte = b: int | 0 <= b < 256

  // ---------------------------------------------------------------- machine words, little-endian

  function Bound(n: nat): nat {
    if n == 0 then 1 else 256 * Bound(n - 1)
  }

  function Put(n: nat, x: nat): (bytes: seq<Byte>)
    ensures |bytes| == n
  {
    if n == 0 then [] else [x % 256] + Put(n - 1, x / 256)
  }

  function Get(bytes: seq<Byte>): nat {
    if bytes == [] then 0 else bytes[0] + 256 * Get(bytes[1..])
  }

  lemma {:induction false} GetPut(n: nat, x: nat)
    requires x < Bound(n)
    ensures Get(Put(n, x)) == x
    decreases n
  {
    if n > 0 {
      GetPut(n - 1, x / 256);
      assert Put(n, x)[1..] == Put(n - 1, x / 256);
    }
  }

  // Dividing twice is dividing once by the product.
  lemma DivideTwice(x: nat, b: nat)
    requires b > 0
    ensures 256 * b > 0 && (x / 256) / b == x / (256 * b)
  {
    var q := (x / 256) / b;
    var r := 256 * (x / 256 - b * q) + x % 256;
    assert 0 <= x / 256 - b * q < b;
    assert x == (256 * b) * q + r by {
      assert (256 * b) * q == 256 * (b * q);
    }
    QuotientIs(x, 256 * b, q, r);
  }

  lemma QuotientIs(x: nat, d: nat, q: nat, r: nat)
    requires x == d * q + r && r < d
    ensures x / d == q
  {
    var k: int := x / d - q;
    assert d * (x / d) == d * q + d * k;
    assert k >= 1 ==> d * k >= d;
    assert k <= -1 ==> d * k <= 0 - d;
  }

  // The words are little-endian: byte i is the i-th digit to the base 256.
  lemma {:induction false} PutAt(n: nat, x: nat, i: nat)
    requires i < n
    ensures Bound(i) > 0 && Put(n, x)[i] == (x / Bound(i)) % 256
    decreases n
  {
    if i > 0 {
      PutAt(n - 1, x / 256, i - 1);
      DivideTwice(x, Bound(i - 1));
      assert Put(n, x)[i] == Put(n - 1, x / 256)[i - 1];
      assert Bound(i) == 256 * Bound(i - 1);
    }
  }

  lemma WordBounds()
    ensures Bound(4) == TWO_32 && Bound(8) == TWO_64
  {
    assert Bound(2) == 256 * Bound(1);
    assert Bound(4) == 256 * (256 * Bound(2));
    assert Bound(6) == 256 * (256 * Bound(4));
  }

  function SizeOf(w: Width): nat {
    if w == Int32 then 4 else 8
  }

  function PutWord(w: Width, x: int): (bytes: seq<Byte>)
    ensures |bytes| == SizeOf(w)
  {
    Put(SizeOf(w), if w == Int32 then x % TWO_32 else x % TWO_64)
  }

  function GetWord(w: Width, bytes: seq<Byte>): int {
    Wrap(w, Get(bytes))
  }

  // An int is its four bytes, the lowest first, in two's complement.
  lemma IntBytes(x: int)
    ensures var u := x % TWO_32;
      PutWord(Int32, x) == [u % 256, (u / 256) % 256, (u / 65536) % 256, (u / 16777216) % 256]
  {
    hide Put;
    var u := x % TWO_32;
    assert Bound(1) == 256;
    assert Bound(2) == 65536;
    assert Bound(3) == 16777216;
    PutAt(4, u, 0);
    PutAt(4, u, 1);
    PutAt(4, u, 2);
    PutAt(4, u, 3);
  }

  // A word in range reads back as it was written, sign included.
  lemma WordRoundTrip(w: Width, x: int)
    requires InRange(w, x)
    ensures GetWord(w, PutWord(w, x)) == x
  {
    WordBounds();
    GetPut(SizeOf(w), if w == Int32 then x % TWO_32 else x % TWO_64);
  }

  function PutWords(w: Width, xs: seq<int>): (bytes: seq<Byte>)
    ensures |bytes| == SizeOf(w) * |xs|
  {
    if xs == [] then [] else PutWords(w, xs[..|xs| - 1]) + PutWord(w, xs[|xs| - 1])
  }

  function Offset(w: Width, i: nat): nat {
    SizeOf(w) * i
  }

  lemma PutWordsNext(w: Width, xs: seq<int>)
    requires xs != []
    ensures PutWords(w, xs) == PutWords(w, xs[..|xs| - 1]) + PutWord(w, xs[|xs| - 1])
    ensures |PutWords(w, xs[..|xs| - 1])| == Offset(w, |xs| - 1)
  {
  }

  // ---------------------------------------------------------------- buffers in a row

  function Flat(parts: seq<seq<Byte>>): seq<Byte> {
    if parts == [] then [] else parts[0] + Flat(parts[1..])
  }

  lemma FlatHead(parts: seq<seq<Byte>>)
    requires parts != []
    ensures Flat(parts) == parts[0] + Flat(parts[1..])
  {
  }

  lemma Reassociate(a: seq<Byte>, b: seq<Byte>, c: seq<Byte>)
    ensures a + (b + c) == (a + b) + c
  {
  }

  lemma {:induction false} FlatConcat(a: seq<seq<Byte>>, b: seq<seq<Byte>>)
    ensures Flat(a + b) == Flat(a) + Flat(b)
  {
    hide Flat;
    NothingFlat([]);
    if a == [] {
      assert a + b == b && Flat(a) + Flat(b) == Flat(b);
    } else {
      FlatConcat(a[1..], b);
      FlatHead(a + b);
      FlatHead(a);
      assert (a + b)[1..] == a[1..] + b;
      Reassociate(a[0], Flat(a[1..]), Flat(b));
    }
  }

  ghost predicate Has(bytes: seq<Byte>, at: nat, part: seq<Byte>) {
    at + |part| <= |bytes| && bytes[at..at + |part|] == part
  }

  lemma HasSplit(bytes: seq<Byte>, at: nat, a: seq<Byte>, b: seq<Byte>)
    requires Has(bytes, at, a + b)
    ensures Has(bytes, at, a) && Has(bytes, at + |a|, b)
  {
    assert bytes[at..at + |a|] == (a + b)[..|a|] == a;
    assert bytes[at + |a|..at + |a| + |b|] == (a + b)[|a|..] == b;
  }

  // ---------------------------------------------------------------- one table

  // The vectors of a table as they are written, linear prediction already applied.
  datatype Image = Image(id: int, count: int, epochRanks: seq<int>, epochClocks: seq<int>, withPrevious: seq<int>,
                         matchedIndex: seq<int>, unmatchedIds: seq<int>, unmatchedCounts: seq<int>, matched: seq<int>)

  predicate VectorFits(xs: seq<int>) {
    8 * |xs| < TWO_64 && AllInRange(Size64, xs)
  }

  predicate Writable(img: Image) {
    && InRange(Int32, img.id) && InRange(Int32, img.count) && |img.epochRanks| == |img.epochClocks|
    && VectorFits(img.epochRanks) && VectorFits(img.epochClocks) && VectorFits(img.withPrevious)
      && VectorFits(img.matchedIndex)
    && VectorFits(img.unmatchedIds) && VectorFits(img.unmatchedCounts)
    && |img.unmatchedIds| == |img.unmatchedCounts| && |img.matched| % 2 == 0
    && 4 * |img.matched| < TWO_64 && AllInRange(Int32, img.matched)
  }

  function Size(x: nat): seq<Byte> {
    PutWord(Size64, x)
  }

  function HeadParts(img: Image): seq<seq<Byte>> {
    [PutWord(Int32, img.id), PutWord(Int32, img.count),
     Size(8 * |img.epochRanks|), PutWords(Size64, img.epochRanks), PutWords(Size64, img.epochClocks)]
  }

  // A vector with its length and its size in bytes.
  function CountedParts(xs: seq<int>): seq<seq<Byte>> {
    [Size(|xs|), Size(8 * |xs|), PutWords(Size64, xs)]
  }

  // A vector with its size in bytes.
  function SizedParts(xs: seq<int>): seq<seq<Byte>> {
    [Size(8 * |xs|), PutWords(Size64, xs)]
  }

  function NonMatchedParts(img: Image): seq<seq<Byte>> {
    HeadParts(img) + CountedParts(img.withPrevious) + CountedParts(img.matchedIndex)
    + SizedParts(img.unmatchedIds) + SizedParts(img.unmatchedCounts)
  }

  function MatchedParts(img: Image): seq<seq<Byte>> {
    [Size(4 * |img.matched|), PutWords(Int32, img.matched)]
  }

  function TableParts(img: Image): seq<seq<Byte>> {
    NonMatchedParts(img) + MatchedParts(img)
  }

  function ChunkBytes(tables: seq<Image>): seq<Byte> {
    if tables == [] then [] else Flat(TableParts(tables[0])) + ChunkBytes(tables[1..])
  }

  // ---------------------------------------------------------------- writing

  // What is written for a table: its group and failed-test positions are predicted first.
  function Coded(img: Image): Image {
    img.(withPrevious := Predicted(Size64, img.withPrevious), unmatchedIds := Predicted(Size64, img.unmatchedIds))
  }

  function CodedAll(tables: seq<Image>): seq<Image> {
    seq(|tables|, i requires 0 <= i < |tables| => Coded(tables[i]))
  }

  class ChunkWriter {
    var writeQueue: seq<seq<Byte>>

    constructor ()
      ensures writeQueue == []
    {
      writeQueue := [];
    }

    method Push(part: seq<Byte>)
      modifies this
      ensures writeQueue == old(writeQueue) + [part]
    {
      writeQueue := writeQueue + [part];
    }

    method CompressEpoch(img: Image)
      modifies this
      ensures writeQueue == old(writeQueue) + HeadParts(img)
    {
      hide PutWords, PutWord;
      Push(PutWord(Int32, img.id));
      Push(PutWord(Int32, img.count));
      Push(Size(8 * |img.epochRanks|));
      Push(PutWords(Size64, img.epochRanks));
      Push(PutWords(Size64, img.epochClocks));
    }

    method CompressNonMatchedEvents(img: Image)
      modifies this
      ensures writeQueue == old(writeQueue) + NonMatchedParts(Coded(img))
    {
      hide PutWords, PutWord, Predicted, HeadParts, CountedParts, SizedParts;
      CompressEpoch(img);
      SameHead(img);
      var withPrevious := PredictCopy(img.withPrevious);
      PushCounted(withPrevious);
      PushCounted(img.matchedIndex);
      var unmatchedIds := PredictCopy(img.unmatchedIds);
      PushSized(unmatchedIds);
      PushSized(img.unmatchedCounts);
      InARow(old(writeQueue), HeadParts(img), CountedParts(withPrevious), CountedParts(img.matchedIndex),
             SizedParts(unmatchedIds), SizedParts(img.unmatchedCounts));
    }

    // A vector with its length and its size in bytes.
    method PushCounted(vec: seq<int>)
      modifies this
      ensures writeQueue == old(writeQueue) + CountedParts(vec)
    {
      hide PutWords, PutWord;
      Push(Size(|vec|));
      Push(Size(8 * |vec|));
      Push(PutWords(Size64, vec));
    }

    // A vector with its size in bytes.
    method PushSized(vec: seq<int>)
      modifies this
      ensures writeQueue == old(writeQueue) + SizedParts(vec)
    {
      hide PutWords, PutWord;
      Push(Size(8 * |vec|));
      Push(PutWords(Size64, vec));
    }

    method CompressMatchedEvents(matched: seq<int>)
      modifies this
      ensures writeQueue == old(writeQueue) + [Size(4 * |matched|), PutWords(Int32, matched)]
    {
      Push(Size(4 * |matched|));
      Push(PutWords(Int32, matched));
    }

    // Tables in the order of the map that holds them.
    method Encode(tables: seq<Image>)
      modifies this
      ensures Flat(writeQueue) == Flat(old(writeQueue)) + ChunkBytes(CodedAll(tables))
    {
      hide NonMatchedParts, Flat, Coded, PutWords, Size;
      assert CodedAll(tables)[0..] == CodedAll(tables);
      for i := 0 to |tables|
        invariant Flat(writeQueue) + ChunkBytes(CodedAll(tables)[i..])
          == Flat(old(writeQueue)) + ChunkBytes(CodedAll(tables))
      {
        ghost var before := writeQueue;
        CompressNonMatchedEvents(tables[i]);
        CompressMatchedEvents(tables[i].matched);
        var img := Coded(tables[i]);
        CodedMatched(tables[i]);
        assert writeQueue == before + TableParts(img);
        FlatConcat(before, TableParts(img));
        assert CodedAll(tables)[i..][1..] == CodedAll(tables)[i + 1..];
        Reassociate(Flat(before), Flat(TableParts(img)), ChunkBytes(CodedAll(tables)[i + 1..]));
      }
    }
  }

  lemma InARow(q: seq<seq<Byte>>, a: seq<seq<Byte>>, b: seq<seq<Byte>>, c: seq<seq<Byte>>, d: seq<seq<Byte>>,
               e: seq<seq<Byte>>)
    ensures q + a + b + c + d + e == q + (a + b + c + d + e)
  {
  }

  lemma SameHead(img: Image)
    ensures HeadParts(Coded(img)) == HeadParts(img)
  {
  }

  lemma CodedMatched(img: Image)
    ensures MatchedParts(Coded(img)) == [Size(4 * |img.matched|), PutWords(Int32, img.matched)]
  {
  }

  // compress_by_linear_prediction on the vector of a table.
  method PredictCopy(xs: seq<int>) returns (coded: seq<int>)
    ensures coded == Predicted(Size64, xs)
  {
    var vec := new int[|xs|](i requires 0 <= i < |xs| => xs[i]);
    assert vec[..] == xs;
    CompressByLinearPrediction(Size64, vec);
    coded := vec[..];
  }

  method UnpredictCopy(xs: seq<int>) returns (decoded: seq<int>)
    ensures decoded == Unpredicted(Size64, xs)
  {
    var vec := new int[|xs|](i requires 0 <= i < |xs| => xs[i]);
    assert vec[..] == xs;
    DecompressByLinearPrediction(Size64, vec);
    decoded := vec[..];
  }

  // ---------------------------------------------------------------- reading

  method ReadWord(w: Width, bytes: seq<Byte>, at: nat, ghost x: int) returns (r: int, at': nat)
    requires InRange(w, x) && Has(bytes, at, PutWord(w, x))
    ensures r == x && at' == at + SizeOf(w)
  {
    WordRoundTrip(w, x);
    r, at' := GetWord(w, bytes[at..at + SizeOf(w)]), at + SizeOf(w);
  }

  // A part of a part.
  lemma HasInner(bytes: seq<Byte>, at: nat, part: seq<Byte>, lo: nat, inner: seq<Byte>)
    requires Has(bytes, at, part) && Has(part, lo, inner)
    ensures Has(bytes, at + lo, inner)
  {
    var slice, n := bytes[at + lo..at + lo + |inner|], |inner|;
    forall k | 0 <= k < n ensures slice[k] == inner[k] {
      assert inner[k] == part[lo..lo + n][k] == part[lo + k];
      assert part[lo + k] == bytes[at..at + |part|][lo + k] == bytes[at + (lo + k)];
    }
  }

  lemma {:induction false} WordOf(w: Width, xs: seq<int>, i: nat)
    requires i < |xs|
    ensures Has(PutWords(w, xs), Offset(w, i), PutWord(w, xs[i]))
  {
    hide PutWords, PutWord, Offset, SizeOf, Has;
    var init, last := xs[..|xs| - 1], PutWord(w, xs[|xs| - 1]);
    PutWordsNext(w, xs);
    if i < |xs| - 1 {
      WordOf(w, init, i);
      HasLonger(PutWords(w, init), last, Offset(w, i), PutWord(w, xs[i]));
    } else {
      HasAfter(PutWords(w, init), last, []);
      assert last + [] == last;
    }
  }

  // The i-th word of a buffer in the file.
  lemma WordAt(w: Width, bytes: seq<Byte>, at: nat, xs: seq<int>, i: nat)
    requires Has(bytes, at, PutWords(w, xs)) && i < |xs|
    ensures Has(bytes, at + Offset(w, i), PutWord(w, xs[i]))
  {
    hide PutWords, PutWord, SizeOf, Offset, Has;
    WordOf(w, xs, i);
    HasInner(bytes, at, PutWords(w, xs), Offset(w, i), PutWord(w, xs[i]));
  }

  lemma HasGives(bytes: seq<Byte>, at: nat, part: seq<Byte>)
    requires Has(bytes, at, part)
    ensures at + |part| <= |bytes| && bytes[at..at + |part|] == part
  {
  }

  // rempi_copy_vec: element by element.
  method CopyVec(w: Width, bytes: seq<Byte>, at: nat, length: nat, ghost xs: seq<int>) returns (vec: seq<int>)
    requires AllInRange(w, xs) && length == |xs| && Has(bytes, at, PutWords(w, xs))
    ensures vec == xs
  {
    hide PutWords, PutWord, GetWord, Has;
    vec := [];
    for i := 0 to length
      invariant vec == xs[..i]
    {
      var from := at + Offset(w, i);
      WordAt(w, bytes, at, xs, i);
      HasGives(bytes, from, PutWord(w, xs[i]));
      WordRoundTrip(w, xs[i]);
      vec := vec + [GetWord(w, bytes[from..from + SizeOf(w)])];
    }
  }

  // A byte count followed by that many bytes of size_t.
  method ReadSized(bytes: seq<Byte>, at: nat, ghost xs: seq<int>) returns (vec: seq<int>, at': nat)
    requires VectorFits(xs) && Has(bytes, at, Flat(SizedParts(xs)))
    ensures vec == xs && at' == at + |Flat(SizedParts(xs))|
  {
    ghost var parts := SizedParts(xs);
    TwoParts(parts);
    hide Flat, PutWords, Has, SizedParts;
    HasSplit(bytes, at, Size(8 * |xs|), PutWords(Size64, xs));
    var size;
    size, at' := ReadWord(Size64, bytes, at, 8 * |xs|);
    if size > 0 {
      vec := CopyVec(Size64, bytes, at', size / 8, xs);
      at' := at' + size;
    } else {
      vec := [];
    }
  }

  method ReadCounted(bytes: seq<Byte>, at: nat, ghost xs: seq<int>) returns (vec: seq<int>, at': nat)
    requires VectorFits(xs) && Has(bytes, at, Flat(CountedParts(xs)))
    ensures vec == xs && at' == at + |Flat(CountedParts(xs))|
  {
    assert CountedParts(xs)[1..] == SizedParts(xs);
    hide PutWords, Has, SizedParts;
    HasSplit(bytes, at, Size(|xs|), Flat(SizedParts(xs)));
    var length;
    length, at' := ReadWord(Size64, bytes, at, |xs|);
    vec, at' := ReadSized(bytes, at', xs);
  }

  lemma FlatFrom(parts: seq<seq<Byte>>, k: nat)
    requires k < |parts|
    ensures Flat(parts[k..]) == parts[k] + Flat(parts[k + 1..])
  {
    assert parts[k..][1..] == parts[k + 1..];
  }

  lemma TwoParts(parts: seq<seq<Byte>>)
    requires |parts| == 2
    ensures Flat(parts) == parts[0] + parts[1]
  {
    FlatFrom(parts, 0);
    FlatFrom(parts, 1);
    assert parts[0..] == parts && parts[2..] == [] && parts[1] + [] == parts[1];
  }

  lemma HeadSections(img: Image)
    ensures Flat(HeadParts(img)) ==
      PutWord(Int32, img.id) + (PutWord(Int32, img.count) +
      (Size(8 * |img.epochRanks|) + (PutWords(Size64, img.epochRanks) + PutWords(Size64, img.epochClocks))))
  {
    hide PutWord, PutWords, Flat;
    var p := HeadParts(img);
    assert p[0..] == p;
    FlatFrom(p, 0);
    FlatFrom(p, 1);
    FlatFrom(p, 2);
    TwoParts(p[3..]);
  }

  // Identifier, event count and epoch line.
  method ReadHead(bytes: seq<Byte>, at: nat, ghost img: Image)
    returns (id: int, count: int, epochRanks: seq<int>, epochClocks: seq<int>, at': nat)
    requires Writable(img) && Has(bytes, at, Flat(HeadParts(img)))
    ensures id == img.id && count == img.count && epochRanks == img.epochRanks && epochClocks == img.epochClocks
    ensures at' == at + |Flat(HeadParts(img))|
  {
    HeadSections(img);
    hide Flat, PutWords, PutWord, Has, HeadParts;
    ghost var ranks, clocks := PutWords(Size64, img.epochRanks), PutWords(Size64, img.epochClocks);
    ghost var size8 := Size(8 * |img.epochRanks|);
    HasSplit(bytes, at, PutWord(Int32, img.id), PutWord(Int32, img.count) + (size8 + (ranks + clocks)));
    HasSplit(bytes, at + 4, PutWord(Int32, img.count), size8 + (ranks + clocks));
    HasSplit(bytes, at + 8, size8, ranks + clocks);
    HasSplit(bytes, at + 16, ranks, clocks);
    id, at' := ReadWord(Int32, bytes, at, img.id);
    count, at' := ReadWord(Int32, bytes, at', img.count);
    var epochSize;
    epochSize, at' := ReadWord(Size64, bytes, at', 8 * |img.epochRanks|);
    epochRanks := CopyVec(Size64, bytes, at', epochSize / 8, img.epochRanks);
    at' := at' + epochSize;
    epochClocks := CopyVec(Size64, bytes, at', epochSize / 8, img.epochClocks);
    at' := at' + epochSize;
  }

  // The moves: as many ids as delays, 4 bytes each.
  method ReadMatched(bytes: seq<Byte>, at: nat, ghost img: Image) returns (matched: seq<int>, at': nat)
    requires Writable(img) && Has(bytes, at, Flat(MatchedParts(img)))
    ensures matched == img.matched && at' == at + |Flat(MatchedParts(img))|
  {
    TwoParts(MatchedParts(img));
    hide Flat, PutWords, PutWord, Has, MatchedParts;
    ghost var ints := PutWords(Int32, img.matched);
    HasSplit(bytes, at, Size(4 * |img.matched|), ints);
    var size;
    size, at' := ReadWord(Size64, bytes, at, 4 * |img.matched|);
    matched := [];
    if size > 0 {
      matched := CopyVec(Int32, bytes, at', 2 * (size / 4 / 2), img.matched);
      at' := at' + size;
    }
  }

  lemma TableSections(img: Image)
    ensures Flat(TableParts(img)) ==
      Flat(HeadParts(img)) + (Flat(CountedParts(img.withPrevious)) + (Flat(CountedParts(img.matchedIndex)) +
      (Flat(SizedParts(img.unmatchedIds)) + (Flat(SizedParts(img.unmatchedCounts)) + Flat(MatchedParts(img))))))
  {
    hide Flat, HeadParts, CountedParts, SizedParts, MatchedParts;
    var h, w, x := HeadParts(img), CountedParts(img.withPrevious), CountedParts(img.matchedIndex);
    var u, c, m := SizedParts(img.unmatchedIds), SizedParts(img.unmatchedCounts), MatchedParts(img);
    assert TableParts(img) == h + (w + (x + (u + (c + m))));
    FlatConcat(h, w + (x + (u + (c + m))));
    FlatConcat(w, x + (u + (c + m)));
    FlatConcat(x, u + (c + m));
    FlatConcat(u, c + m);
    FlatConcat(c, m);
  }

  // ---------------------------------------------------------------- the layout

  ghost predicate HasWords(bytes: seq<Byte>, at: nat, w: Width, xs: seq<int>) {
    forall i :: 0 <= i < |xs| ==> Has(bytes, at + SizeOf(w) * i, PutWord(w, xs[i]))
  }

  lemma WordsAt(bytes: seq<Byte>, at: nat, w: Width, xs: seq<int>)
    requires Has(bytes, at, PutWords(w, xs))
    ensures HasWords(bytes, at, w, xs)
  {
    hide PutWords, PutWord, Has;
    forall i | 0 <= i < |xs| ensures Has(bytes, at + SizeOf(w) * i, PutWord(w, xs[i])) {
      WordAt(w, bytes, at, xs, i);
    }
  }

  // A vector behind its size in bytes.
  ghost predicate SizedAt(bytes: seq<Byte>, at: nat, xs: seq<int>) {
    Has(bytes, at, PutWord(Size64, 8 * |xs|)) && HasWords(bytes, at + 8, Size64, xs)
  }

  // A vector behind its length and its size in bytes.
  ghost predicate CountedAt(bytes: seq<Byte>, at: nat, xs: seq<int>) {
    Has(bytes, at, PutWord(Size64, |xs|)) && SizedAt(bytes, at + 8, xs)
  }

  lemma SizedLayout(bytes: seq<Byte>, at: nat, xs: seq<int>)
    requires Has(bytes, at, Flat(SizedParts(xs)))
    ensures SizedAt(bytes, at, xs) && |Flat(SizedParts(xs))| == 8 + 8 * |xs|
  {
    hide PutWords, PutWord, Flat, Has, HasWords;
    TwoParts(SizedParts(xs));
    HasSplit(bytes, at, Size(8 * |xs|), PutWords(Size64, xs));
    WordsAt(bytes, at + 8, Size64, xs);
  }

  lemma CountedLayout(bytes: seq<Byte>, at: nat, xs: seq<int>)
    requires Has(bytes, at, Flat(CountedParts(xs)))
    ensures CountedAt(bytes, at, xs) && |Flat(CountedParts(xs))| == 16 + 8 * |xs|
  {
    hide PutWords, PutWord, Flat, Has, HasWords, SizedParts;
    FlatHead(CountedParts(xs));
    assert CountedParts(xs)[1..] == SizedParts(xs) by {
      SizedPartsAre(xs);
    }
    HasSplit(bytes, at, Size(|xs|), Flat(SizedParts(xs)));
    SizedLayout(bytes, at + 8, xs);
  }

  lemma SizedPartsAre(xs: seq<int>)
    ensures SizedParts(xs) == [Size(8 * |xs|), PutWords(Size64, xs)]
  {
  }

  // Identifier and event count of 4 bytes, the size of the epoch line, its ranks, its clocks.
  ghost predicate HeadAt(bytes: seq<Byte>, at: nat, img: Image) {
    && Has(bytes, at, PutWord(Int32, img.id)) && Has(bytes, at + 4, PutWord(Int32, img.count))
    && SizedAt(bytes, at + 8, img.epochRanks)
    && HasWords(bytes, at + 16 + 8 * |img.epochRanks|, Size64, img.epochClocks)
  }

  lemma HeadLayout(bytes: seq<Byte>, at: nat, img: Image)
    requires Has(bytes, at, Flat(HeadParts(img))) && |img.epochRanks| == |img.epochClocks|
    ensures HeadAt(bytes, at, img) && |Flat(HeadParts(img))| == 16 + 16 * |img.epochRanks|
  {
    HeadSections(img);
    hide Flat, PutWords, PutWord, Has, HasWords, HeadParts;
    var ranks, clocks := PutWords(Size64, img.epochRanks), PutWords(Size64, img.epochClocks);
    var size8 := Size(8 * |img.epochRanks|);
    HasSplit(bytes, at, PutWord(Int32, img.id), PutWord(Int32, img.count) + (size8 + (ranks + clocks)));
    HasSplit(bytes, at + 4, PutWord(Int32, img.count), size8 + (ranks + clocks));
    HasSplit(bytes, at + 8, size8, ranks + clocks);
    HasSplit(bytes, at + 16, ranks, clocks);
    WordsAt(bytes, at + 16, Size64, img.epochRanks);
    WordsAt(bytes, at + 16 + 8 * |img.epochRanks|, Size64, img.epochClocks);
  }

  lemma MatchedLayout(bytes: seq<Byte>, at: nat, img: Image)
    requires Has(bytes, at, Flat(MatchedParts(img)))
    ensures Has(bytes, at, PutWord(Size64, 4 * |img.matched|)) && HasWords(bytes, at + 8, Int32, img.matched)
    ensures |Flat(MatchedParts(img))| == 8 + 4 * |img.matched|
  {
    hide PutWords, PutWord, Flat, Has, HasWords;
    TwoParts(MatchedParts(img));
    HasSplit(bytes, at, Size(4 * |img.matched|), PutWords(Int32, img.matched));
    WordsAt(bytes, at + 8, Int32, img.matched);
  }

  // Where everything of a table is in its bytes.
  lemma TableLayout(bytes: seq<Byte>, at: nat, img: Image)
    requires Has(bytes, at, Flat(TableParts(img))) && |img.epochRanks| == |img.epochClocks|
    ensures HeadAt(bytes, at, img)
    ensures var prev := at + 16 + 16 * |img.epochRanks|;
      var index := prev + 16 + 8 * |img.withPrevious|;
      var ids := index + 16 + 8 * |img.matchedIndex|;
      var counts := ids + 8 + 8 * |img.unmatchedIds|;
      var moves := counts + 8 + 8 * |img.unmatchedCounts|;
      && CountedAt(bytes, prev, img.withPrevious) && CountedAt(bytes, index, img.matchedIndex)
      && SizedAt(bytes, ids, img.unmatchedIds) && SizedAt(bytes, counts, img.unmatchedCounts)
      && Has(bytes, moves, PutWord(Size64, 4 * |img.matched|)) && HasWords(bytes, moves + 8, Int32, img.matched)
      && |Flat(TableParts(img))| == moves + 8 + 4 * |img.matched| - at
  {
    hide Flat, Has, HeadParts, CountedParts, SizedParts, MatchedParts, TableParts, HeadAt, CountedAt, SizedAt,
         HasWords, PutWord;
    TableSections(img);
    var h, w, x := Flat(HeadParts(img)), Flat(CountedParts(img.withPrevious)), Flat(CountedParts(img.matchedIndex));
    var u, c, m :=
      Flat(SizedParts(img.unmatchedIds)), Flat(SizedParts(img.unmatchedCounts)), Flat(MatchedParts(img));
    FourSections(bytes, at, h, w, x, u + (c + m));
    HeadLayout(bytes, at, img);
    CountedLayout(bytes, at + |h|, img.withPrevious);
    CountedLayout(bytes, at + |h| + |w|, img.matchedIndex);
    var rest := at + |h| + |w| + |x|;
    HasSplit(bytes, rest, u, c + m);
    HasSplit(bytes, rest + |u|, c, m);
    SizedLayout(bytes, rest, img.unmatchedIds);
    SizedLayout(bytes, rest + |u|, img.unmatchedCounts);
    MatchedLayout(bytes, rest + |u| + |c|, img);
  }

  // And of a table as it is encoded: the two vectors of positions are predicted, the others are not.
  lemma EncodedLayout(bytes: seq<Byte>, at: nat, img: Image)
    requires Has(bytes, at, Flat(TableParts(Coded(img)))) && |img.epochRanks| == |img.epochClocks|
    ensures HeadAt(bytes, at, img)
    ensures var prev := at + 16 + 16 * |img.epochRanks|;
      var index := prev + 16 + 8 * |img.withPrevious|;
      var ids := index + 16 + 8 * |img.matchedIndex|;
      var counts := ids + 8 + 8 * |img.unmatchedIds|;
      var moves := counts + 8 + 8 * |img.unmatchedCounts|;
      && CountedAt(bytes, prev, Predicted(Size64, img.withPrevious)) && CountedAt(bytes, index, img.matchedIndex)
      && SizedAt(bytes, ids, Predicted(Size64, img.unmatchedIds)) && SizedAt(bytes, counts, img.unmatchedCounts)
      && Has(bytes, moves, PutWord(Size64, 4 * |img.matched|)) && HasWords(bytes, moves + 8, Int32, img.matched)
  {
    hide Flat, Has, TableParts, CountedAt, SizedAt, HasWords, PutWord, Predicted;
    TableLayout(bytes, at, Coded(img));
  }

  lemma FourSections(bytes: seq<Byte>, at: nat, a: seq<Byte>, b: seq<Byte>, c: seq<Byte>, d: seq<Byte>)
    requires Has(bytes, at, a + (b + (c + d)))
    ensures Has(bytes, at, a) && Has(bytes, at + |a|, b) && Has(bytes, at + |a| + |b|, c)
    ensures Has(bytes, at + |a| + |b| + |c|, d)
  {
    hide Has;
    HasSplit(bytes, at, a, b + (c + d));
    HasSplit(bytes, at + |a|, b, c + d);
    HasSplit(bytes, at + |a| + |b|, c, d);
  }

  // One table: every vector comes back as it was before it was coded, and the cursor ends where
  // the table's bytes end.
  method ReadTable(bytes: seq<Byte>, at: nat, ghost raw: Image) returns (img: Image, at': nat)
    requires Writable(raw) && Has(bytes, at, Flat(TableParts(Coded(raw))))
    ensures img == raw && at' == at + |Flat(TableParts(Coded(raw)))|
  {
    hide Flat, Has, HeadParts, CountedParts, SizedParts, MatchedParts, TableParts, Predicted, Unpredicted, VectorFits,
         Writable;
    ghost var coded := Coded(raw);
    CodedWritable(raw);
    TableSections(coded);
    ghost var h, w, x :=
      Flat(HeadParts(coded)), Flat(CountedParts(coded.withPrevious)), Flat(CountedParts(coded.matchedIndex));
    ghost var u, c, m :=
      Flat(SizedParts(coded.unmatchedIds)), Flat(SizedParts(coded.unmatchedCounts)), Flat(MatchedParts(coded));
    FourSections(bytes, at, h, w, x, u + (c + m));
    var id, count, epochRanks, epochClocks, withPrevious, matchedIndex, unmatchedIds, unmatchedCounts, matched;
    id, count, epochRanks, epochClocks, at' := ReadHead(bytes, at, coded);
    withPrevious, at' := ReadCounted(bytes, at', coded.withPrevious);
    withPrevious := UnpredictCopy(withPrevious);
    matchedIndex, at' := ReadCounted(bytes, at', coded.matchedIndex);
    unmatchedIds, unmatchedCounts, matched, at' := ReadUnmatchedAndMoves(bytes, at', coded);
    unmatchedIds := UnpredictCopy(unmatchedIds);
    img :=
      Image(id, count, epochRanks, epochClocks, withPrevious, matchedIndex, unmatchedIds, unmatchedCounts, matched);
  }

  method ReadUnmatchedAndMoves(bytes: seq<Byte>, at: nat, ghost img: Image)
    returns (unmatchedIds: seq<int>, unmatchedCounts: seq<int>, matched: seq<int>, at': nat)
    requires Writable(img)
    requires Has(bytes, at,
      Flat(SizedParts(img.unmatchedIds)) + (Flat(SizedParts(img.unmatchedCounts)) + Flat(MatchedParts(img))))
    ensures unmatchedIds == img.unmatchedIds && unmatchedCounts == img.unmatchedCounts && matched == img.matched
    ensures at' ==
      at + |Flat(SizedParts(img.unmatchedIds)) + (Flat(SizedParts(img.unmatchedCounts)) + Flat(MatchedParts(img)))|
  {
    hide Flat, Has, SizedParts, MatchedParts;
    ghost var u, c, m :=
      Flat(SizedParts(img.unmatchedIds)), Flat(SizedParts(img.unmatchedCounts)), Flat(MatchedParts(img));
    HasSplit(bytes, at, u, c + m);
    unmatchedIds, at' := ReadSized(bytes, at, img.unmatchedIds);
    HasSplit(bytes, at', c, m);
    unmatchedCounts, at' := ReadSized(bytes, at', img.unmatchedCounts);
    matched, at' := ReadMatched(bytes, at', img);
  }

  lemma CodedWritable(img: Image)
    requires Writable(img)
    ensures Writable(Coded(img)) && VectorFits(Coded(img).withPrevious) && VectorFits(Coded(img).unmatchedIds)
    ensures Unpredicted(Size64, Coded(img).withPrevious) == img.withPrevious
    ensures Unpredicted(Size64, Coded(img).unmatchedIds) == img.unmatchedIds
    ensures VectorFits(img.matchedIndex) && VectorFits(img.unmatchedCounts)
  {
    hide Unpredicted;
    RoundTripSize(img.withPrevious);
    RoundTripSize(img.unmatchedIds);
  }

  ghost predicate DistinctIds(tables: seq<Image>) {
    forall i, j :: 0 <= i < j < |tables| ==> tables[i].id != tables[j].id
  }

  ghost predicate IdAmong(tables: seq<Image>, i: nat, id: int) {
    exists j :: 0 <= j < i <= |tables| && tables[j].id == id
  }

  // The map holds the first i tables under their ids, and nothing else.
  ghost predicate Restored(tables: seq<Image>, i: nat, decoded: map<int, Image>) {
    && i <= |tables|
    && (forall j :: 0 <= j < i ==> tables[j].id in decoded && decoded[tables[j].id] == tables[j])
    && (forall id :: id in decoded ==> IdAmong(tables, i, id))
  }

  lemma RestoredNext(tables: seq<Image>, i: nat, decoded: map<int, Image>)
    requires Restored(tables, i, decoded) && i < |tables| && DistinctIds(tables)
    ensures Restored(tables, i + 1, decoded[tables[i].id := tables[i]])
  {
    var decoded' := decoded[tables[i].id := tables[i]];
    forall id | id in decoded' ensures IdAmong(tables, i + 1, id) {
      if id == tables[i].id {
        assert tables[i].id == id;
      } else {
        assert IdAmong(tables, i, id);
      }
    }
  }

  lemma TableNotEmpty(img: Image)
    ensures Flat(TableParts(img)) != []
  {
    TableSections(img);
    HeadSections(img);
  }

  lemma ChunkHead(bytes: seq<Byte>, at: nat, tables: seq<Image>, i: nat)
    requires at <= |bytes| && i <= |tables| && bytes[at..] == ChunkBytes(CodedAll(tables[i..]))
    ensures at == |bytes| <==> i == |tables|
    ensures i < |tables| ==>
      var part := Flat(TableParts(Coded(tables[i])));
      Has(bytes, at, part) && part != [] && bytes[at + |part|..] == ChunkBytes(CodedAll(tables[i + 1..]))
  {
    hide Flat, TableParts, Coded;
    if i < |tables| {
      var rest := CodedAll(tables[i..]);
      var part := Flat(TableParts(Coded(tables[i])));
      assert rest[0] == Coded(tables[i]) && rest[1..] == CodedAll(tables[i + 1..]);
      TableNotEmpty(Coded(tables[i]));
      assert bytes[at..] == part + ChunkBytes(CodedAll(tables[i + 1..]));
      assert bytes[at..][..|part|] == part && bytes[at..][|part|..] == bytes[at + |part|..];
    }
  }

  // The decode loop walks exactly the bytes that were queued and restores every table. The
  // inconsistent-size error cannot happen.
  method Decode(bytes: seq<Byte>, ghost tables: seq<Image>) returns (decoded: map<int, Image>, error: bool)
    requires forall i :: 0 <= i < |tables| ==> Writable(tables[i])
    requires DistinctIds(tables) && bytes == ChunkBytes(CodedAll(tables))
    ensures !error && Restored(tables, |tables|, decoded)
  {
    hide Flat, Has, Writable, Coded, ChunkBytes, CodedAll, TableParts;
    decoded := map[];
    ghost var i := 0;
    var at := 0;
    assert bytes[0..] == bytes && tables[0..] == tables;
    ChunkHead(bytes, at, tables, i);
    while at < |bytes|
      invariant i <= |tables| && at <= |bytes| && bytes[at..] == ChunkBytes(CodedAll(tables[i..]))
      invariant (at == |bytes| <==> i == |tables|) && Restored(tables, i, decoded)
      decreases |bytes| - at
    {
      ChunkHead(bytes, at, tables, i);
      var img, next := ReadTable(bytes, at, tables[i]);
      RestoredNext(tables, i, decoded);
      decoded := decoded[img.id := img];
      HasGives(bytes, at, Flat(TableParts(Coded(tables[i]))));
      ChunkHead(bytes, next, tables, i + 1);
      at := next;
      i := i + 1;
    }
    error := at != |bytes|;
  }

  // ---------------------------------------------------------------- the record file

  // Each chunk with its size in front, as they are appended to the file.
  function Framed(chunk: seq<Byte>): seq<Byte> {
    Size(|chunk|) + chunk
  }

  function FramedFile(chunks: seq<seq<Byte>>): seq<Byte> {
    if chunks == [] then [] else FramedFile(chunks[..|chunks| - 1]) + Framed(chunks[|chunks| - 1])
  }

  lemma FramedSnoc(chunks: seq<seq<Byte>>, chunk: seq<Byte>)
    ensures FramedFile(chunks + [chunk]) == FramedFile(chunks) + Framed(chunk)
  {
    assert (chunks + [chunk])[..|chunks|] == chunks;
  }

  class RecordFile {
    var bytes: seq<Byte>

    constructor ()
      ensures bytes == []
    {
      bytes := [];
    }

    // write_record_file, without compression: the sizes of the queued buffers are added up and written
    // in front of them.
    method WriteRecordFile(queue: seq<seq<Byte>>)
      modifies this
      ensures bytes == old(bytes) + Framed(Flat(queue))
      ensures bytes == old(bytes) + (PutWord(Size64, |Flat(queue)|) + Flat(queue))
    {
      hide Flat, PutWord;
      var total := 0;
      assert queue[0..] == queue;
      for i := 0 to |queue|
        invariant total + |Flat(queue[i..])| == |Flat(queue)| && bytes == old(bytes)
      {
        FlatFrom(queue, i);
        total := total + |queue[i]|;
      }
      NothingFlat(queue[|queue|..]);
      assert old(bytes) + Framed(Flat(queue)) == old(bytes) + Size(total) + Flat(queue);
      bytes := bytes + Size(total);
      for i := 0 to |queue|
        invariant bytes + Flat(queue[i..]) == old(bytes) + Framed(Flat(queue))
      {
        FlatFrom(queue, i);
        Reassociate(bytes, queue[i], Flat(queue[i + 1..]));
        bytes := bytes + queue[i];
      }
    }

    // The separator that write_footer puts after the last chunk.
    method WriteSeparator()
      modifies this
      ensures bytes == old(bytes) + Size(0)
    {
      bytes := bytes + Size(0);
    }
  }

  lemma NothingFlat(parts: seq<seq<Byte>>)
    requires parts == []
    ensures Flat(parts) == []
  {
  }

  // read_record_file, without compression: the size word, then that many bytes; a zero size is the
  // separator, after which there is no more record. The error is the abort for an empty read.
  method ReadRecordFile(bytes: seq<Byte>, at: nat, ghost chunk: seq<Byte>)
    returns (payload: seq<Byte>, noMore: bool, at': nat, error: bool)
    requires Has(bytes, at, Framed(chunk)) && |chunk| < TWO_64
    ensures !error && (noMore <==> chunk == []) && payload == chunk && at' == at + |Framed(chunk)|
  {
    hide PutWord;
    HasSplit(bytes, at, Size(|chunk|), chunk);
    error := at >= |bytes|;
    var chunkSize;
    chunkSize, at' := ReadWord(Size64, bytes, at, |chunk|);
    if chunkSize == 0 {
      return [], true, at', error;
    }
    payload, noMore := bytes[at'..at' + chunkSize], false;
    at' := at' + chunkSize;
  }

  // In a file that ends with the separator, the k-th chunk is where the ones before it end; the
  // separator reads as an empty chunk.
  lemma {:induction false} ChunkAt(chunks: seq<seq<Byte>>, end: seq<Byte>, k: nat)
    requires k <= |chunks|
    ensures Has(FramedFile(chunks) + (Size(0) + end), |FramedFile(chunks[..k])|,
                if k < |chunks| then Framed(chunks[k]) else Size(0))
    decreases |chunks|
  {
    hide PutWord, Framed;
    if k == |chunks| {
      assert chunks[..k] == chunks;
      HasAfter(FramedFile(chunks), Size(0), end);
    } else {
      var init, last := chunks[..|chunks| - 1], chunks[|chunks| - 1];
      var rest := Size(0) + end;
      Reassociate(FramedFile(init), Framed(last), rest);
      if k == |init| {
        assert chunks[..k] == init;
        HasAfter(FramedFile(init), Framed(last), rest);
      } else {
        assert init[..k] == chunks[..k] && init[k] == chunks[k];
        ChunkBefore(init, k);
        HasLonger(FramedFile(init), Framed(last) + rest, |FramedFile(init[..k])|, Framed(init[k]));
      }
    }
  }

  lemma HasAfter(before: seq<Byte>, part: seq<Byte>, end: seq<Byte>)
    ensures Has(before + (part + end), |before|, part)
  {
    assert (before + (part + end))[|before|..|before| + |part|] == part;
  }

  lemma HasLonger(bytes: seq<Byte>, more: seq<Byte>, at: nat, part: seq<Byte>)
    requires Has(bytes, at, part)
    ensures Has(bytes + more, at, part)
  {
    assert (bytes + more)[at..at + |part|] == bytes[at..at + |part|];
  }

  lemma {:induction false} ChunkBefore(chunks: seq<seq<Byte>>, k: nat)
    requires k < |chunks|
    ensures Has(FramedFile(chunks), |FramedFile(chunks[..k])|, Framed(chunks[k]))
    decreases |chunks|
  {
    hide Framed;
    var init, last := chunks[..|chunks| - 1], chunks[|chunks| - 1];
    if k == |init| {
      assert chunks[..k] == init && Framed(last) + [] == Framed(last);
      HasAfter(FramedFile(init), Framed(last), []);
    } else {
      assert init[..k] == chunks[..k] && init[k] == chunks[k];
      ChunkBefore(init, k);
      HasLonger(FramedFile(init), Framed(last), |FramedFile(init[..k])|, Framed(init[k]));
    }
  }

  // What can be written as one chunk of a file.
  ghost predicate StorableChunk(tables: seq<Image>) {
    && tables != [] && DistinctIds(tables) && (forall i :: 0 <= i < |tables| ==> Writable(tables[i]))
    && |ChunkBytes(CodedAll(tables))| < TWO_64
  }

  function Payloads(chunks: seq<seq<Image>>): (r: seq<seq<Byte>>)
    ensures |r| == |chunks|
    ensures forall k :: 0 <= k < |chunks| ==> r[k] == ChunkBytes(CodedAll(chunks[k]))
  {
    seq(|chunks|, k requires 0 <= k < |chunks| => ChunkBytes(CodedAll(chunks[k])))
  }

  // Every chunk of tables is encoded and appended, and the separator ends the file.
  method WriteChunks(chunks: seq<seq<Image>>) returns (bytes: seq<Byte>)
    ensures bytes == FramedFile(Payloads(chunks)) + Size(0)
  {
    hide Flat, Framed, ChunkBytes, CodedAll, PutWord;
    var file := new RecordFile();
    for k := 0 to |chunks|
      invariant file.bytes == FramedFile(Payloads(chunks)[..k])
    {
      var writer := new ChunkWriter();
      writer.Encode(chunks[k]);
      NothingFlat([]);
      assert [] + ChunkBytes(CodedAll(chunks[k])) == ChunkBytes(CodedAll(chunks[k]));
      file.WriteRecordFile(writer.writeQueue);
      FramedSnoc(Payloads(chunks)[..k], Payloads(chunks)[k]);
      assert Payloads(chunks)[..k + 1] == Payloads(chunks)[..k] + [Payloads(chunks)[k]];
    }
    assert Payloads(chunks)[..|chunks|] == Payloads(chunks);
    file.WriteSeparator();
    bytes := file.bytes;
  }

  lemma NotEmptyChunk(tables: seq<Image>)
    requires StorableChunk(tables)
    ensures ChunkBytes(CodedAll(tables)) != []
  {
    hide Flat, TableParts, Coded;
    assert CodedAll(tables)[0] == Coded(tables[0]);
    TableNotEmpty(Coded(tables[0]));
  }

  // Chunks are read and decoded until the separator.
  method ReadChunks(bytes: seq<Byte>, ghost chunks: seq<seq<Image>>)
    returns (decoded: seq<map<int, Image>>, error: bool)
    requires forall k :: 0 <= k < |chunks| ==> StorableChunk(chunks[k])
    requires bytes == FramedFile(Payloads(chunks)) + Size(0)
    ensures !error && |decoded| == |chunks|
    ensures forall k :: 0 <= k < |chunks| ==> Restored(chunks[k], |chunks[k]|, decoded[k])
  {
    hide Flat, Framed, ChunkBytes, CodedAll, PutWord, Writable, Restored, FramedFile, Has;
    decoded, error := [], false;
    ghost var payloads, k := Payloads(chunks), 0;
    NoChunksYet(payloads);
    var at, noMore := 0, false;
    while !noMore
      invariant k <= |chunks| && at == |FramedFile(payloads[..k])| && !error && |decoded| == k
      invariant noMore ==> k == |chunks|
      invariant forall j :: 0 <= j < k ==> Restored(chunks[j], |chunks[j]|, decoded[j])
      decreases |chunks| - k, !noMore
    {
      assert Size(0) + [] == Size(0);
      ChunkAt(payloads, [], k);
      EmptyFrame();
      ghost var chunk := if k < |chunks| then payloads[k] else [];
      if k < |chunks| {
        StorableGives(chunks[k]);
        NextOffset(payloads, k);
      }
      var payload, next, broken;
      payload, noMore, next, broken := ReadRecordFile(bytes, at, chunk);
      error := error || broken;
      if !noMore {
        var tables;
        tables, broken := Decode(payload, chunks[k]);
        decoded, at, error := decoded + [tables], next, error || broken;
        k := k + 1;
      }
    }
  }

  lemma NoChunksYet(chunks: seq<seq<Byte>>)
    ensures FramedFile(chunks[..0]) == []
  {
  }

  lemma EmptyFrame()
    ensures Framed([]) == Size(0)
  {
    assert Size(0) + [] == Size(0);
  }

  lemma StorableGives(tables: seq<Image>)
    requires StorableChunk(tables)
    ensures DistinctIds(tables) && (forall i :: 0 <= i < |tables| ==> Writable(tables[i]))
    ensures ChunkBytes(CodedAll(tables)) != [] && |ChunkBytes(CodedAll(tables))| < TWO_64
  {
    NotEmptyChunk(tables);
  }

  lemma NextOffset(chunks: seq<seq<Byte>>, k: nat)
    requires k < |chunks|
    ensures |FramedFile(chunks[..k + 1])| == |FramedFile(chunks[..k])| + |Framed(chunks[k])|
  {
    hide Framed;
    FramedSnoc(chunks[..k], chunks[k]);
    assert chunks[..k + 1] == chunks[..k] + [chunks[k]];
  }

  // A record file of any number of chunks reads back as the chunks it was written from.
  method WriteThenRead(chunks: seq<seq<Image>>) returns (decoded: seq<map<int, Image>>, error: bool)
    requires forall k :: 0 <= k < |chunks| ==> StorableChunk(chunks[k])
    ensures !error && |decoded| == |chunks|
    ensures forall k :: 0 <= k < |chunks| ==> Restored(chunks[k], |chunks[k]|, decoded[k])
  {
    hide StorableChunk, Restored, FramedFile, Payloads, PutWord;
    var bytes := WriteChunks(chunks);
    decoded, error := ReadChunks(bytes, chunks);
  }
}
