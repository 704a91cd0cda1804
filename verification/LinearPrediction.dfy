// Second-difference coding of integer vectors, in place, in the arithmetic of the element type.
// Models compress_by_linear_prediction and decompress_by_linear_prediction of
// rempi_compression_util.cpp, and the sign extension of rempi_copy_vec_int.
module LinearPrediction {

  // The element type of the template: int (two's complement, 32 bits) or size_t (64 bits).
  datatype Width = Int32 | Size64

  const TWO_31: int := 0x8000_0000
  const TWO_32: int := 0x1_0000_0000
  const TWO_64: int := 0x1_0000_0000_0000_0000

  function Wrap(w: Width, x: int): int {
    match w
    case Int32 => (x + TWO_31) % TWO_32 - TWO_31
    case Size64 => x % TWO_64
  }

  predicate InRange(w: Width, x: int) {
    match w
    case Int32 => -TWO_31 <= x < TWO_31
    case Size64 => 0 <= x < TWO_64
  }

  predicate AllInRange(w: Width, s: seq<int>) {
    forall i :: 0 <= i < |s| ==> InRange(w, s[i])
  }

  function At(s: seq<int>, i: int): int
    requires i < |s|
  {
    if i < 0 then 0 else s[i]
  }

  function Predicted(w: Width, s: seq<int>): (r: seq<int>)
    ensures |r| == |s|
  {
    seq(|s|, i requires 0 <= i < |s| => Wrap(w, s[i] - 2 * At(s, i - 1) + At(s, i - 2)))
  }

  function Unpredicted(w: Width, s: seq<int>): (r: seq<int>)
    ensures |r| == |s|
  {
    if s == [] then []
    else
      var init := Unpredicted(w, s[..|s| - 1]);
      init + [Wrap(w, s[|s| - 1] + 2 * At(init, |init| - 1) - At(init, |init| - 2))]
  }

  // (size_t) of an int: the same residue, read without sign.
  function SignExtended(s: seq<int>): (r: seq<int>)
    ensures |r| == |s|
  {
    seq(|s|, i requires 0 <= i < |s| => Wrap(Size64, s[i]))
  }

  method CompressByLinearPrediction(w: Width, vec: array<int>)
    modifies vec
    ensures vec[..] == Predicted(w, old(vec[..]))
    // the difference of neighbouring differences, as if two zeros came first
    ensures forall i :: 0 <= i < vec.Length ==>
      vec[i] == Wrap(w, old(vec[i]) - 2 * (if i < 1 then 0 else old(vec[i - 1])) + if i < 2 then 0 else old(vec[i - 2]))
  {
    ghost var s := vec[..];
    var t0, t1, t2 := 0, 0, 0;
    for i := 0 to vec.Length
      invariant t1 == At(s, i - 1) && t2 == At(s, i - 2)
      invariant forall k :: 0 <= k < i ==> vec[k] == Predicted(w, s)[k]
      invariant forall k :: i <= k < vec.Length ==> vec[k] == s[k]
    {
      t0 := vec[i];
      vec[i] := Wrap(w, t0 - 2 * t1 + t2);
      t2 := t1;
      t1 := t0;
    }
  }

  lemma UnpredictedNext(w: Width, s: seq<int>, i: nat)
    requires i < |s|
    ensures var done := Unpredicted(w, s[..i]);
            Unpredicted(w, s[..i + 1]) == done + [Wrap(w, s[i] + 2 * At(done, i - 1) - At(done, i - 2))]
  {
    assert s[..i + 1][..i] == s[..i];
  }

  method DecompressByLinearPrediction(w: Width, vec: array<int>)
    modifies vec
    ensures vec[..] == Unpredicted(w, old(vec[..]))
  {
    ghost var s := vec[..];
    var t0, t1, t2 := 0, 0, 0;
    for i := 0 to vec.Length
      invariant vec[..i] == Unpredicted(w, s[..i])
      invariant t1 == At(vec[..i], i - 1) && t2 == At(vec[..i], i - 2)
      invariant forall k :: i <= k < vec.Length ==> vec[k] == s[k]
    {
      ghost var done := vec[..i];
      UnpredictedNext(w, s, i);
      t0 := vec[i];
      vec[i] := Wrap(w, t0 + 2 * t1 - t2);
      assert vec[..i + 1] == done + [vec[i]];
      t2 := t1;
      t1 := vec[i];
    }
    assert s[..vec.Length] == s && vec[..vec.Length] == vec[..];
  }

  // A vector that grows evenly is coded as zeros from its third entry on.
  lemma EvenIsZero(w: Width, s: seq<int>, i: nat)
    requires 2 <= i < |s| && s[i] - s[i - 1] == s[i - 1] - s[i - 2]
    ensures Predicted(w, s)[i] == 0
  {
    assert s[i] - 2 * At(s, i - 1) + At(s, i - 2) == 0;
  }

  // ---------------------------------------------------------------- round trips

  // `x` and `s` agree modulo 2^32 / 2^64; the quotient is kept to stay in linear arithmetic.
  lemma WrapUndone(w: Width, x: int, s: int, k: int)
    requires InRange(w, s) && x == s + k * (if w == Int32 then TWO_32 else TWO_64)
    ensures Wrap(w, x) == s
  {
  }

  lemma WrapQuotient(w: Width, x: int) returns (k: int)
    ensures Wrap(w, x) == x - k * (if w == Int32 then TWO_32 else TWO_64)
  {
    match w
    case Int32 => k := (x + TWO_31) / TWO_32;
    case Size64 => k := x / TWO_64;
  }

  lemma PredictedPrefix(w: Width, s: seq<int>, n: nat)
    requires n <= |s|
    ensures Predicted(w, s)[..n] == Predicted(w, s[..n])
  {
  }

  // Decoding one more element from the already decoded prefix.
  lemma DecodeOne(s: seq<int>, n: nat)
    requires AllInRange(Size64, s) && n < |s|
    ensures Wrap(Size64, Predicted(Size64, s)[n] + 2 * At(s[..n], n - 1) - At(s[..n], n - 2)) == s[n]
  {
    var k := WrapQuotient(Size64, s[n] - 2 * At(s, n - 1) + At(s, n - 2));
    WrapUndone(Size64, Predicted(Size64, s)[n] + 2 * At(s, n - 1) - At(s, n - 2), s[n], -k);
  }

  // Decoding a size_t vector gives it back, modulo 2^64 at every step.
  lemma {:induction false} RoundTripSize(s: seq<int>)
    requires AllInRange(Size64, s)
    ensures Unpredicted(Size64, Predicted(Size64, s)) == s
  {
    if s != [] {
      var n := |s| - 1;
      PredictedPrefix(Size64, s, n);
      RoundTripSize(s[..n]);
      DecodeOne(s, n);
      assert s == s[..n] + [s[n]];
    }
  }

  ghost predicate SameMod32(x: int, s: int) {
    exists k :: x == s + Times32(k)
  }

  function Times32(k: int): int {
    k * TWO_32
  }

  lemma {:induction false} DecodedMod32(s: seq<int>)
    requires AllInRange(Int32, s)
    ensures forall i :: 0 <= i < |s| ==> SameMod32(Unpredicted(Size64, SignExtended(Predicted(Int32, s)))[i], s[i])
  {
    if s != [] {
      var n := |s| - 1;
      var e := SignExtended(Predicted(Int32, s));
      PredictedPrefix(Int32, s, n);
      DecodedMod32(s[..n]);
      assert e[..n] == SignExtended(Predicted(Int32, s[..n]));
      DecodedLast(s);
    }
  }

  lemma DecodedLast(s: seq<int>)
    requires s != []
    requires var init := Unpredicted(Size64, SignExtended(Predicted(Int32, s))[..|s| - 1]);
      forall i :: 0 <= i < |s| - 1 ==> SameMod32(init[i], s[i])
    ensures SameMod32(Unpredicted(Size64, SignExtended(Predicted(Int32, s)))[|s| - 1], s[|s| - 1])
  {
    var n := |s| - 1;
    var e := SignExtended(Predicted(Int32, s));
    var init := Unpredicted(Size64, e[..n]);
    var d := s[n] - 2 * At(s, n - 1) + At(s, n - 2);
    var k1 := QuotientAt(init, s, n - 1);
    var k2 := QuotientAt(init, s, n - 2);
    var q32 := WrapQuotient(Int32, d);
    var q64 := WrapQuotient(Size64, Wrap(Int32, d));
    var u := e[n] + 2 * At(init, n - 1) - At(init, n - 2);
    var r := WrapQuotient(Size64, u);
    assert Wrap(Size64, u) == s[n] + Times32(2 * k1 - k2 - q32 - TWO_32 * (q64 + r));
  }

  lemma QuotientAt(u: seq<int>, s: seq<int>, i: int) returns (k: int)
    requires i < |u| <= |s|
    requires forall j :: 0 <= j < |u| ==> SameMod32(u[j], s[j])
    ensures At(u, i) == At(s, i) + Times32(k)
  {
    if i < 0 {
      k := 0;
    } else {
      assert SameMod32(u[i], s[i]);
      k :| u[i] == s[i] + Times32(k);
    }
  }

  // An int vector, predicted as int, stored, sign-extended to size_t, decoded as size_t and cast
  // back to int is the original, negative entries included.
  lemma RoundTripInt(s: seq<int>)
    requires AllInRange(Int32, s)
    ensures var decoded := Unpredicted(Size64, SignExtended(Predicted(Int32, s)));
      |decoded| == |s| && forall i :: 0 <= i < |s| ==> Wrap(Int32, decoded[i]) == s[i]
  {
    var decoded := Unpredicted(Size64, SignExtended(Predicted(Int32, s)));
    DecodedMod32(s);
    forall i | 0 <= i < |s| ensures Wrap(Int32, decoded[i]) == s[i] {
      var k := QuotientAt(decoded, s, i);
      WrapUndone(Int32, decoded[i], s[i], k);
    }
  }

  // Below 2^29 no step of the int encoder leaves the range of int, so nothing wraps there.
  lemma NoOverflow(s: seq<int>, i: nat)
    requires i < |s| && forall k :: 0 <= k < |s| ==> -0x2000_0000 < s[k] < 0x2000_0000
    ensures InRange(Int32, 2 * At(s, i - 1)) && InRange(Int32, s[i] - 2 * At(s, i - 1))
    ensures Predicted(Int32, s)[i] == s[i] - 2 * At(s, i - 1) + At(s, i - 2)
  {
  }
}
