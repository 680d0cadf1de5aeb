/**
 * Byte order: the in-place swaps of `BBEndiannessConverter`, and the bit arithmetic with which the
 * buffer cuts integers into bytes and puts them together again. Java integers are modelled by their
 * two's complement bit patterns, so shifts and sums wrap exactly as they do there.
 */
module Endian {
  datatype Endianness = BE | LE

  function Reverse(s: seq<bv8>): (r: seq<bv8>)
    ensures |r| == |s|
    ensures forall i :: 0 <= i < |s| ==> r[i] == s[|s| - 1 - i]
  {
    seq(|s|, i requires 0 <= i < |s| => s[|s| - 1 - i])
  }

  lemma {:induction false} ReverseTwice(s: seq<bv8>)
    ensures Reverse(Reverse(s)) == s
  {}

  method Swap2Bytes(bytes: array<bv8>)
    requires bytes.Length == 2
    modifies bytes
    ensures bytes[..] == Reverse(old(bytes[..]))
  {
    var b := bytes[0];
    bytes[0] := bytes[1];
    bytes[1] := b;
  }

  method Swap4BytesAt(bytes: array<bv8>, offset: nat)
    requires offset + 4 <= bytes.Length
    modifies bytes
    ensures bytes[offset..offset + 4] == Reverse(old(bytes[offset..offset + 4]))
    ensures bytes[..offset] == old(bytes[..offset]) && bytes[offset + 4..] == old(bytes[offset + 4..])
  {
    var b := bytes[offset];
    bytes[offset] := bytes[offset + 3];
    bytes[offset + 3] := b;
    b := bytes[offset + 1];
    bytes[offset + 1] := bytes[offset + 2];
    bytes[offset + 2] := b;
  }

  method Swap4Bytes(bytes: array<bv8>)
    requires bytes.Length == 4
    modifies bytes
    ensures bytes[..] == Reverse(old(bytes[..]))
  {
    assert bytes[..] == bytes[0..4];
    Swap4BytesAt(bytes, 0);
    assert bytes[..] == bytes[0..4];
  }

  method SwapHalves(bytes: array<bv8>)
    requires bytes.Length == 8
    modifies bytes
    ensures bytes[..] == old(bytes[4..]) + old(bytes[..4])
  {
    ghost var h := bytes[..];
    for i := 0 to 4
      invariant forall k {:trigger bytes[k]} :: 0 <= k < 4 ==> bytes[k] == if k < i then h[k + 4] else h[k]
      invariant forall k {:trigger bytes[k]} :: 4 <= k < 8 ==> bytes[k] == if k < i + 4 then h[k - 4] else h[k]
    {
      var b := bytes[i];
      bytes[i] := bytes[i + 4];
      bytes[i + 4] := b;
    }
  }

  lemma {:induction false} ReverseHalves(s: seq<bv8>)
    requires |s| == 8
    ensures Reverse(s[4..]) + Reverse(s[..4]) == Reverse(s)
  {}

  /** Reverses each half, then exchanges the halves: together a reversal of all eight bytes. */
  method Swap8Bytes(bytes: array<bv8>)
    requires bytes.Length == 8
    modifies bytes
    ensures bytes[..] == Reverse(old(bytes[..]))
  {
    ghost var s := bytes[..];
    Swap4BytesAt(bytes, 0);
    assert bytes[4..] == s[4..] && bytes[..4] == bytes[0..4] && s[0..4] == s[..4];
    Swap4BytesAt(bytes, 4);
    assert bytes[4..] == bytes[4..8] && s[4..] == s[4..8];
    SwapHalves(bytes);
    ReverseHalves(s);
  }

  // ---------------------------------------------------------------- integers as bytes

  function Bytes2(v: bv16): seq<bv8> {
    [((v >> 8) & 0xFF) as bv8, (v & 0xFF) as bv8]
  }

  function Bytes4(v: bv32): seq<bv8> {
    [((v >> 24) & 0xFF) as bv8, ((v >> 16) & 0xFF) as bv8, ((v >> 8) & 0xFF) as bv8, (v & 0xFF) as bv8]
  }

  function Bytes8(v: bv64): seq<bv8> {
    [((v >> 56) & 0xFF) as bv8, ((v >> 48) & 0xFF) as bv8, ((v >> 40) & 0xFF) as bv8, ((v >> 32) & 0xFF) as bv8,
     ((v >> 24) & 0xFF) as bv8, ((v >> 16) & 0xFF) as bv8, ((v >> 8) & 0xFF) as bv8, (v & 0xFF) as bv8]
  }

  function Push(value: bv32, b: bv8): bv32 { (value << 8) + b as bv32 }

  /** The accumulation `value = (value << 8) + (b & 0xFF)` over all bytes. */
  function Accumulated(bytes: seq<bv8>): bv32 {
    if bytes == [] then 0 else Push(Accumulated(bytes[..|bytes| - 1]), bytes[|bytes| - 1])
  }

  /** The sum of eight bytes, each in its place. */
  function Sum8(a: bv8, b: bv8, c: bv8, d: bv8, e: bv8, f: bv8, g: bv8, h: bv8): bv64 {
    (a as bv64 << 56) + (b as bv64 << 48) + (c as bv64 << 40) + (d as bv64 << 32)
    + (e as bv64 << 24) + (f as bv64 << 16) + (g as bv64 << 8) + h as bv64
  }

  function Joined8(b: seq<bv8>): bv64
    requires |b| == 8
  {
    Sum8(b[0], b[1], b[2], b[3], b[4], b[5], b[6], b[7])
  }

  lemma {:induction false} AccumulatedTwo(b: seq<bv8>)
    requires |b| == 2
    ensures Accumulated(b) == Push(Push(0, b[0]), b[1])
  {
    assert b[..1][..0] == [];
    assert Accumulated(b[..1]) == Push(Accumulated(b[..1][..0]), b[0]);
  }

  lemma {:induction false} AccumulatedFour(b: seq<bv8>)
    requires |b| == 4
    ensures Accumulated(b) == Push(Push(Push(Push(0, b[0]), b[1]), b[2]), b[3])
  {
    assert b[..3][..2] == b[..2];
    AccumulatedTwo(b[..2]);
    assert Accumulated(b[..3]) == Push(Accumulated(b[..3][..2]), b[2]);
  }

  lemma {:induction false} PushTwo(v: bv16)
    ensures Push(Push(0, ((v >> 8) & 0xFF) as bv8), (v & 0xFF) as bv8) == v as bv32
  {}

  lemma {:induction false} PushFour(v: bv32)
    ensures Push(Push(Push(Push(0, ((v >> 24) & 0xFF) as bv8), ((v >> 16) & 0xFF) as bv8), ((v >> 8) & 0xFF) as bv8),
                 (v & 0xFF) as bv8) == v
  {}

  /** The cast `(short) value` of the accumulated value. */
  function Low16(value: bv32): bv16 { (value & 0xFFFF) as bv16 }

  lemma {:induction false} Low16Of(v: bv16)
    ensures Low16(v as bv32) == v
  {}

  lemma {:induction false} JoinBytes2(v: bv16)
    ensures Low16(Accumulated(Bytes2(v))) == v
  {
    AccumulatedTwo(Bytes2(v));
    PushTwo(v);
    Low16Of(v);
  }

  lemma {:induction false} JoinBytes4(v: bv32)
    ensures Accumulated(Bytes4(v)) == v
  {
    AccumulatedFour(Bytes4(v));
    PushFour(v);
  }

  lemma {:induction false} JoinBytes8(v: bv64)
    ensures Joined8(Bytes8(v)) == v
  {}

  // ---------------------------------------------------------------- which byte holds which bits

  lemma {:induction false} TopOfTwo(a: bv8, b: bv8)
    ensures ((Low16(Push(Push(0, a), b)) >> 8) & 0xFF) as bv8 == a
    ensures (Low16(Push(Push(0, a), b)) & 0xFF) as bv8 == b
  {}

  lemma {:induction false} BitsOfFour(a: bv8, b: bv8, c: bv8, d: bv8)
    ensures var v := Push(Push(Push(Push(0, a), b), c), d);
            && ((v >> 24) & 0xFF) as bv8 == a && ((v >> 16) & 0xFF) as bv8 == b
            && ((v >> 8) & 0xFF) as bv8 == c && (v & 0xFF) as bv8 == d
  {}

  lemma {:induction false} HighBitsOfEight(a: bv8, b: bv8, c: bv8, d: bv8, e: bv8, f: bv8, g: bv8, h: bv8)
    ensures var v := Sum8(a, b, c, d, e, f, g, h);
            && ((v >> 56) & 0xFF) as bv8 == a && ((v >> 48) & 0xFF) as bv8 == b
            && ((v >> 40) & 0xFF) as bv8 == c && ((v >> 32) & 0xFF) as bv8 == d
  {}

  lemma {:induction false} LowBitsOfEight(a: bv8, b: bv8, c: bv8, d: bv8, e: bv8, f: bv8, g: bv8, h: bv8)
    ensures var v := Sum8(a, b, c, d, e, f, g, h);
            && ((v >> 24) & 0xFF) as bv8 == e && ((v >> 16) & 0xFF) as bv8 == f
            && ((v >> 8) & 0xFF) as bv8 == g && (v & 0xFF) as bv8 == h
  {}

  lemma {:induction false} SplitOfJoined2(b: seq<bv8>)
    requires |b| == 2
    ensures Bytes2(Low16(Accumulated(b))) == b
  {
    AccumulatedTwo(b);
    TopOfTwo(b[0], b[1]);
  }

  lemma {:induction false} SplitOfJoined4(b: seq<bv8>)
    requires |b| == 4
    ensures Bytes4(Accumulated(b)) == b
  {
    AccumulatedFour(b);
    BitsOfFour(b[0], b[1], b[2], b[3]);
  }

  lemma {:induction false} SplitOfJoined8(b: seq<bv8>)
    requires |b| == 8
    ensures Bytes8(Joined8(b)) == b
  {
    HighBitsOfEight(b[0], b[1], b[2], b[3], b[4], b[5], b[6], b[7]);
    LowBitsOfEight(b[0], b[1], b[2], b[3], b[4], b[5], b[6], b[7]);
  }

  /** The bytes of an integer in the order the buffer stores them. */
  function Ordered(e: Endianness, bytes: seq<bv8>): (r: seq<bv8>)
    ensures |r| == |bytes|
    ensures Reverse(Reverse(bytes)) == bytes
  {
    ReverseTwice(bytes);
    if e == LE then Reverse(bytes) else bytes
  }

  lemma {:induction false} OrderedTwice(e: Endianness, bytes: seq<bv8>)
    ensures Ordered(e, Ordered(e, bytes)) == bytes
  {}

  /** Bytes in the order of the buffer: those of the lowest bits last for BE, and first for LE. */
  predicate IsLaidOut(e: Endianness, b: seq<bv8>, lowFirst: seq<bv8>) {
    |b| == |lowFirst| && forall k :: 0 <= k < |b| ==> b[k] == lowFirst[if e == BE then |b| - 1 - k else k]
  }

  lemma {:induction false} OrderedIsLaidOut(e: Endianness, lowFirst: seq<bv8>)
    ensures IsLaidOut(e, Ordered(e, Reverse(lowFirst)), lowFirst)
  {}

  /** Byte `k` has the bits from `8 * k` on. */
  function LowFirst2(v: bv16): seq<bv8> {
    [(v & 0xFF) as bv8, ((v >> 8) & 0xFF) as bv8]
  }

  predicate Holds2(e: Endianness, b: seq<bv8>, v: bv16) { IsLaidOut(e, b, LowFirst2(v)) }

  lemma {:induction false} OrderedHolds2(e: Endianness, v: bv16)
    ensures Holds2(e, Ordered(e, Bytes2(v)), v)
  {
    assert Bytes2(v) == Reverse(LowFirst2(v));
    OrderedIsLaidOut(e, LowFirst2(v));
  }

  lemma {:induction false} AccumulatedHolds2(e: Endianness, b: seq<bv8>)
    requires |b| == 2
    ensures Holds2(e, b, Low16(Accumulated(Ordered(e, b))))
  {
    OrderedTwice(e, b);
    SplitOfJoined2(Ordered(e, b));
    OrderedHolds2(e, Low16(Accumulated(Ordered(e, b))));
  }

  /** Byte `k` has the bits from `8 * k` on. */
  function LowFirst4(v: bv32): seq<bv8> {
    [(v & 0xFF) as bv8, ((v >> 8) & 0xFF) as bv8, ((v >> 16) & 0xFF) as bv8, ((v >> 24) & 0xFF) as bv8]
  }

  predicate Holds4(e: Endianness, b: seq<bv8>, v: bv32) { IsLaidOut(e, b, LowFirst4(v)) }

  lemma {:induction false} OrderedHolds4(e: Endianness, v: bv32)
    ensures Holds4(e, Ordered(e, Bytes4(v)), v)
  {
    assert Bytes4(v) == Reverse(LowFirst4(v));
    OrderedIsLaidOut(e, LowFirst4(v));
  }

  lemma {:induction false} AccumulatedHolds4(e: Endianness, b: seq<bv8>)
    requires |b| == 4
    ensures Holds4(e, b, Accumulated(Ordered(e, b)))
  {
    OrderedTwice(e, b);
    SplitOfJoined4(Ordered(e, b));
    OrderedHolds4(e, Accumulated(Ordered(e, b)));
  }

  /** Byte `k` has the bits from `8 * k` on. */
  function LowFirst8(v: bv64): seq<bv8> {
    [(v & 0xFF) as bv8, ((v >> 8) & 0xFF) as bv8, ((v >> 16) & 0xFF) as bv8, ((v >> 24) & 0xFF) as bv8,
     ((v >> 32) & 0xFF) as bv8, ((v >> 40) & 0xFF) as bv8, ((v >> 48) & 0xFF) as bv8, ((v >> 56) & 0xFF) as bv8]
  }

  predicate Holds8(e: Endianness, b: seq<bv8>, v: bv64) { IsLaidOut(e, b, LowFirst8(v)) }

  lemma {:induction false} OrderedHolds8(e: Endianness, v: bv64)
    ensures Holds8(e, Ordered(e, Bytes8(v)), v)
  {
    assert Bytes8(v) == Reverse(LowFirst8(v));
    OrderedIsLaidOut(e, LowFirst8(v));
  }

  lemma {:induction false} JoinedHolds8(e: Endianness, b: seq<bv8>)
    requires |b| == 8
    ensures Holds8(e, b, Joined8(Ordered(e, b)))
  {
    OrderedTwice(e, b);
    SplitOfJoined8(Ordered(e, b));
    OrderedHolds8(e, Joined8(Ordered(e, b)));
  }
}
