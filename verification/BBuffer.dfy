/** The byte buffer `BBuffer`: a growing array with a cursor. */
module Buffers {
  import opened Wrappers
  import opened Endian
  import opened Borders

  function Zeros(n: nat): seq<bv8> { seq(n, _ => 0) }

  /** `dst` with `src` put over its bytes from `at` on. */
  function Splice(dst: seq<bv8>, at: nat, src: seq<bv8>): seq<bv8>
    requires at + |src| <= |dst|
  {
    dst[..at] + src + dst[at + |src|..]
  }

  lemma {:induction false} GrownSplice(bytes: seq<bv8>, n: nat, src: seq<bv8>)
    requires |src| <= n
    ensures Splice(bytes + Zeros(n), |bytes|, src) == bytes + src + Zeros(n - |src|)
  {
    assert Zeros(n)[|src|..] == Zeros(n - |src|);
    assert (bytes + Zeros(n))[|bytes| + |src|..] == Zeros(n)[|src|..];
  }

  function Max0(n: int): nat { if n < 0 then 0 else n }

  /** The writes that do not throw: inside the buffer, or from its end on. */
  predicate WriteFits(size: nat, len: nat, offset: int) {
    var o := Max0(offset);
    o + len <= size || size <= o
  }

  /**
   * The buffer after `write(second, offset)`. A write past the end puts the bytes at the old end and
   * leaves the gap behind them; a write straddling the end grows the buffer and then throws.
   */
  function AfterWrite(bytes: seq<bv8>, second: seq<bv8>, offset: int): seq<bv8> {
    var o := Max0(offset);
    if o + |second| <= |bytes| then Splice(bytes, o, second)
    else if |bytes| <= o then bytes + second + Zeros(o - |bytes|)
    else bytes + Zeros(o + |second| - |bytes|)
  }

  predicate PartialFits(size: nat, len: nat, length: int, offset: int) {
    var o := Max0(offset);
    0 <= length <= len && (o + len <= size || (size <= o + length && size <= o))
  }

  /**
   * The buffer after `writePartial(second, length, offset)`. Whether the buffer has to grow is decided by
   * the size of `second`, so it can come out smaller than before, and empty of what it held; it is
   * replaced before a length the source array does not have is found out.
   */
  function AfterPartial(bytes: seq<bv8>, second: seq<bv8>, length: int, offset: int): seq<bv8> {
    var o := Max0(offset);
    if o + |second| <= |bytes| then
      if 0 <= length <= |second| then Splice(bytes, o, second[..length]) else bytes
    else if o + length < 0 then bytes
    else if o + length < |bytes| then Zeros(o + length)
    else if |bytes| <= o && 0 <= length <= |second| then bytes + second[..length] + Zeros(o - |bytes|)
    else bytes + Zeros(o + length - |bytes|)
  }

  /** What is left of a partial write that grows the buffer: the new array, and the copy into it if that is legal. */
  lemma {:induction false} PartialGrown(bytes: seq<bv8>, second: seq<bv8>, length: int, offset: int)
    requires Max0(offset) + |second| > |bytes| && Max0(offset) + length >= 0
    ensures var size := Max0(offset) + length; var after := AfterPartial(bytes, second, length, offset);
            if size < |bytes| then after == Zeros(size)
            else if 0 <= length <= |second| && |bytes| + length <= size
            then after == Splice(bytes + Zeros(size - |bytes|), |bytes|, second[0..length])
            else after == bytes + Zeros(size - |bytes|)
  {
    var size := Max0(offset) + length;
    if 0 <= length <= |second| && |bytes| + length <= size {
      assert second[0..length] == second[..length];
      GrownSplice(bytes, size - |bytes|, second[0..length]);
    }
  }

  lemma {:induction false} PartialInPlace(bytes: seq<bv8>, second: seq<bv8>, length: int, offset: int)
    requires Max0(offset) + |second| <= |bytes|
    ensures AfterPartial(bytes, second, length, offset)
            == if 0 <= length <= |second| then Splice(bytes, Max0(offset), second[0..length]) else bytes
  {
    assert 0 <= length <= |second| ==> second[0..length] == second[..length];
  }

  /** What a write at an offset is meant to do: the bytes lie at the offset, zeros fill any gap before. */
  function Overlay(bytes: seq<bv8>, second: seq<bv8>, offset: nat): seq<bv8> {
    var padded := if |bytes| < offset + |second| then bytes + Zeros(offset + |second| - |bytes|) else bytes;
    Splice(padded, offset, second)
  }

  /** What is left when everything before `position` is dropped. */
  function AfterTruncate(bytes: seq<bv8>, position: int): seq<bv8> {
    if Max0(position) <= |bytes| then bytes[Max0(position)..] else []
  }

  /** The bytes from `position` on, where reading them throws if they are not all there. */
  function Slice(bytes: seq<bv8>, position: int, length: int): Option<seq<bv8>> {
    if 0 <= position && 0 <= length && position + length <= |bytes| then Some(bytes[position..position + length])
    else None
  }

  /** A character set of one byte a character, such as US-ASCII: how characters are encoded, and bytes decoded. */
  datatype Charset = Charset(codeOf: char -> bv8, charOf: bv8 -> char)

  function Decoded(charset: Charset, bytes: seq<bv8>): (s: string)
    ensures |s| == |bytes| && forall i :: 0 <= i < |bytes| ==> s[i] == charset.charOf(bytes[i])
  {
    seq(|bytes|, i requires 0 <= i < |bytes| => charset.charOf(bytes[i]))
  }

  /** The cursor a relative read or write starts from: a cursor of -1 means the start. */
  function Cursor(position: int): int { if position == -1 then 0 else position }

  /** `System.arraycopy`; false stands for its `IndexOutOfBoundsException`. */
  method ArrayCopy(src: seq<bv8>, srcPos: int, dst: array<bv8>, dstPos: int, length: int) returns (ok: bool)
    modifies dst
    ensures ok <==> 0 <= srcPos && 0 <= dstPos && 0 <= length && srcPos + length <= |src| && dstPos + length <= dst.Length
    ensures !ok ==> dst[..] == old(dst[..])
    ensures ok ==> dst[..] == Splice(old(dst[..]), dstPos, src[srcPos..srcPos + length])
  {
    if !(0 <= srcPos && 0 <= dstPos && 0 <= length && srcPos + length <= |src| && dstPos + length <= dst.Length) {
      return false;
    }
    forall k | 0 <= k < length {
      dst[dstPos + k] := src[srcPos + k];
    }
    return true;
  }

  /** A write that does not start past the end, nor straddles it, puts its bytes at the offset. */
  lemma {:induction false} Landed(bytes: seq<bv8>, second: seq<bv8>, at: int)
    ensures 0 <= at <= |bytes| && WriteFits(|bytes|, |second|, at) ==>
              var after := AfterWrite(bytes, second, at);
              at + |second| <= |after| && after[at..at + |second|] == second
  {}

  /** A write at the very end appends. */
  lemma {:induction false} AppendIsPlain(bytes: seq<bv8>, second: seq<bv8>)
    ensures WriteFits(|bytes|, |second|, |bytes|)
    ensures AfterWrite(bytes, second, |bytes|) == bytes + second
  {
    assert bytes + second + Zeros(0) == bytes + second;
    assert second == [] ==> bytes[..|bytes|] + second + bytes[|bytes|..] == bytes + second;
  }

  class BBuffer {
    const endianness: Endianness
    var bytes: array<bv8>
    var position: int

    constructor (endianness: Endianness)
      ensures this.endianness == endianness && bytes[..] == [] && position == -1 && fresh(bytes)
    {
      this.endianness := endianness;
      bytes := new bv8[0];
      position := -1;
    }

    function Size(): nat
      reads this
    {
      bytes.Length
    }

    method SetPosition(newPosition: int)
      modifies this`position
      ensures position == newPosition
    {
      position := newPosition;
    }

    // -------------------------------------------------------------- writing

    /** A new array of the given size, with the old bytes copied into it; they may not fit. */
    method Grow(newSize: nat) returns (ok: bool)
      modifies this`bytes
      ensures fresh(bytes) && bytes.Length == newSize
      ensures ok <==> old(bytes.Length) <= newSize
      ensures bytes[..] == if ok then old(bytes[..]) + Zeros(newSize - old(bytes.Length)) else Zeros(newSize)
    {
      var first := bytes[..];
      bytes := new bv8[newSize](_ => 0);
      assert bytes[..] == Zeros(newSize) && first[0..|first|] == first;
      ok := ArrayCopy(first, 0, bytes, 0, |first|);
      if ok {
        GrownSplice([], newSize, first);
        assert [] + Zeros(newSize) == Zeros(newSize) && [] + first == first;
      }
    }

    method WriteAt(second: seq<bv8>, offset: int) returns (ok: bool)
      modifies this`bytes, bytes
      ensures bytes == old(bytes) || fresh(bytes)
      ensures ok <==> WriteFits(old(bytes.Length), |second|, offset)
      ensures bytes[..] == AfterWrite(old(bytes[..]), second, offset)
    {
      var o := if offset < 0 then 0 else offset;
      assert second[0..|second|] == second;
      if o + |second| > bytes.Length {
        var size := bytes.Length;
        var missingLength := o + |second| - size;
        if size <= o { GrownSplice(bytes[..], missingLength, second); }
        ok := Grow(missingLength + size);
        ok := ArrayCopy(second, 0, bytes, size, |second|);
      } else {
        ok := ArrayCopy(second, 0, bytes, o, |second|);
      }
    }

    method Write(second: seq<bv8>) returns (ok: bool)
      modifies this`bytes, this`position, bytes
      ensures bytes == old(bytes) || fresh(bytes)
      ensures ok <==> WriteFits(old(bytes.Length), |second|, Cursor(old(position)))
      ensures bytes[..] == AfterWrite(old(bytes[..]), second, Cursor(old(position)))
      ensures position == Cursor(old(position)) + if ok then |second| else 0
    {
      if position == -1 {
        position := 0;
      }
      ok := WriteAt(second, position);
      if ok {
        position := position + |second|;
      }
    }

    method WritePartialAt(second: seq<bv8>, length: int, offset: int) returns (ok: bool)
      modifies this`bytes, bytes
      ensures bytes == old(bytes) || fresh(bytes)
      ensures ok <==> PartialFits(old(bytes.Length), |second|, length, offset)
      ensures bytes[..] == AfterPartial(old(bytes[..]), second, length, offset)
    {
      ghost var before := bytes[..];
      var o := if offset < 0 then 0 else offset;
      if o + |second| > bytes.Length {
        var size := bytes.Length;
        var missingLength := o + length - size;
        if missingLength + size < 0 { return false; }
        PartialGrown(before, second, length, offset);
        ok := Grow(missingLength + size);
        if ok {
          ok := ArrayCopy(second, 0, bytes, size, length);
        }
      } else {
        PartialInPlace(before, second, length, offset);
        ok := ArrayCopy(second, 0, bytes, o, length);
      }
    }

    method WriteByte(second: bv8) returns (ok: bool)
      modifies this`bytes, this`position, bytes
      ensures bytes == old(bytes) || fresh(bytes)
      ensures ok
      ensures bytes[..] == AfterWrite(old(bytes[..]), [second], Cursor(old(position)))
      ensures position == Cursor(old(position)) + 1
    {
      if position == -1 {
        position := 0;
      }
      ok := WriteAt([second], position);
      position := position + 1;
    }

    /** The bytes of the value, swapped for a buffer that starts with the low ones. */
    method SplitShort(value: bv16) returns (data: array<bv8>)
      ensures fresh(data) && data[..] == Ordered(endianness, Bytes2(value)) && Holds2(endianness, data[..], value)
    {
      data := new bv8[2] [((value >> 8) & 0xFF) as bv8, (value & 0xFF) as bv8];
      assert data[..] == Bytes2(value);
      if endianness == LE {
        Swap2Bytes(data);
      }
      OrderedHolds2(endianness, value);
    }

    method WriteShort(value: bv16) returns (ok: bool)
      modifies this`bytes, this`position, bytes
      ensures bytes == old(bytes) || fresh(bytes)
      ensures ok <==> WriteFits(old(bytes.Length), 2, Cursor(old(position)))
      ensures bytes[..] == AfterWrite(old(bytes[..]), Ordered(endianness, Bytes2(value)), Cursor(old(position)))
      ensures position == Cursor(old(position)) + if ok then 2 else 0
      ensures var at := Cursor(old(position));
              ok && 0 <= at <= old(bytes.Length) ==> Holds2(endianness, bytes[at..at + 2], value)
    {
      if position == -1 {
        position := 0;
      }
      var data := SplitShort(value);
      Landed(bytes[..], data[..], position);
      ok := WriteAt(data[..], position);
      if ok {
        position := position + 2;
      }
    }

    /** The bytes of the value, swapped for a buffer that starts with the low ones. */
    method SplitInt(value: bv32) returns (data: array<bv8>)
      ensures fresh(data) && data[..] == Ordered(endianness, Bytes4(value)) && Holds4(endianness, data[..], value)
    {
      data := new bv8[4] [((value >> 24) & 0xFF) as bv8, ((value >> 16) & 0xFF) as bv8,
                              ((value >> 8) & 0xFF) as bv8, (value & 0xFF) as bv8];
      assert data[..] == Bytes4(value);
      if endianness == LE {
        Swap4Bytes(data);
      }
      OrderedHolds4(endianness, value);
    }

    method WriteInt(value: bv32) returns (ok: bool)
      modifies this`bytes, this`position, bytes
      ensures bytes == old(bytes) || fresh(bytes)
      ensures ok <==> WriteFits(old(bytes.Length), 4, Cursor(old(position)))
      ensures bytes[..] == AfterWrite(old(bytes[..]), Ordered(endianness, Bytes4(value)), Cursor(old(position)))
      ensures position == Cursor(old(position)) + if ok then 4 else 0
      ensures var at := Cursor(old(position));
              ok && 0 <= at <= old(bytes.Length) ==> Holds4(endianness, bytes[at..at + 4], value)
    {
      if position == -1 {
        position := 0;
      }
      var data := SplitInt(value);
      Landed(bytes[..], data[..], position);
      ok := WriteAt(data[..], position);
      if ok {
        position := position + 4;
      }
    }

    /** The bytes of the value, swapped for a buffer that starts with the low ones. */
    method SplitLong(v: bv64) returns (writeBuffer: array<bv8>)
      ensures fresh(writeBuffer) && writeBuffer[..] == Ordered(endianness, Bytes8(v)) && Holds8(endianness, writeBuffer[..], v)
    {
      writeBuffer := new bv8[8] [((v >> 56) & 0xFF) as bv8, ((v >> 48) & 0xFF) as bv8,
                                     ((v >> 40) & 0xFF) as bv8, ((v >> 32) & 0xFF) as bv8,
                                     ((v >> 24) & 0xFF) as bv8, ((v >> 16) & 0xFF) as bv8,
                                     ((v >> 8) & 0xFF) as bv8, (v & 0xFF) as bv8];
      assert writeBuffer[..] == Bytes8(v);
      if endianness == LE {
        Swap8Bytes(writeBuffer);
      }
      OrderedHolds8(endianness, v);
    }

    method WriteLong(v: bv64) returns (ok: bool)
      modifies this`bytes, this`position, bytes
      ensures bytes == old(bytes) || fresh(bytes)
      ensures ok <==> WriteFits(old(bytes.Length), 8, Cursor(old(position)))
      ensures bytes[..] == AfterWrite(old(bytes[..]), Ordered(endianness, Bytes8(v)), Cursor(old(position)))
      ensures position == Cursor(old(position)) + if ok then 8 else 0
      ensures var at := Cursor(old(position));
              ok && 0 <= at <= old(bytes.Length) ==> Holds8(endianness, bytes[at..at + 8], v)
    {
      if position == -1 {
        position := 0;
      }
      var writeBuffer := SplitLong(v);
      Landed(bytes[..], writeBuffer[..], position);
      ok := WriteAt(writeBuffer[..], position);
      if ok {
        position := position + 8;
      }
    }

    // -------------------------------------------------------------- reading

    method GetBytesAt(position: int, length: int) returns (dst: Option<array<bv8>>)
      ensures dst.Some? <==> Slice(bytes[..], position, length).Some?
      ensures dst.Some? ==> fresh(dst.value) && dst.value.Length == length
                            && Some(dst.value[..]) == Slice(bytes[..], position, length)
    {
      if length < 0 { return None; }
      var d := new bv8[length];
      var ok := ArrayCopy(bytes[..], position, d, 0, length);
      if !ok { return None; }
      assert d[..] == bytes[position..position + length];
      return Some(d);
    }

    method GetBytes(length: int) returns (r: Option<seq<bv8>>)
      modifies this`position
      ensures r == Slice(bytes[..], Cursor(old(position)), length)
      ensures position == Cursor(old(position)) + if r.Some? then length else 0
    {
      if position == -1 {
        position := 0;
      }
      var result := GetBytesAt(position, length);
      if result.None? { return None; }
      position := position + length;
      return Some(result.value[..]);
    }

    method Get() returns (r: Option<bv8>)
      modifies this`position
      ensures r == match Slice(bytes[..], Cursor(old(position)), 1) { case Some(s) => Some(s[0]) case None => None }
      ensures position == Cursor(old(position)) + if r.Some? then 1 else 0
    {
      if position == -1 {
        position := 0;
      }
      if !(0 <= position < bytes.Length) { return None; }
      r := Some(bytes[position]);
      position := position + 1;
    }

    method Accumulate(data: array<bv8>) returns (value: bv32)
      ensures value == Accumulated(data[..])
    {
      value := 0;
      for i := 0 to data.Length
        invariant value == Accumulated(data[..i])
      {
        assert data[..i + 1][..i] == data[..i];
        value := Push(value, data[i]);
      }
      assert data[..] == data[..data.Length];
    }

    /** The value of the bytes, swapped in place for a buffer that starts with the low ones. */
    method JoinShort(intBytes: array<bv8>) returns (value: bv16)
      requires intBytes.Length == 2
      modifies intBytes
      ensures value == Low16(Accumulated(Ordered(endianness, old(intBytes[..]))))
      ensures Holds2(endianness, old(intBytes[..]), value)
    {
      AccumulatedHolds2(endianness, intBytes[..]);
      if endianness == LE {
        Swap2Bytes(intBytes);
      }
      var intValue := Accumulate(intBytes);
      value := Low16(intValue);
    }

    method GetShort() returns (r: Option<bv16>)
      modifies this`position
      ensures r == match Slice(bytes[..], Cursor(old(position)), 2)
                   { case Some(s) => Some(Low16(Accumulated(Ordered(endianness, s)))) case None => None }
      ensures position == Cursor(old(position)) + if r.Some? then 2 else 0
      ensures var at := Cursor(old(position));
              r.Some? ==> 0 <= at && at + 2 <= bytes.Length && Holds2(endianness, bytes[at..at + 2], r.value)
    {
      if position == -1 {
        position := 0;
      }
      var intBytes := GetBytesAt(position, 2);
      if intBytes.None? { return None; }
      var value := JoinShort(intBytes.value);
      position := position + 2;
      return Some(value);
    }

    /** The value of the bytes, swapped in place for a buffer that starts with the low ones. */
    method JoinInt(intBytes: array<bv8>) returns (value: bv32)
      requires intBytes.Length == 4
      modifies intBytes
      ensures value == Accumulated(Ordered(endianness, old(intBytes[..])))
      ensures Holds4(endianness, old(intBytes[..]), value)
    {
      AccumulatedHolds4(endianness, intBytes[..]);
      if endianness == LE {
        Swap4Bytes(intBytes);
      }
      value := Accumulate(intBytes);
    }

    method GetInt() returns (r: Option<bv32>)
      modifies this`position
      ensures r == match Slice(bytes[..], Cursor(old(position)), 4)
                   { case Some(s) => Some(Accumulated(Ordered(endianness, s))) case None => None }
      ensures position == Cursor(old(position)) + if r.Some? then 4 else 0
      ensures var at := Cursor(old(position));
              r.Some? ==> 0 <= at && at + 4 <= bytes.Length && Holds4(endianness, bytes[at..at + 4], r.value)
    {
      if position == -1 {
        position := 0;
      }
      var intBytes := GetBytesAt(position, 4);
      if intBytes.None? { return None; }
      var value := JoinInt(intBytes.value);
      position := position + 4;
      return Some(value);
    }

    /** The value of the bytes, swapped in place for a buffer that starts with the low ones. */
    method JoinLong(readBuffer: array<bv8>) returns (value: bv64)
      requires readBuffer.Length == 8
      modifies readBuffer
      ensures value == Joined8(Ordered(endianness, old(readBuffer[..])))
      ensures Holds8(endianness, old(readBuffer[..]), value)
    {
      JoinedHolds8(endianness, readBuffer[..]);
      if endianness == LE {
        Swap8Bytes(readBuffer);
      }
      value := Joined8(readBuffer[..]);
    }

    method GetLong() returns (r: Option<bv64>)
      modifies this`position
      ensures r == match Slice(bytes[..], Cursor(old(position)), 8)
                   { case Some(s) => Some(Joined8(Ordered(endianness, s))) case None => None }
      ensures position == Cursor(old(position)) + if r.Some? then 8 else 0
      ensures var at := Cursor(old(position));
              r.Some? ==> 0 <= at && at + 8 <= bytes.Length && Holds8(endianness, bytes[at..at + 8], r.value)
    {
      if position == -1 {
        position := 0;
      }
      var readBuffer := GetBytesAt(position, 8);
      if readBuffer.None? { return None; }
      var value := JoinLong(readBuffer.value);
      position := position + 8;
      return Some(value);
    }

    /** The index of the first `toFind` at or after `offset`, or -1; `None` for an offset before the start, which throws. */
    method FindNextCharPosition(offset: int, toFind: bv8) returns (index: Option<int>)
      ensures index.None? <==> offset < 0
      ensures index == Some(-1) ==> forall k :: 0 <= offset <= k < bytes.Length ==> bytes[k] != toFind
      ensures index.Some? && index != Some(-1) ==> offset <= index.value < bytes.Length && bytes[index.value] == toFind
      ensures index.Some? && index != Some(-1) ==> forall k :: offset <= k < index.value ==> bytes[k] != toFind
    {
      var i := offset;
      while i < bytes.Length
        invariant offset <= i
        invariant offset < 0 ==> i == offset
        invariant forall k :: offset <= k < i && 0 <= k < bytes.Length ==> bytes[k] != toFind
      {
        if i < 0 { return None; }
        if bytes[i] == toFind { return Some(i); }
        i := i + 1;
      }
      return Some(-1);
    }

    /** A NUL-terminated string, decoded; the cursor moves past the terminator, present or not. */
    method GetString(charset: Charset) returns (r: Option<string>)
      modifies this`position
      ensures r.Some? <==> 0 <= old(position) <= bytes.Length
      ensures r.None? ==> position == old(position)
      ensures r.Some? ==> var end := old(position) + |r.value|;
                && end <= bytes.Length && r.value == Decoded(charset, bytes[old(position)..end]) && 0 !in bytes[old(position)..end]
                && (end < bytes.Length ==> bytes[end] == 0)
                && position == end + 1
    {
      var found := FindNextCharPosition(position, 0);
      if found.None? { return None; }
      var index := if found.value == -1 then bytes.Length else found.value;
      if position > index { return None; }
      r := Some(Decoded(charset, bytes[position..index]));
      position := index + 1;
    }

    /** The unread rest; with the cursor before the start it is the buffer's own array, not a copy. */
    method GetRemaining() returns (r: Option<array<bv8>>)
      ensures r.None? <==> position > bytes.Length
      ensures position < 0 ==> r == Some(bytes)
      ensures 0 <= position <= bytes.Length ==> fresh(r.value) && r.value[..] == bytes[position..]
    {
      if position < 0 { return Some(bytes); }
      r := GetBytesAt(position, bytes.Length - position);
    }

    // -------------------------------------------------------------- truncating

    /** Drops everything before `position`. */
    method TruncateAt(position: int)
      modifies this`bytes, this`position
      ensures fresh(bytes) && this.position == -1
      ensures bytes[..] == AfterTruncate(old(bytes[..]), position)
    {
      var p := if position < 0 then 0 else position;
      var remainingLength := bytes.Length - p;
      if remainingLength < 0 {
        bytes := new bv8[0];
      } else {
        var src := bytes[..];
        if remainingLength > 0 {
          var dst := new bv8[remainingLength];
          var ok := ArrayCopy(src, p, dst, 0, remainingLength);
          assert dst[..] == src[p..];
          bytes := dst;
        } else {
          bytes := new bv8[0];
        }
      }
      this.position := -1;
    }

    method Truncate()
      modifies this`bytes, this`position
      ensures fresh(bytes) && position == -1
      ensures bytes[..] == AfterTruncate(old(bytes[..]), old(position))
    {
      TruncateAt(position);
    }

    // -------------------------------------------------------------- searching

    /**
     * The failure table of the search: entry `k`, plus one, is the length of the longest border of
     * the needle's first `k + 1` bytes. `rounds` counts the passes of the inner loop.
     */
    static method BuildFailure(needle: seq<bv8>) returns (failure: array<int>, ghost rounds: nat)
      requires needle != []
      ensures fresh(failure) && failure.Length == |needle|
      ensures forall k :: 0 <= k < |needle| ==> IsFailure(needle, k, failure[k])
      ensures rounds < |needle|
    {
      var n := |needle|;
      failure := new int[n];
      rounds := 0;
      failure[0] := -1;
      for j := 1 to n
        invariant forall k :: 0 <= k < j ==> IsFailure(needle, k, failure[k])
        invariant rounds + failure[j - 1] + 1 <= j - 1
      {
        var i := failure[j - 1];
        assert IsFailure(needle, j - 1, i);
        while needle[j] != needle[i + 1] && i >= 0
          invariant IsCandidate(needle, j, i)
          invariant rounds + i + 1 <= j - 1
          modifies {}
          decreases i
        {
          var next := failure[i];
          FallBack(needle, j, i, next);
          i := next;
          rounds := rounds + 1;
        }
        CandidateSettles(needle, j, i);
        if needle[j] == needle[i + 1] {
          failure[j] := i + 1;
        } else {
          failure[j] := -1;
        }
      }
    }

    /** Least index at which the needle occurs, or -1; the search loop makes at most two rounds a byte. */
    method IndexOf(needle: seq<bv8>) returns (r: int, ghost rounds: nat)
      ensures r == -1 || OccursAt(bytes[..], needle, r)
      ensures forall p :: (r == -1 || p < r) ==> !OccursAt(bytes[..], needle, p)
      ensures needle == [] ==> r == 0
      ensures rounds <= 2 * bytes.Length
    {
      rounds := 0;
      if |needle| == 0 { return 0, 0; }
      if |needle| > bytes.Length { return -1, 0; }
      var failure, _ := BuildFailure(needle);
      var i, j := 0, 0;
      ghost var hay := bytes[..];
      while i < bytes.Length && j < |needle|
        invariant Searching(hay, needle, i, j)
        invariant rounds <= 2 * i - j
        modifies {}
        decreases 2 * (bytes.Length - i) + j
      {
        if bytes[i] == needle[j] {
          ByteAgrees(hay, needle, i, j);
          i := i + 1;
          j := j + 1;
        } else if j == 0 {
          OccursIndexwise(hay, needle, i);
          i := i + 1;
        } else {
          FallBackIsSafe(hay, needle, i, j, failure[j - 1] + 1);
          j := failure[j - 1] + 1;
        }
        rounds := rounds + 1;
      }
      return if j == |needle| then i - |needle| else -1, rounds;
    }
  }

  /** The bytes before `i` end with `j` bytes of the needle, which occurs nowhere before these. */
  ghost predicate Searching(s: seq<bv8>, needle: seq<bv8>, i: int, j: int) {
    && 0 <= j <= i <= |s| && j <= |needle| && s[i - j..i] == needle[..j]
    && forall p :: p < i - j ==> !OccursAt(s, needle, p)
  }

  lemma {:induction false} ByteAgrees(s: seq<bv8>, needle: seq<bv8>, i: int, j: int)
    requires Searching(s, needle, i, j) && i < |s| && j < |needle| && s[i] == needle[j]
    ensures Searching(s, needle, i + 1, j + 1)
  {
    assert s[i - j..i + 1] == s[i - j..i] + [s[i]] && needle[..j + 1] == needle[..j] + [needle[j]];
  }

  lemma {:induction false} FallBackIsSafe(s: seq<bv8>, needle: seq<bv8>, i: int, j: int, next: int)
    requires Searching(s, needle, i, j) && 0 < j < |needle| && i < |s| && s[i] != needle[j]
    requires IsFailure(needle, j - 1, next - 1)
    ensures 0 <= next < j && Searching(s, needle, i, next)
  {
    assert needle[..j][j - next..] == needle[..next] && s[i - next..i] == s[i - j..i][j - next..];
    forall p | p < i - next ensures !OccursAt(s, needle, p) {
      SkipIsSafe(s, needle, i, j, next, p);
    }
  }

  /** Falling back to the longest border skips no occurrence. */
  lemma {:induction false} SkipIsSafe(s: seq<bv8>, needle: seq<bv8>, i: int, j: int, next: int, p: int)
    requires Searching(s, needle, i, j) && 0 < j < |needle| && i < |s| && s[i] != needle[j]
    requires IsLongestBorder(needle[..j], next) && p < i - next
    ensures !OccursAt(s, needle, p)
  {
    if OccursAt(s, needle, p) {
      if p == i - j {
        OccursByte(s, needle, p, j);
      } else {
        OverlapIsBorder(s, needle, i, j, p);
      }
    }
  }

  // ---------------------------------------------------------------- when writing at an offset is right

  predicate AllZero(s: seq<bv8>) { forall k :: 0 <= k < |s| ==> s[k] == 0 }

  /**
   * A write at a legal offset does what it is meant to exactly when it stays inside the buffer or
   * starts at its end; past the end it does so only for bytes that cannot be told from the gap.
   */
  lemma {:induction false} WriteIsOverlayIff(bytes: seq<bv8>, second: seq<bv8>, offset: nat)
    ensures WriteFits(|bytes|, |second|, offset) && AfterWrite(bytes, second, offset) == Overlay(bytes, second, offset)
            <==> offset + |second| <= |bytes| || offset == |bytes| || (|bytes| < offset && AllZero(second))
  {
    var written, meant := AfterWrite(bytes, second, offset), Overlay(bytes, second, offset);
    if offset == |bytes| {
      assert written == meant;
    } else if |bytes| < offset {
      var gap := offset - |bytes|;
      assert written == bytes + (second + Zeros(gap));
      assert meant == bytes + (Zeros(gap) + second);
      assert written[|bytes|..] == second + Zeros(gap) && meant[|bytes|..] == Zeros(gap) + second;
      if written == meant { ZerosShift(second, gap); }
      if AllZero(second) { assert second == Zeros(|second|); }
    }
  }

  /**
   * A partial write of a legal length meets the same intention only when the whole source block would
   * have fitted, or at the end; any other length throws.
   */
  lemma {:induction false} PartialIsOverlayIff(bytes: seq<bv8>, second: seq<bv8>, length: int, offset: nat)
    ensures PartialFits(|bytes|, |second|, length, offset)
            && AfterPartial(bytes, second, length, offset) == Overlay(bytes, second[..length], offset)
            <==> 0 <= length <= |second|
                 && (offset + |second| <= |bytes| || offset == |bytes| || (|bytes| < offset && AllZero(second[..length])))
  {
    if 0 <= length <= |second| {
      WriteIsOverlayIff(bytes, second[..length], offset);
      if offset + |second| > |bytes| && |bytes| <= offset {
        assert AfterPartial(bytes, second, length, offset) == AfterWrite(bytes, second[..length], offset) by {
          assert second[..0] == [];
          assert offset == |bytes| ==> bytes + [] + Zeros(0) == bytes;
        }
      }
    }
  }

  /** A block that commutes with a run of zeros is itself zero. */
  lemma {:induction false} ZerosShift(s: seq<bv8>, gap: nat)
    requires 0 < gap && s + Zeros(gap) == Zeros(gap) + s
    ensures AllZero(s)
    decreases |s|
  {
    if s != [] {
      assert (s + Zeros(gap))[0] == (Zeros(gap) + s)[0];
      var t := s[1..];
      assert t + Zeros(gap) == (s + Zeros(gap))[1..];
      assert (Zeros(gap) + s)[1..] == Zeros(gap - 1) + s;
      assert s == [0] + t;
      assert Zeros(gap - 1) + [0] == Zeros(gap);
      assert Zeros(gap - 1) + ([0] + t) == Zeros(gap - 1) + [0] + t;
      ZerosShift(t, gap);
    }
  }
}
