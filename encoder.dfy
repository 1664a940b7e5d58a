/**
 * The encoding half of the primitive codec
 * (opengemini_client/codec/binary_encoder.py). Every function returns its
 * input buffer with the new bytes appended; the input is never changed.
 */
module BinaryEncoder {
  import opened Wire
  import opened Size

  /** The 64-bit word `append_int64` stores for `v`: the int64 shifted left
      by one (dropping its top bit), exclusive-or'ed with the sign mask
      `v >> 63` (all ones for a negative `v`, zero otherwise), read as an
      unsigned 64-bit integer. */
  function ZigZag(v: int): (u: nat)
    requires IsInt64(v)
    ensures u < TwoTo64
  {
    var shifted := (2 * v) % TwoTo64;
    if v < 0 then TwoTo64 - 1 - shifted else shifted
  }

  /** The sign is folded into bit 0: non-negative values land on even words,
      negative ones on odd words. */
  lemma ZigZagFolds(v: int)
    requires IsInt64(v)
    ensures v >= 0 ==> ZigZag(v) == 2 * v
    ensures v < 0 ==> ZigZag(v) == -2 * v - 1
  {
  }

  function AppendInt64(b: Bytes, v: int): (r: Bytes)
    requires IsInt64(v)
    ensures |r| == |b| + SizeOfInt64() && r[..|b|] == b
  {
    b + BigEndian(ZigZag(v), 8)
  }

  /** The words of 0, -1 and 1, most significant byte first. */
  lemma AppendInt64Examples()
    ensures AppendInt64([], 0) == [0, 0, 0, 0, 0, 0, 0, 0]
    ensures AppendInt64([], -1) == [0, 0, 0, 0, 0, 0, 0, 1]
    ensures AppendInt64([], 1) == [0, 0, 0, 0, 0, 0, 0, 2]
    ensures AppendInt64([], -2) == [0, 0, 0, 0, 0, 0, 0, 3]
  {
    ZigZagFolds(0);
    ZigZagFolds(-1);
    ZigZagFolds(1);
    ZigZagFolds(-2);
    SmallWord(0);
    SmallWord(1);
    SmallWord(2);
    SmallWord(3);
  }

  lemma SmallWord(u: nat)
    requires u < 256
    ensures BigEndian(u, 8) == [0, 0, 0, 0, 0, 0, 0, u]
  {
    assert BigEndian(0, 1) == [0];
    assert BigEndian(0, 2) == [0, 0];
    assert BigEndian(0, 3) == [0, 0, 0];
    assert BigEndian(0, 4) == [0, 0, 0, 0];
    assert BigEndian(0, 5) == [0, 0, 0, 0, 0];
    assert BigEndian(0, 6) == [0, 0, 0, 0, 0, 0];
    assert BigEndian(0, 7) == [0, 0, 0, 0, 0, 0, 0];
  }

  function AppendUint16(b: Bytes, v: int): (r: Bytes)
    requires 0 <= v < TwoTo16
    ensures |r| == |b| + SizeOfUint16() && r[..|b|] == b
  {
    b + BigEndian(v, 2)
  }

  function AppendUint32(b: Bytes, v: int): (r: Bytes)
    requires IsUint32(v)
    ensures |r| == |b| + SizeOfUint32() && r[..|b|] == b
  {
    b + BigEndian(v, 4)
  }

  /** A uint16 prefix holding the CHARACTER count of `v`, then its UTF-8
      bytes; the length agrees with `SizeOfString` exactly when `v` is
      ASCII. */
  function AppendString(b: Bytes, v: string): (r: Bytes)
    requires |v| < TwoTo16
    ensures |r| >= |b| + SizeOfString(v) && r[..|b|] == b
    ensures |r| == |b| + SizeOfString(v) <==> IsAscii(v)
  {
    Utf8Length(v);
    AppendUint16(b, |v|) + Utf8Encode(v)
  }

  /** A uint32 byte count, then the bytes; an empty blob is four zeros. */
  function AppendBytes(b: Bytes, v: Bytes): (r: Bytes)
    requires |v| < TwoTo32
    ensures |r| == |b| + SizeOfBytes(v) && r[..|b|] == b
    ensures v == [] ==> r == b + [0, 0, 0, 0]
  {
    AppendUint32(b, |v|) + v
  }

  predicate AllUint32(v: seq<int>)
  {
    forall i :: 0 <= i < |v| ==> IsUint32(v[i])
  }

  /** `struct.pack('<I I ...', *v)`: each element as four little-endian
      bytes. */
  function PackUint32sLE(v: seq<int>): (r: Bytes)
    requires AllUint32(v)
    ensures |r| == 4 * |v|
  {
    if v == [] then [] else LittleEndian(v[0], 4) + PackUint32sLE(v[1..])
  }

  /** A big-endian uint32 count, then the elements little-endian; an empty
      list is the count alone. */
  function AppendUint32List(b: Bytes, v: seq<int>): (r: Bytes)
    requires |v| < TwoTo32 && AllUint32(v)
    ensures |r| == |b| + SizeOfUint32List(v) && r[..|b|] == b
  {
    var prefixed := AppendUint32(b, |v|);
    if |v| == 0 then prefixed else prefixed + PackUint32sLE(v)
  }

  // -----------------------------------------------------------------------
  // Every encoder only appends: writing after `pre + b` is writing after `b`
  // and putting `pre` in front.

  lemma AppendInt64Shift(pre: Bytes, b: Bytes, v: int)
    requires IsInt64(v)
    ensures AppendInt64(pre + b, v) == pre + AppendInt64(b, v)
  {
  }

  lemma AppendBytesShift(pre: Bytes, b: Bytes, v: Bytes)
    requires |v| < TwoTo32
    ensures AppendBytes(pre + b, v) == pre + AppendBytes(b, v)
  {
  }

  lemma AppendUint32Shift(pre: Bytes, b: Bytes, v: int)
    requires IsUint32(v)
    ensures AppendUint32(pre + b, v) == pre + AppendUint32(b, v)
  {
  }

  lemma AppendStringShift(pre: Bytes, b: Bytes, v: string)
    requires |v| < TwoTo16
    ensures AppendString(pre + b, v) == pre + AppendString(b, v)
  {
  }

  lemma AppendUint32ListShift(pre: Bytes, b: Bytes, v: seq<int>)
    requires |v| < TwoTo32 && AllUint32(v)
    ensures AppendUint32List(pre + b, v) == pre + AppendUint32List(b, v)
  {
    AppendUint32Shift(pre, b, |v|);
  }
}
