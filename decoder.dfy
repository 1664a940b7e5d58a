/**
 * The decoding half of the primitive codec
 * (opengemini_client/codec/binary_decoder.py): a cursor over a byte string
 * whose read methods advance `offset`. Each read is specified by a pure
 * reader (`Int64At`, `StringAt`, ...) that takes the buffer and the offset
 * and yields the value with the offset after it; the lemmas at the end show
 * that the readers invert the encoders.
 */
module BinaryDecoder {
  import opened Wire
  import opened Size
  import opened BinaryEncoder

  /** A value read from the buffer and the offset just past it. */
  datatype Read<+T> = Read(value: T, next: nat)

  /** Undoes the zig-zag fold: `(s >> 1) ^ ((s << 63) >> 63)` on the signed
      word `s`, whose second operand is all ones exactly when bit 0 is set;
      exclusive-or with all ones turns `x` into `-x - 1`. */
  function ZigZagDecode(u: nat): int
  {
    var half := u / 2;
    if u % 2 == 1 then -half - 1 else half
  }

  /** `int64()`: eight big-endian bytes. The slice `buf[off:off + 8]` is
      short exactly when fewer than eight bytes remain, and indexing it then
      fails; `numpy.int64` refuses a word of 2^63 or more. The readers index
      `buf` directly; the Decoder methods below slice as the source does and
      are proved to agree. */
  function Int64At(buf: Bytes, off: nat): Result<Read<int>, DecodeError>
  {
    if |buf| < off + SizeOfInt64() then Err(IndexError)
    else
      var v := Word64(buf, off);
      if v >= TwoTo63 then Err(OverflowError)
      else Ok(Read(ZigZagDecode(v), off + SizeOfInt64()))
  }

  function Uint16At(buf: Bytes, off: nat): Result<Read<nat>, DecodeError>
  {
    if |buf| < off + SizeOfUint16() then Err(IndexError)
    else Ok(Read(Word16(buf, off), off + SizeOfUint16()))
  }

  function Uint32At(buf: Bytes, off: nat): Result<Read<nat>, DecodeError>
  {
    if |buf| < off + SizeOfUint32() then Err(IndexError)
    else Ok(Read(Word32(buf, off), off + SizeOfUint32()))
  }

  /** `string()`: a uint16 length, then that many bytes decoded as UTF-8.
      A truncated buffer yields a shorter slice, and the offset still moves
      by the full length. */
  function StringAt(buf: Bytes, off: nat): Result<Read<string>, DecodeError>
  {
    match Uint16At(buf, off)
    case Err(e) => Err(e)
    case Ok(Read(n, p)) =>
      match Utf8Decode(Slice(buf, p, p + n))
      case None => Err(UnicodeDecodeError)
      case Some(s) => Ok(Read(s, p + n))
  }

  /** `bytes()`: a uint32 length, then that many bytes (fewer if the buffer
      is short); a zero length reads nothing more. */
  function BytesAt(buf: Bytes, off: nat): Result<Read<Bytes>, DecodeError>
  {
    match Uint32At(buf, off)
    case Err(e) => Err(e)
    case Ok(Read(n, p)) =>
      if n == 0 then Ok(Read([], p))
      else Ok(Read(Slice(buf, p, p + n), p + n))
  }

  /** `struct.unpack('<I I ...', s)`: consecutive little-endian words. */
  function UnpackUint32sLE(s: Bytes): (r: seq<int>)
    requires |s| % 4 == 0
    ensures |r| == |s| / 4
  {
    if s == [] then [] else [LittleEndianValue(s[..4])] + UnpackUint32sLE(s[4..])
  }

  /** `uint32_list()`: a uint32 count `n`, then `4n` bytes unpacked as
      little-endian words; a short slice makes `struct.unpack` fail. */
  function Uint32ListAt(buf: Bytes, off: nat): Result<Read<seq<int>>, DecodeError>
  {
    match Uint32At(buf, off)
    case Err(e) => Err(e)
    case Ok(Read(n, p)) =>
      if n == 0 then Ok(Read([], p))
      else
        var s := Slice(buf, p, p + n * SizeOfUint32());
        if |s| != n * SizeOfUint32() then Err(StructError)
        else Ok(Read(UnpackUint32sLE(s), p + n * SizeOfUint32()))
  }

  /** The offset a reader leaves behind: past the value on success. */
  function After<T>(r: Result<Read<T>, DecodeError>, off: nat): nat
  {
    if r.Ok? then r.value.next else off
  }

  /** The value a reader hands to its caller. */
  function Value<T>(r: Result<Read<T>, DecodeError>): Result<T, DecodeError>
  {
    match r
    case Ok(Read(v, _)) => Ok(v)
    case Err(e) => Err(e)
  }

  class Decoder {
    const buf: Bytes
    var offset: nat

    constructor (buf: Bytes, offset: nat)
      ensures this.buf == buf && this.offset == offset
    {
      this.buf := buf;
      this.offset := offset;
    }

    method Int64() returns (r: Result<int, DecodeError>)
      modifies this
      ensures r == Value(Int64At(buf, old(offset)))
      ensures offset == After(Int64At(buf, old(offset)), old(offset))
    {
      var u := Slice(buf, offset, offset + SizeOfInt64());
      if |u| < 8 {
        return Err(IndexError);
      }
      var v := Word64(u, 0);
      if v >= TwoTo63 {
        return Err(OverflowError);
      }
      offset := offset + SizeOfInt64();
      r := Ok(ZigZagDecode(v));
    }

    method Uint16() returns (r: Result<nat, DecodeError>)
      modifies this
      ensures r == Value(Uint16At(buf, old(offset)))
      ensures offset == After(Uint16At(buf, old(offset)), old(offset))
    {
      var u := Slice(buf, offset, offset + SizeOfUint16());
      if |u| < 2 {
        return Err(IndexError);
      }
      offset := offset + SizeOfUint16();
      r := Ok(Word16(u, 0));
    }

    method Uint32() returns (r: Result<nat, DecodeError>)
      modifies this
      ensures r == Value(Uint32At(buf, old(offset)))
      ensures offset == After(Uint32At(buf, old(offset)), old(offset))
    {
      var u := Slice(buf, offset, offset + SizeOfUint32());
      if |u| < 4 {
        return Err(IndexError);
      }
      offset := offset + SizeOfUint32();
      r := Ok(Word32(u, 0));
    }

    /** On a UTF-8 error the length prefix has already been consumed. */
    method String() returns (r: Result<string, DecodeError>)
      modifies this
      ensures r == Value(StringAt(buf, old(offset)))
      ensures offset == After(StringAt(buf, old(offset)), After(Uint16At(buf, old(offset)), old(offset)))
    {
      var length := Uint16();
      if length.Err? {
        return Err(length.error);
      }
      var v := Utf8Decode(Slice(buf, offset, offset + length.value));
      if v.None? {
        return Err(UnicodeDecodeError);
      }
      offset := offset + length.value;
      r := Ok(v.value);
    }

    method Bytes() returns (r: Result<Bytes, DecodeError>)
      modifies this
      ensures r == Value(BytesAt(buf, old(offset)))
      ensures offset == After(BytesAt(buf, old(offset)), old(offset))
    {
      var length := Uint32();
      if length.Err? {
        return Err(length.error);
      }
      if length.value == 0 {
        return Ok([]);
      }
      var v := Slice(buf, offset, offset + length.value);
      offset := offset + length.value;
      r := Ok(v);
    }

    /** On a short slice the count has already been consumed. */
    method Uint32List() returns (r: Result<seq<int>, DecodeError>)
      modifies this
      ensures r == Value(Uint32ListAt(buf, old(offset)))
      ensures offset == After(Uint32ListAt(buf, old(offset)), After(Uint32At(buf, old(offset)), old(offset)))
    {
      var length := Uint32();
      if length.Err? {
        return Err(length.error);
      }
      if length.value == 0 {
        return Ok([]);
      }
      var length1 := length.value * SizeOfUint32();
      var s := Slice(buf, offset, offset + length1);
      if |s| != length1 {
        return Err(StructError);
      }
      offset := offset + length1;
      r := Ok(UnpackUint32sLE(s));
    }
  }

  // -----------------------------------------------------------------------
  // Round trips: each reader, started where the matching encoder began
  // writing, returns the encoded value and stops right after it, whatever
  // bytes follow.

  lemma ReadWord(b: Bytes, word: Bytes, rest: Bytes)
    ensures Slice(b + word + rest, |b|, |b| + |word|) == word
  {
    assert (b + word + rest)[|b|..|b| + |word|] == word;
  }

  lemma ZigZagRoundTrip(v: int)
    requires IsInt64(v)
    ensures ZigZag(v) < TwoTo63 <==> -TwoTo62 <= v < TwoTo62
    ensures ZigZag(v) < TwoTo63 ==> ZigZagDecode(ZigZag(v)) == v
  {
    ZigZagFolds(v);
  }

  // A word written big-endian reads back in place, whatever surrounds it.

  lemma Word16OfBigEndian(u: nat)
    requires u < TwoTo16
    ensures Word16(BigEndian(u, 2), 0) == u
  {
    var word := BigEndian(u, 2);
    BigEndianRoundTrip(u, 2);
    Pow256Values();
    assert BigEndianValue(word) == u % TwoTo16 == u;
    WordsAreBigEndian(word);
  }

  lemma Word16ReadBack(b: Bytes, u: nat, rest: Bytes)
    requires u < TwoTo16
    ensures |b + BigEndian(u, 2) + rest| >= |b| + 2 && Word16(b + BigEndian(u, 2) + rest, |b|) == u
  {
    var word := BigEndian(u, 2);
    ReadWord(b, word, rest);
    WordsInPlace(b + word + rest, |b|);
    Word16OfBigEndian(u);
  }

  lemma Word32OfBigEndian(u: nat)
    requires u < TwoTo32
    ensures Word32(BigEndian(u, 4), 0) == u
  {
    var word := BigEndian(u, 4);
    BigEndianRoundTrip(u, 4);
    Pow256Values();
    assert BigEndianValue(word) == u % TwoTo32 == u;
    WordsAreBigEndian(word);
  }

  lemma Word32ReadBack(b: Bytes, u: nat, rest: Bytes)
    requires u < TwoTo32
    ensures |b + BigEndian(u, 4) + rest| >= |b| + 4 && Word32(b + BigEndian(u, 4) + rest, |b|) == u
  {
    var word := BigEndian(u, 4);
    ReadWord(b, word, rest);
    WordsInPlace(b + word + rest, |b|);
    Word32OfBigEndian(u);
  }

  lemma Word64OfBigEndian(u: nat)
    requires u < TwoTo64
    ensures Word64(BigEndian(u, 8), 0) == u
  {
    var word := BigEndian(u, 8);
    BigEndianRoundTrip(u, 8);
    Pow256Values();
    assert BigEndianValue(word) == u % TwoTo64 == u;
    WordsAreBigEndian(word);
  }

  lemma Word64ReadBack(b: Bytes, u: nat, rest: Bytes)
    requires u < TwoTo64
    ensures |b + BigEndian(u, 8) + rest| >= |b| + 8 && Word64(b + BigEndian(u, 8) + rest, |b|) == u
  {
    var word := BigEndian(u, 8);
    ReadWord(b, word, rest);
    WordsInPlace(b + word + rest, |b|);
    Word64OfBigEndian(u);
  }

  /** The int64 round trip holds exactly on [-2^62, 2^62); outside it the
      decoder raises OverflowError on the word the encoder wrote. */
  lemma Int64RoundTrip(b: Bytes, v: int, rest: Bytes)
    requires IsInt64(v)
    ensures Int64At(AppendInt64(b, v) + rest, |b|)
         == if -TwoTo62 <= v < TwoTo62 then Ok(Read(v, |b| + SizeOfInt64())) else Err(OverflowError)
  {
    Word64ReadBack(b, ZigZag(v), rest);
    ZigZagRoundTrip(v);
  }

  lemma Uint16RoundTrip(b: Bytes, v: int, rest: Bytes)
    requires 0 <= v < TwoTo16
    ensures Uint16At(AppendUint16(b, v) + rest, |b|) == Ok(Read(v, |b| + SizeOfUint16()))
  {
    Word16ReadBack(b, v, rest);
  }

  lemma Uint32RoundTrip(b: Bytes, v: int, rest: Bytes)
    requires IsUint32(v)
    ensures Uint32At(AppendUint32(b, v) + rest, |b|) == Ok(Read(v, |b| + SizeOfUint32()))
  {
    Word32ReadBack(b, v, rest);
  }

  /** An ASCII string comes back whole and the cursor moves by its size. */
  lemma StringRoundTrip(b: Bytes, s: string, rest: Bytes)
    requires |s| < TwoTo16 && IsAscii(s)
    ensures StringAt(AppendString(b, s) + rest, |b|) == Ok(Read(s, |b| + SizeOfString(s)))
  {
    var prefixed := AppendUint16(b, |s|);
    var e := Utf8Encode(s);
    assert AppendString(b, s) + rest == prefixed + (e + rest);
    Uint16RoundTrip(b, |s|, e + rest);
    Utf8Length(s);
    ReadWord(prefixed, e, rest);
    Utf8RoundTrip(s);
  }

  /** The prefix counts characters, so a string with a two-byte character
      cannot be read back: "é" is written as the length 1 followed by the
      bytes C3 A9, and the decoder hands the lone C3 to UTF-8. */
  lemma StringRoundTripFailsBeyondAscii()
    ensures StringAt(AppendString([], "é"), 0) == Err(UnicodeDecodeError)
  {
    var buf := AppendString([], "é");
    assert Utf8Encode("é") == [0xC3, 0xA9];
    assert BigEndian(1, 2) == [0, 1];
    assert buf == [0, 1, 0xC3, 0xA9];
    assert Slice(buf, 0, 2) == [0, 1];
    assert Uint16At(buf, 0) == Ok(Read(1, 2));
    assert Slice(buf, 2, 3) == [0xC3];
    assert DecodeChar([0xC3]) == None;
    assert Utf8Decode([0xC3]) == None;
  }

  lemma BytesRoundTrip(b: Bytes, v: Bytes, rest: Bytes)
    requires |v| < TwoTo32
    ensures BytesAt(AppendBytes(b, v) + rest, |b|) == Ok(Read(v, |b| + SizeOfBytes(v)))
  {
    var prefixed := AppendUint32(b, |v|);
    assert AppendBytes(b, v) + rest == prefixed + (v + rest);
    Uint32RoundTrip(b, |v|, v + rest);
    ReadWord(prefixed, v, rest);
  }

  lemma {:induction false} UnpackPack(v: seq<int>)
    requires AllUint32(v)
    ensures UnpackUint32sLE(PackUint32sLE(v)) == v
  {
    if v != [] {
      var a := LittleEndian(v[0], 4);
      var t := PackUint32sLE(v[1..]);
      var p := PackUint32sLE(v);
      assert p == a + t;
      assert p[..4] == a && p[4..] == t;
      assert LittleEndianValue(a) == v[0] by {
        LittleEndianRoundTrip(v[0], 4);
        Pow256Values();
      }
      UnpackPack(v[1..]);
      assert UnpackUint32sLE(p) == [v[0]] + v[1..];
      assert [v[0]] + v[1..] == v;
    }
  }

  lemma Uint32ListRoundTrip(b: Bytes, v: seq<int>, rest: Bytes)
    requires |v| < TwoTo32 && AllUint32(v)
    ensures Uint32ListAt(AppendUint32List(b, v) + rest, |b|) == Ok(Read(v, |b| + SizeOfUint32List(v)))
  {
    var prefixed := AppendUint32(b, |v|);
    if |v| == 0 {
      Uint32RoundTrip(b, 0, rest);
    } else {
      var packed := PackUint32sLE(v);
      assert AppendUint32List(b, v) + rest == prefixed + (packed + rest);
      Uint32RoundTrip(b, |v|, packed + rest);
      ReadWord(prefixed, packed, rest);
      UnpackPack(v);
    }
  }
}
