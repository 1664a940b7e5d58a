/**
 * One column of a record (opengemini_client/record/colval.py): the packed
 * values, the start offset of every string row, a validity bitmap with one
 * bit per row, the row count and the null count.
 *
 * A ColVal is built by a sequence of append calls. `Apply` is the effect of
 * one call on the column's fields and `Replay` the column a sequence of
 * calls builds from an empty one; the class keeps the calls made so far as
 * a ghost history, and the lemmas at the end say what the fields of a
 * replayed column mean.
 */
module ColVals {
  import opened Wire
  import opened Size
  import opened BinaryEncoder
  import opened BinaryDecoder

  const BitMask: seq<nat> := [1, 2, 4, 8, 16, 32, 64, 128]
  const FlippedBitMask: seq<nat> := [254, 253, 251, 247, 239, 223, 191, 127]

  /** A bitmap byte as its eight bits, least significant first: bit `j`
      is the one `_BitMask[j]` selects. */
  type Octet = s: seq<bool> | |s| == 8 witness [false, false, false, false, false, false, false, false]

  /** The bytes 0 and 1. */
  const ZeroOctet: Octet := [false, false, false, false, false, false, false, false]
  const OneOctet: Octet := [true, false, false, false, false, false, false, false]

  /** The six fields of a ColVal at one moment. */
  datatype ColValData = ColValData(
    Val: Bytes,
    Offset: seq<int>,
    Bitmap: seq<Octet>,
    BitmapOffset: int,
    Len: int,
    NilCount: int)

  /** A freshly constructed ColVal. */
  const Empty: ColValData := ColValData([], [], [], 0, 0, 0)

  /** One append call. A float is given as the eight bytes
      `struct.pack('<d', v)` writes for it. */
  datatype Append =
    | Integer(i: int)
    | Boolean(b: bool)
    | Float(f: Float64)
    | Str(s: string)
    | IntegerNull
    | BooleanNull
    | FloatNull
    | StringNull
  {
    predicate IsNull()
    {
      IntegerNull? || BooleanNull? || FloatNull? || StringNull?
    }

    /** `struct.pack('<q', v)` raises for an integer outside int64. */
    predicate Packable()
    {
      Integer? ==> IsInt64(i)
    }
  }

  predicate AllPackable(calls: seq<Append>)
  {
    forall i :: 0 <= i < |calls| ==> calls[i].Packable()
  }

  /** The bytes an append call adds to `Val`: an int64 in little-endian
      two's complement, one byte for a boolean, the packed float, the UTF-8
      encoding of a string, nothing for a null. */
  function ValueBytes(a: Append): Bytes
    requires a.Packable()
  {
    match a
    case Integer(v) => LittleEndian(v % TwoTo64, 8)
    case Boolean(v) => if v then [1] else [0]
    case Float(f) => f
    case Str(s) => Utf8Encode(s)
    case _ => []
  }

  // -----------------------------------------------------------------------
  // The validity bitmap

  function Pow2(n: nat): (r: nat)
    ensures r >= 1
  {
    if n == 0 then 1 else 2 * Pow2(n - 1)
  }

  /** The number whose binary digits, least significant first, are `s`. */
  function BitsValue(s: seq<bool>): (r: nat)
    ensures r < Pow2(|s|)
  {
    if s == [] then 0 else (if s[0] then 1 else 0) + 2 * BitsValue(s[1..])
  }

  /** The lowest `n` binary digits of `v`, least significant first. */
  function Digits(v: nat, n: nat): (r: seq<bool>)
    ensures |r| == n
  {
    if n == 0 then [] else [v % 2 == 1] + Digits(v / 2, n - 1)
  }

  function OctetValue(o: Octet): Byte
  {
    assert Pow2(8) == 256;
    BitsValue(o)
  }

  function ByteOctet(b: Byte): Octet
  {
    Digits(b, 8)
  }

  /** Bit `i % 8` of byte `i / 8`. */
  predicate IsSet(bm: seq<Octet>, i: nat)
  {
    i / 8 < |bm| && bm[i / 8][i % 8]
  }

  /** The bitmap as the bytes `append_bytes` writes. */
  function ToBytes(bm: seq<Octet>): (r: Bytes)
    ensures |r| == |bm|
  {
    seq(|bm|, i requires 0 <= i < |bm| => OctetValue(bm[i]))
  }

  /** Bytes read back as a bitmap. */
  function ToBits(b: Bytes): (r: seq<Octet>)
    ensures |r| == |b|
  {
    seq(|b|, i requires 0 <= i < |b| => ByteOctet(b[i]))
  }

  /** The byte holding bit `index`, or-ed with `_BitMask[index & 7]`. */
  function SetBit(bm: seq<Octet>, index: nat): seq<Octet>
    requires index / 8 < |bm|
  {
    var k := index / 8;
    bm[k := bm[k][index % 8 := true]]
  }

  /** The byte holding bit `index`, and-ed with `_FlippedBitMask[index & 7]`. */
  function ClearBit(bm: seq<Octet>, index: nat): seq<Octet>
    requires index / 8 < |bm|
  {
    var k := index / 8;
    bm[k := bm[k][index % 8 := false]]
  }

  /** `_set_bitmap(Len)` on a bitmap `bm`, where `index` is
      `Len + BitmapOffset`: when that row falls past the last byte a byte 1
      is appended, otherwise its bit is set. */
  function WithBitSet(bm: seq<Octet>, index: nat): seq<Octet>
  {
    if index / 8 >= |bm| then bm + [OneOctet] else SetBit(bm, index)
  }

  /** `_reset_bitmap(Len)` on a bitmap `bm`, where `index` is
      `Len + BitmapOffset`: when that row falls past the last byte the
      WHOLE bitmap becomes the single byte 0, otherwise its bit is
      cleared. */
  function WithBitCleared(bm: seq<Octet>, index: nat): seq<Octet>
  {
    if index / 8 >= |bm| then [ZeroOctet] else ClearBit(bm, index)
  }

  // -----------------------------------------------------------------------
  // Append calls as a step function

  predicate CanApply(d: ColValData, a: Append)
  {
    d.Len + d.BitmapOffset >= 0 && a.Packable()
  }

  /** The fields after one append call. A string or a string null also
      records where its bytes start. */
  function Apply(d: ColValData, a: Append): ColValData
    requires CanApply(d, a)
  {
    if a.IsNull() then
      ColValData(
        d.Val,
        if a.StringNull? then d.Offset + [|d.Val|] else d.Offset,
        WithBitCleared(d.Bitmap, d.Len + d.BitmapOffset),
        d.BitmapOffset,
        d.Len + 1,
        d.NilCount + 1)
    else
      ColValData(
        d.Val + ValueBytes(a),
        if a.Str? then d.Offset + [|d.Val|] else d.Offset,
        WithBitSet(d.Bitmap, d.Len + d.BitmapOffset),
        d.BitmapOffset,
        d.Len + 1,
        d.NilCount)
  }

  /** The fields after appending a string. */
  lemma ApplyString(d: ColValData, v: string)
    requires d.Len + d.BitmapOffset >= 0
    ensures Apply(d, Str(v)) == ColValData(
      d.Val + Utf8Encode(v),
      d.Offset + [|d.Val|],
      WithBitSet(d.Bitmap, d.Len + d.BitmapOffset),
      d.BitmapOffset,
      d.Len + 1,
      d.NilCount)
  {
  }

  function NullCount(calls: seq<Append>): (n: nat)
  {
    if calls == [] then 0
    else NullCount(calls[..|calls| - 1]) + (if calls[|calls| - 1].IsNull() then 1 else 0)
  }

  /** The fields after the given calls, in order. */
  function ApplyAll(d: ColValData, calls: seq<Append>): (r: ColValData)
    requires d.Len + d.BitmapOffset >= 0 && AllPackable(calls)
    ensures r.Len == d.Len + |calls| && r.BitmapOffset == d.BitmapOffset
    ensures r.NilCount == d.NilCount + NullCount(calls)
    decreases |calls|
  {
    if calls == [] then d
    else Apply(ApplyAll(d, calls[..|calls| - 1]), calls[|calls| - 1])
  }

  /** The column the given calls build from a fresh ColVal. */
  function Replay(calls: seq<Append>): ColValData
    requires AllPackable(calls)
  {
    ApplyAll(Empty, calls)
  }

  /** `count` repetitions of one call; `range(count)` is empty for
      `count <= 0`. */
  function Repeat(a: Append, count: int): (r: seq<Append>)
    ensures |r| == if count <= 0 then 0 else count
    ensures forall i :: 0 <= i < |r| ==> r[i] == a
    decreases count
  {
    if count <= 0 then [] else Repeat(a, count - 1) + [a]
  }

  lemma ApplyAllStep(d: ColValData, calls: seq<Append>, a: Append)
    requires d.Len + d.BitmapOffset >= 0 && AllPackable(calls) && a.Packable()
    ensures AllPackable(calls + [a])
    ensures ApplyAll(d, calls + [a]) == Apply(ApplyAll(d, calls), a)
  {
    PrefixOfSnoc(calls, a);
  }

  lemma ReplayStep(calls: seq<Append>, a: Append)
    requires AllPackable(calls) && a.Packable()
    ensures AllPackable(calls + [a])
    ensures Replay(calls + [a]) == Apply(Replay(calls), a)
  {
    ApplyAllStep(Empty, calls, a);
  }

  /** A column built by `calls` and then changed by `a` is built by
      `calls + [a]`. */
  lemma BuiltStep(calls: seq<Append>, a: Append, before: ColValData, after: ColValData)
    requires AllPackable(calls) && a.Packable() && before == Replay(calls)
    requires after == Apply(before, a)
    ensures AllPackable(calls + [a]) && after == Replay(calls + [a])
  {
    ReplayStep(calls, a);
  }

  lemma {:induction false} ApplyAllConcat(d: ColValData, xs: seq<Append>, ys: seq<Append>)
    requires d.Len + d.BitmapOffset >= 0 && AllPackable(xs) && AllPackable(ys)
    ensures AllPackable(xs + ys)
    ensures ApplyAll(d, xs + ys) == ApplyAll(ApplyAll(d, xs), ys)
    decreases |ys|
  {
    if ys == [] {
      assert xs + ys == xs;
    } else {
      var init := ys[..|ys| - 1];
      var a := ys[|ys| - 1];
      ApplyAllConcat(d, xs, init);
      SplitLast(ys);
      SnocAssoc(xs, init, a);
      ApplyAllStep(d, xs + init, a);
    }
  }

  // -----------------------------------------------------------------------
  // The class

  class ColVal {
    var Val: Bytes
    var Offset: seq<int>
    var Bitmap: seq<Octet>
    var BitmapOffset: int
    var Len: int
    var NilCount: int
    /** The append calls made since construction. */
    ghost var Appends: seq<Append>

    function Data(): ColValData
      reads this
    {
      ColValData(Val, Offset, Bitmap, BitmapOffset, Len, NilCount)
    }

    /** The fields are those the recorded calls build. */
    ghost predicate Built()
      reads this
    {
      AllPackable(Appends) && Data() == Replay(Appends)
    }

    constructor ()
      ensures Data() == Empty && Appends == []
      ensures Built()
    {
      Val := [];
      Offset := [];
      Bitmap := [];
      BitmapOffset := 0;
      Len := 0;
      NilCount := 0;
      Appends := [];
    }

    method SetBitmap(index: int)
      requires index == Len && Len + BitmapOffset >= 0
      modifies this`Bitmap
      ensures Bitmap == WithBitSet(old(Bitmap), Len + BitmapOffset)
    {
      if (Len + BitmapOffset) / 8 >= |Bitmap| {
        Bitmap := Bitmap + [OneOctet];
        return;
      }
      Bitmap := SetBit(Bitmap, index + BitmapOffset);
    }

    method ResetBitmap(index: int)
      requires index == Len && Len + BitmapOffset >= 0
      modifies this`Bitmap
      ensures Bitmap == WithBitCleared(old(Bitmap), Len + BitmapOffset)
    {
      if (Len + BitmapOffset) / 8 >= |Bitmap| {
        Bitmap := [ZeroOctet];
        return;
      }
      Bitmap := ClearBit(Bitmap, index + BitmapOffset);
    }

    /** `_append_null`: the bit cleared, one more row, one more null. */
    method AppendNull()
      requires Len + BitmapOffset >= 0
      modifies this`Bitmap, this`Len, this`NilCount
      ensures Data() == old(Data()).(Bitmap := WithBitCleared(old(Bitmap), old(Len) + BitmapOffset), Len := old(Len) + 1,
                                     NilCount := old(NilCount) + 1)
    {
      ResetBitmap(Len);
      Len := Len + 1;
      NilCount := NilCount + 1;
    }

    method AppendInteger(v: int)
      requires IsInt64(v) && Len + BitmapOffset >= 0
      modifies this
      ensures Data() == Apply(old(Data()), Integer(v)) && Appends == old(Appends) + [Integer(v)]
      ensures old(Built()) ==> Built()
    {
      Val := Val + LittleEndian(v % TwoTo64, 8);
      SetBitmap(Len);
      Len := Len + 1;
      assert Data() == Apply(old(Data()), Integer(v));
      Appends := Appends + [Integer(v)];
      if old(Built()) {
        BuiltStep(old(Appends), Integer(v), old(Data()), Data());
      }
    }

    method AppendIntegerNull()
      requires Len + BitmapOffset >= 0
      modifies this
      ensures Data() == Apply(old(Data()), IntegerNull) && Appends == old(Appends) + [IntegerNull]
      ensures old(Built()) ==> Built()
    {
      AppendNull();
      assert Data() == Apply(old(Data()), IntegerNull);
      Appends := Appends + [IntegerNull];
      if old(Built()) {
        BuiltStep(old(Appends), IntegerNull, old(Data()), Data());
      }
    }

    method AppendIntegerNulls(count: int)
      requires Len + BitmapOffset >= 0
      modifies this
      ensures Data() == ApplyAll(old(Data()), Repeat(IntegerNull, count))
      ensures Appends == old(Appends) + Repeat(IntegerNull, count)
      ensures old(Built()) ==> Built()
    {
      ghost var start := Data();
      ghost var added: seq<Append> := [];
      var i := 0;
      while i < count
        invariant 0 <= i <= if count <= 0 then 0 else count
        invariant added == Repeat(IntegerNull, i)
        invariant Data() == ApplyAll(start, added)
        invariant Appends == old(Appends) + added
      {
        ApplyAllStep(start, added, IntegerNull);
        SnocAssoc(old(Appends), added, IntegerNull);
        AppendIntegerNull();
        added := added + [IntegerNull];
        i := i + 1;
      }
      assert added == Repeat(IntegerNull, count) by {
        if count <= 0 {
          assert i == 0;
        }
      }
      if old(Built()) {
        ApplyAllConcat(Empty, old(Appends), Repeat(IntegerNull, count));
      }
    }

    method AppendBoolean(v: bool)
      requires Len + BitmapOffset >= 0
      modifies this
      ensures Data() == Apply(old(Data()), Boolean(v)) && Appends == old(Appends) + [Boolean(v)]
      ensures old(Built()) ==> Built()
    {
      if v {
        Val := Val + [1];
      } else {
        Val := Val + [0];
      }
      SetBitmap(Len);
      Len := Len + 1;
      assert Data() == Apply(old(Data()), Boolean(v));
      Appends := Appends + [Boolean(v)];
      if old(Built()) {
        BuiltStep(old(Appends), Boolean(v), old(Data()), Data());
      }
    }

    method AppendBooleanNull()
      requires Len + BitmapOffset >= 0
      modifies this
      ensures Data() == Apply(old(Data()), BooleanNull) && Appends == old(Appends) + [BooleanNull]
      ensures old(Built()) ==> Built()
    {
      AppendNull();
      assert Data() == Apply(old(Data()), BooleanNull);
      Appends := Appends + [BooleanNull];
      if old(Built()) {
        BuiltStep(old(Appends), BooleanNull, old(Data()), Data());
      }
    }

    method AppendBooleanNulls(count: int)
      requires Len + BitmapOffset >= 0
      modifies this
      ensures Data() == ApplyAll(old(Data()), Repeat(BooleanNull, count))
      ensures Appends == old(Appends) + Repeat(BooleanNull, count)
      ensures old(Built()) ==> Built()
    {
      ghost var start := Data();
      ghost var added: seq<Append> := [];
      var i := 0;
      while i < count
        invariant 0 <= i <= if count <= 0 then 0 else count
        invariant added == Repeat(BooleanNull, i)
        invariant Data() == ApplyAll(start, added)
        invariant Appends == old(Appends) + added
      {
        ApplyAllStep(start, added, BooleanNull);
        SnocAssoc(old(Appends), added, BooleanNull);
        AppendBooleanNull();
        added := added + [BooleanNull];
        i := i + 1;
      }
      assert added == Repeat(BooleanNull, count) by {
        if count <= 0 {
          assert i == 0;
        }
      }
      if old(Built()) {
        ApplyAllConcat(Empty, old(Appends), Repeat(BooleanNull, count));
      }
    }

    method AppendFloat(v: Float64)
      requires Len + BitmapOffset >= 0
      modifies this
      ensures Data() == Apply(old(Data()), Float(v)) && Appends == old(Appends) + [Float(v)]
      ensures old(Built()) ==> Built()
    {
      Val := Val + v;
      SetBitmap(Len);
      Len := Len + 1;
      assert Data() == Apply(old(Data()), Float(v));
      Appends := Appends + [Float(v)];
      if old(Built()) {
        BuiltStep(old(Appends), Float(v), old(Data()), Data());
      }
    }

    method AppendFloatNull()
      requires Len + BitmapOffset >= 0
      modifies this
      ensures Data() == Apply(old(Data()), FloatNull) && Appends == old(Appends) + [FloatNull]
      ensures old(Built()) ==> Built()
    {
      AppendNull();
      assert Data() == Apply(old(Data()), FloatNull);
      Appends := Appends + [FloatNull];
      if old(Built()) {
        BuiltStep(old(Appends), FloatNull, old(Data()), Data());
      }
    }

    method AppendFloatNulls(count: int)
      requires Len + BitmapOffset >= 0
      modifies this
      ensures Data() == ApplyAll(old(Data()), Repeat(FloatNull, count))
      ensures Appends == old(Appends) + Repeat(FloatNull, count)
      ensures old(Built()) ==> Built()
    {
      ghost var start := Data();
      ghost var added: seq<Append> := [];
      var i := 0;
      while i < count
        invariant 0 <= i <= if count <= 0 then 0 else count
        invariant added == Repeat(FloatNull, i)
        invariant Data() == ApplyAll(start, added)
        invariant Appends == old(Appends) + added
      {
        ApplyAllStep(start, added, FloatNull);
        SnocAssoc(old(Appends), added, FloatNull);
        AppendFloatNull();
        added := added + [FloatNull];
        i := i + 1;
      }
      assert added == Repeat(FloatNull, count) by {
        if count <= 0 {
          assert i == 0;
        }
      }
      if old(Built()) {
        ApplyAllConcat(Empty, old(Appends), Repeat(FloatNull, count));
      }
    }

    method AppendString(v: string)
      requires Len + BitmapOffset >= 0
      modifies this
      ensures Data() == Apply(old(Data()), Str(v)) && Appends == old(Appends) + [Str(v)]
      ensures old(Built()) ==> Built()
    {
      ApplyString(Data(), v);
      var index := |Val|;
      Val := Val + Utf8Encode(v);
      Offset := Offset + [index];
      SetBitmap(Len);
      Len := Len + 1;
      Appends := Appends + [Str(v)];
      if old(Built()) {
        BuiltStep(old(Appends), Str(v), old(Data()), Data());
      }
    }

    method AppendStringNull()
      requires Len + BitmapOffset >= 0
      modifies this
      ensures Data() == Apply(old(Data()), StringNull) && Appends == old(Appends) + [StringNull]
      ensures old(Built()) ==> Built()
    {
      Offset := Offset + [|Val|];
      AppendNull();
      assert Data() == Apply(old(Data()), StringNull);
      Appends := Appends + [StringNull];
      if old(Built()) {
        BuiltStep(old(Appends), StringNull, old(Data()), Data());
      }
    }

    method AppendStringNulls(count: int)
      requires Len + BitmapOffset >= 0
      modifies this
      ensures Data() == ApplyAll(old(Data()), Repeat(StringNull, count))
      ensures Appends == old(Appends) + Repeat(StringNull, count)
      ensures old(Built()) ==> Built()
    {
      ghost var start := Data();
      ghost var added: seq<Append> := [];
      var i := 0;
      while i < count
        invariant 0 <= i <= if count <= 0 then 0 else count
        invariant added == Repeat(StringNull, i)
        invariant Data() == ApplyAll(start, added)
        invariant Appends == old(Appends) + added
      {
        ApplyAllStep(start, added, StringNull);
        SnocAssoc(old(Appends), added, StringNull);
        AppendStringNull();
        added := added + [StringNull];
        i := i + 1;
      }
      assert added == Repeat(StringNull, count) by {
        if count <= 0 {
          assert i == 0;
        }
      }
      if old(Built()) {
        ApplyAllConcat(Empty, old(Appends), Repeat(StringNull, count));
      }
    }

    function Marshal(buf: Bytes): Bytes
      reads this
      requires Marshalable(Data())
    {
      Encode(buf, Data())
    }

    function CodecSize(): nat
      reads this
    {
      CodecSizeOf(Data())
    }

    method Unmarshal(buf: Bytes) returns (err: Option<DecodeError>)
      modifies this
      ensures (Data(), err) == UnmarshalInto(old(Data()), buf)
      ensures Appends == old(Appends)
    {
      if |buf| == 0 {
        return None;
      }
      var dec := new Decoder(buf, 0);
      var len := dec.Int64();
      if len.Err? {
        return Some(len.error);
      }
      Len := len.value;
      var nilCount := dec.Int64();
      if nilCount.Err? {
        return Some(nilCount.error);
      }
      NilCount := nilCount.value;
      var bitmapOffset := dec.Int64();
      if bitmapOffset.Err? {
        return Some(bitmapOffset.error);
      }
      BitmapOffset := bitmapOffset.value;
      var val := dec.Bytes();
      if val.Err? {
        return Some(val.error);
      }
      Val := val.value;
      var bitmap := dec.Bytes();
      if bitmap.Err? {
        return Some(bitmap.error);
      }
      Bitmap := ToBits(bitmap.value);
      var offset := dec.Uint32List();
      if offset.Err? {
        return Some(offset.error);
      }
      Offset := offset.value;
      err := None;
    }
  }

  // -----------------------------------------------------------------------
  // The wire form

  /** What `marshal` needs: the counters fit numpy's int64, the blobs and
      the offset list fit their uint32 length prefixes, and every offset is
      a uint32. */
  predicate Marshalable(d: ColValData)
  {
    IsInt64(d.Len) && IsInt64(d.NilCount) && IsInt64(d.BitmapOffset)
    && |d.Val| < TwoTo32 && |d.Bitmap| < TwoTo32
    && |d.Offset| < TwoTo32 && AllUint32(d.Offset)
  }

  /** What a round trip needs on top: counters inside the int64 codec's
      exact range. */
  predicate RoundTrips(d: ColValData)
  {
    Marshalable(d)
    && -TwoTo62 <= d.Len < TwoTo62
    && -TwoTo62 <= d.NilCount < TwoTo62
    && -TwoTo62 <= d.BitmapOffset < TwoTo62
  }

  /** `codec_size()`. */
  function CodecSizeOf(d: ColValData): nat
  {
    3 * SizeOfInt64() + SizeOfBytes(d.Val) + SizeOfBytes(ToBytes(d.Bitmap)) + SizeOfUint32List(d.Offset)
  }

  /** `marshal`: Len, NilCount and BitmapOffset, then Val and Bitmap, then
      the offsets. Exactly `codec_size()` bytes are appended. */
  function Encode(buf: Bytes, d: ColValData): (r: Bytes)
    requires Marshalable(d)
    ensures |r| == |buf| + CodecSizeOf(d) && r[..|buf|] == buf
    ensures |r| == |buf| + 36 + |d.Val| + |d.Bitmap| + 4 * |d.Offset|
  {
    var s1 := AppendInt64(buf, d.Len);
    var s2 := AppendInt64(s1, d.NilCount);
    var s3 := AppendInt64(s2, d.BitmapOffset);
    var s4 := AppendBytes(s3, d.Val);
    var s5 := AppendBytes(s4, ToBytes(d.Bitmap));
    var r := AppendUint32List(s5, d.Offset);
    assert r[..|buf|] == r[..|s5|][..|s4|][..|s3|][..|s2|][..|s1|][..|buf|];
    r
  }

  /** `unmarshal` applied to a ColVal holding `d`: the fields afterwards and
      the exception raised, if any. An empty buffer changes nothing; each
      field is assigned as soon as it is read, so a failure keeps the
      fields read before it. */
  function UnmarshalInto(d: ColValData, buf: Bytes): (ColValData, Option<DecodeError>)
  {
    if |buf| == 0 then (d, None)
    else
      match Int64At(buf, 0)
      case Err(e) => (d, Some(e))
      case Ok(Read(len, p1)) =>
        var d1 := d.(Len := len);
        match Int64At(buf, p1)
        case Err(e) => (d1, Some(e))
        case Ok(Read(nilCount, p2)) =>
          var d2 := d1.(NilCount := nilCount);
          match Int64At(buf, p2)
          case Err(e) => (d2, Some(e))
          case Ok(Read(bitmapOffset, p3)) =>
            var d3 := d2.(BitmapOffset := bitmapOffset);
            match BytesAt(buf, p3)
            case Err(e) => (d3, Some(e))
            case Ok(Read(val, p4)) =>
              var d4 := d3.(Val := val);
              match BytesAt(buf, p4)
              case Err(e) => (d4, Some(e))
              case Ok(Read(bitmap, p5)) =>
                var d5 := d4.(Bitmap := ToBits(bitmap));
                match Uint32ListAt(buf, p5)
                case Err(e) => (d5, Some(e))
                case Ok(Read(offset, _)) => (d5.(Offset := offset), None)
  }

  /** `marshal` only appends: its output is the input followed by the
      bytes it writes for an empty buffer. */
  lemma EncodeAppends(buf: Bytes, d: ColValData)
    requires Marshalable(d)
    ensures Encode(buf, d) == buf + Encode([], d)
  {
    var e1 := AppendInt64([], d.Len);
    var e2 := AppendInt64(e1, d.NilCount);
    var e3 := AppendInt64(e2, d.BitmapOffset);
    var e4 := AppendBytes(e3, d.Val);
    var e5 := AppendBytes(e4, ToBytes(d.Bitmap));
    assert buf == buf + [];
    AppendInt64Shift(buf, [], d.Len);
    AppendInt64Shift(buf, e1, d.NilCount);
    AppendInt64Shift(buf, e2, d.BitmapOffset);
    AppendBytesShift(buf, e3, d.Val);
    AppendBytesShift(buf, e4, ToBytes(d.Bitmap));
    AppendUint32ListShift(buf, e5, d.Offset);
  }

  /** A prefix of a prefix. */
  lemma PrefixOfPrefix(full: Bytes, s: Bytes, t: Bytes)
    requires |s| <= |full| && full[..|s|] == s
    requires |t| <= |s| && s[..|t|] == t
    ensures full[..|t|] == t
  {
    assert full[..|t|] == full[..|s|][..|t|];
  }

  lemma Int64Inside(b: Bytes, v: int, full: Bytes)
    requires IsInt64(v) && -TwoTo62 <= v < TwoTo62
    requires |AppendInt64(b, v)| <= |full| && full[..|AppendInt64(b, v)|] == AppendInt64(b, v)
    ensures Int64At(full, |b|) == Ok(Read(v, |b| + SizeOfInt64()))
  {
    var s := AppendInt64(b, v);
    assert s + full[|s|..] == full;
    Int64RoundTrip(b, v, full[|s|..]);
  }

  lemma BytesInside(b: Bytes, v: Bytes, full: Bytes)
    requires |v| < TwoTo32
    requires |AppendBytes(b, v)| <= |full| && full[..|AppendBytes(b, v)|] == AppendBytes(b, v)
    ensures BytesAt(full, |b|) == Ok(Read(v, |b| + SizeOfBytes(v)))
  {
    var s := AppendBytes(b, v);
    assert s + full[|s|..] == full;
    BytesRoundTrip(b, v, full[|s|..]);
  }

  /** Unmarshalling what `marshal` wrote restores all six fields, whatever
      the ColVal held before. */
  lemma RoundTrip(d: ColValData, before: ColValData)
    requires RoundTrips(d)
    ensures UnmarshalInto(before, Encode([], d)) == (d, None)
  {
    var p1, p2, p3, p4, p5 := EncodedReads(d);
    BitsBytes(d.Bitmap);
  }

  /** Where each field of an encoded ColVal is read back, and what is read
      there. */
  lemma EncodedReads(d: ColValData) returns (p1: nat, p2: nat, p3: nat, p4: nat, p5: nat)
    requires RoundTrips(d)
    ensures var full := Encode([], d);
            |full| > 0
            && Int64At(full, 0) == Ok(Read(d.Len, p1))
            && Int64At(full, p1) == Ok(Read(d.NilCount, p2))
            && Int64At(full, p2) == Ok(Read(d.BitmapOffset, p3))
            && BytesAt(full, p3) == Ok(Read(d.Val, p4))
            && BytesAt(full, p4) == Ok(Read(ToBytes(d.Bitmap), p5))
            && Uint32ListAt(full, p5).Ok? && Uint32ListAt(full, p5).value.value == d.Offset
  {
    var s1 := AppendInt64([], d.Len);
    var s2 := AppendInt64(s1, d.NilCount);
    var s3 := AppendInt64(s2, d.BitmapOffset);
    var full := Encode([], d);
    p4, p5 := TailReads(d, s3, full);
    HeadReads(d, s1, s2, s3, full);
    p1, p2, p3 := |s1|, |s2|, |s3|;
  }

  /** The three counters, read back from the front of an encoding. */
  lemma HeadReads(d: ColValData, s1: Bytes, s2: Bytes, s3: Bytes, full: Bytes)
    requires RoundTrips(d)
    requires s1 == AppendInt64([], d.Len) && s2 == AppendInt64(s1, d.NilCount) && s3 == AppendInt64(s2, d.BitmapOffset)
    requires |s3| <= |full| && full[..|s3|] == s3
    ensures Int64At(full, 0) == Ok(Read(d.Len, |s1|))
    ensures Int64At(full, |s1|) == Ok(Read(d.NilCount, |s2|))
    ensures Int64At(full, |s2|) == Ok(Read(d.BitmapOffset, |s3|))
  {
    PrefixOfPrefix(full, s3, s2);
    PrefixOfPrefix(full, s2, s1);
    Int64Inside([], d.Len, full);
    Int64Inside(s1, d.NilCount, full);
    Int64Inside(s2, d.BitmapOffset, full);
  }

  /** The values, the bitmap and the offsets, read back after the
      counters. */
  lemma TailReads(d: ColValData, s3: Bytes, full: Bytes) returns (p4: nat, p5: nat)
    requires Marshalable(d) && full == AppendUint32List(AppendBytes(AppendBytes(s3, d.Val), ToBytes(d.Bitmap)), d.Offset)
    ensures |s3| <= |full| && full[..|s3|] == s3
    ensures BytesAt(full, |s3|) == Ok(Read(d.Val, p4))
    ensures BytesAt(full, p4) == Ok(Read(ToBytes(d.Bitmap), p5))
    ensures Uint32ListAt(full, p5).Ok? && Uint32ListAt(full, p5).value.value == d.Offset
  {
    var s4 := AppendBytes(s3, d.Val);
    var s5 := AppendBytes(s4, ToBytes(d.Bitmap));
    PrefixOfPrefix(full, s5, s4);
    PrefixOfPrefix(full, s4, s3);
    BytesInside(s3, d.Val, full);
    BytesInside(s4, ToBytes(d.Bitmap), full);
    Uint32ListRoundTrip(s5, d.Offset, []);
    assert full + [] == full;
    p4, p5 := |s4|, |s5|;
  }

  // -----------------------------------------------------------------------
  // What the fields of a built column mean

  lemma {:induction false} NullCountBound(calls: seq<Append>)
    ensures NullCount(calls) <= |calls|
  {
    if calls != [] {
      NullCountBound(calls[..|calls| - 1]);
    }
  }

  /** Len counts the calls, NilCount the null calls, and never exceeds Len;
      BitmapOffset stays 0. */
  lemma Counters(calls: seq<Append>)
    requires AllPackable(calls)
    ensures Replay(calls).Len == |calls| && Replay(calls).BitmapOffset == 0
    ensures Replay(calls).NilCount == NullCount(calls) <= Replay(calls).Len
  {
    NullCountBound(calls);
  }

  /** The value bytes of the calls, in order. */
  function Concat(calls: seq<Append>): Bytes
    requires AllPackable(calls)
  {
    if calls == [] then [] else Concat(calls[..|calls| - 1]) + ValueBytes(calls[|calls| - 1])
  }

  /** `Val` holds the encoded non-null values back to back. */
  lemma {:induction false} ValIsConcat(calls: seq<Append>)
    requires AllPackable(calls)
    ensures Replay(calls).Val == Concat(calls)
  {
    if calls != [] {
      ValIsConcat(calls[..|calls| - 1]);
    }
  }

  lemma {:induction false} ConcatPrefix(calls: seq<Append>, k: nat)
    requires AllPackable(calls) && k <= |calls|
    ensures |Concat(calls[..k])| <= |Concat(calls)|
    ensures Concat(calls)[..|Concat(calls[..k])|] == Concat(calls[..k])
    decreases |calls| - k
  {
    if k == |calls| {
      assert calls[..k] == calls;
    } else {
      var init := calls[..|calls| - 1];
      ConcatPrefix(init, k);
      assert init[..k] == calls[..k];
    }
  }

  predicate IsStringColumn(calls: seq<Append>)
  {
    forall i :: 0 <= i < |calls| ==> calls[i].Str? || calls[i].StringNull?
  }

  /** A string or a string null adds one offset: the length `Val` had. */
  lemma StringOffsetStep(calls: seq<Append>)
    requires AllPackable(calls) && calls != []
    requires calls[|calls| - 1].Str? || calls[|calls| - 1].StringNull?
    ensures var before := Replay(calls[..|calls| - 1]);
            Replay(calls).Offset == before.Offset + [|before.Val|]
  {
  }

  /** In a string column every row, null or not, has an offset, and it is
      where that row's bytes start. */
  lemma {:induction false} StringOffsets(calls: seq<Append>)
    requires AllPackable(calls) && IsStringColumn(calls)
    ensures |Replay(calls).Offset| == |calls|
    ensures forall k :: 0 <= k < |calls| ==> Replay(calls).Offset[k] == |Concat(calls[..k])|
  {
    if calls != [] {
      var n := |calls| - 1;
      var init := calls[..n];
      assert IsStringColumn(init) by {
        forall i | 0 <= i < |init| ensures init[i].Str? || init[i].StringNull? {
          assert init[i] == calls[i];
        }
      }
      StringOffsets(init);
      ValIsConcat(init);
      StringOffsetStep(calls);
      var offsets := Replay(calls).Offset;
      var old_offsets := Replay(init).Offset;
      assert offsets == old_offsets + [|Concat(init)|];
      forall k | 0 <= k < |calls| ensures offsets[k] == |Concat(calls[..k])| {
        if k < n {
          assert init[..k] == calls[..k];
          assert offsets[k] == old_offsets[k];
        } else {
          assert calls[..k] == init;
        }
      }
    }
  }

  /** Row `k` of a string column is the slice of `Val` from its offset to
      the next row's offset (or the end): the UTF-8 bytes of the string,
      or nothing for a null. */
  lemma StringRow(calls: seq<Append>, k: nat)
    requires AllPackable(calls) && IsStringColumn(calls) && k < |calls|
    ensures |Replay(calls).Offset| == |calls|
    ensures var d := Replay(calls);
            var end := if k + 1 < |calls| then d.Offset[k + 1] else |d.Val|;
            0 <= d.Offset[k] <= end <= |d.Val|
            && d.Val[d.Offset[k]..end] == if calls[k].Str? then Utf8Encode(calls[k].s) else []
  {
    var d := Replay(calls);
    StringOffsets(calls);
    ValIsConcat(calls);
    ConcatPrefix(calls, k);
    ConcatPrefix(calls, k + 1);
    var c := Concat(calls[..k]);
    var c1 := Concat(calls[..k + 1]);
    assert calls[..k + 1][..k] == calls[..k];
    assert c1 == c + ValueBytes(calls[k]);
    if k + 1 == |calls| {
      assert calls[..k + 1] == calls;
    }
    assert d.Val[..|c1|] == c1;
    assert d.Val[|c|..|c1|] == c1[|c|..];
  }

  // -----------------------------------------------------------------------
  // The validity bitmap

  lemma {:induction false} DigitsValue(v: nat, n: nat)
    requires v < Pow2(n)
    ensures BitsValue(Digits(v, n)) == v
  {
    if n > 0 {
      DigitsValue(v / 2, n - 1);
      assert Digits(v, n)[1..] == Digits(v / 2, n - 1);
    }
  }

  lemma {:induction false} ValueDigits(s: seq<bool>)
    ensures Digits(BitsValue(s), |s|) == s
  {
    if s != [] {
      ValueDigits(s[1..]);
    }
  }

  /** A byte and its eight bits determine each other. */
  lemma OctetRoundTrip(o: Octet, b: Byte)
    ensures ByteOctet(OctetValue(o)) == o
    ensures OctetValue(ByteOctet(b)) == b
  {
    ValueDigits(o);
    assert Pow2(8) == 256;
    DigitsValue(b, 8);
  }

  lemma BitsBytes(bm: seq<Octet>)
    ensures ToBits(ToBytes(bm)) == bm
  {
    forall i | 0 <= i < |bm| ensures ToBits(ToBytes(bm))[i] == bm[i] {
      OctetRoundTrip(bm[i], 0);
    }
  }

  /** Turning on digit `j` adds its weight unless it was on already;
      turning it off subtracts its weight if it was on. */
  lemma {:induction false} UpdateDigit(s: seq<bool>, j: nat, on: bool)
    requires j < |s|
    ensures BitsValue(s[j := on]) == BitsValue(s) - (if s[j] then Pow2(j) else 0) + (if on then Pow2(j) else 0)
  {
    if j == 0 {
      assert s[j := on][1..] == s[1..];
    } else {
      UpdateDigit(s[1..], j - 1, on);
      assert s[j := on][1..] == s[1..][j - 1 := on];
    }
  }

  /** The masks select the bits: `_BitMask[j]` is the byte with bit `j`
      alone, `_FlippedBitMask[j]` the byte with every bit but `j`. So
      `b | _BitMask[j]` is `b` with bit `j` on and `b & _FlippedBitMask[j]`
      is `b` with bit `j` off, which is what `SetBit` and `ClearBit` do to
      the byte. */
  lemma MasksSelectBits(o: Octet, j: nat)
    requires j < 8
    ensures BitMask[j] == Pow2(j) && FlippedBitMask[j] == 255 - Pow2(j)
    ensures OctetValue(o[j := true]) == OctetValue(o) + (if o[j] then 0 else BitMask[j])
    ensures OctetValue(o[j := false]) == OctetValue(o) - (if o[j] then BitMask[j] else 0)
  {
    assert Pow2(1) == 2 && Pow2(2) == 4 && Pow2(3) == 8 && Pow2(4) == 16;
    assert Pow2(5) == 32 && Pow2(6) == 64 && Pow2(7) == 128;
    UpdateDigit(o, j, true);
    UpdateDigit(o, j, false);
  }

  /** Setting bit `index` sets it and leaves every other bit as it was. */
  lemma SetBitSpec(bm: seq<Octet>, index: nat, i: nat)
    requires index / 8 < |bm|
    ensures |SetBit(bm, index)| == |bm|
    ensures IsSet(SetBit(bm, index), i) <==> (i == index || IsSet(bm, i))
  {
  }

  /** Clearing bit `index` clears it and leaves every other bit as it was. */
  lemma ClearBitSpec(bm: seq<Octet>, index: nat, i: nat)
    requires index / 8 < |bm|
    ensures |ClearBit(bm, index)| == |bm|
    ensures IsSet(ClearBit(bm, index), i) <==> (i != index && IsSet(bm, i))
  {
  }

  /** No null is appended at a row that starts a new bitmap byte, except
      row 0. */
  predicate NoNullStartsAByte(calls: seq<Append>)
  {
    forall i :: 0 < i < |calls| && i % 8 == 0 ==> !calls[i].IsNull()
  }

  lemma GrowBits(bm: seq<Octet>, b: Octet, i: nat)
    requires i / 8 < |bm|
    ensures IsSet(bm + [b], i) <==> IsSet(bm, i)
  {
    assert (bm + [b])[i / 8] == bm[i / 8];
  }

  /** The bitmap after one call on a column of `n` rows whose bitmap has one
      bit per row: row `n` gets the call's bit, the other rows keep theirs. */
  lemma BitmapStep(d: ColValData, a: Append, n: nat)
    requires d.Len == n && d.BitmapOffset == 0 && |d.Bitmap| == (n + 7) / 8
    requires a.Packable() && !(a.IsNull() && n > 0 && n % 8 == 0)
    ensures |Apply(d, a).Bitmap| == (n + 8) / 8
    ensures IsSet(Apply(d, a).Bitmap, n) <==> !a.IsNull()
    ensures forall i :: 0 <= i < n ==> (IsSet(Apply(d, a).Bitmap, i) <==> IsSet(d.Bitmap, i))
  {
    var bm := Apply(d, a).Bitmap;
    if n / 8 >= |d.Bitmap| {
      if a.IsNull() {
        assert bm == [ZeroOctet];
      } else {
        assert bm == d.Bitmap + [OneOctet];
        assert bm[n / 8] == OneOctet;
        forall i | 0 <= i < n ensures IsSet(bm, i) <==> IsSet(d.Bitmap, i) {
          GrowBits(d.Bitmap, OneOctet, i);
        }
      }
    } else if a.IsNull() {
      assert bm == ClearBit(d.Bitmap, n);
      ClearBitSpec(d.Bitmap, n, n);
      forall i | 0 <= i < n ensures IsSet(bm, i) <==> IsSet(d.Bitmap, i) {
        ClearBitSpec(d.Bitmap, n, i);
      }
    } else {
      assert bm == SetBit(d.Bitmap, n);
      SetBitSpec(d.Bitmap, n, n);
      forall i | 0 <= i < n ensures IsSet(bm, i) <==> IsSet(d.Bitmap, i) {
        SetBitSpec(d.Bitmap, n, i);
      }
    }
  }

  /** Unless a null starts a new byte, the bitmap has one bit per row and
      bit `i` is set exactly when row `i` holds a value. */
  lemma {:induction false} BitmapTracksRows(calls: seq<Append>)
    requires AllPackable(calls) && NoNullStartsAByte(calls)
    ensures |Replay(calls).Bitmap| == (|calls| + 7) / 8
    ensures forall i :: 0 <= i < |calls| ==> (IsSet(Replay(calls).Bitmap, i) <==> !calls[i].IsNull())
  {
    if calls != [] {
      var n := |calls| - 1;
      var init := calls[..n];
      assert AllPackable(init) && NoNullStartsAByte(init) by {
        assert forall i :: 0 <= i < n ==> init[i] == calls[i];
      }
      BitmapTracksRows(init);
      var d := Replay(init);
      BitmapStep(d, calls[n], n);
      var bm := Apply(d, calls[n]).Bitmap;
      assert Replay(calls).Bitmap == bm;
      forall i | 0 <= i < |calls| ensures IsSet(bm, i) <==> !calls[i].IsNull() {
        if i < n {
          assert IsSet(bm, i) <==> IsSet(d.Bitmap, i);
          assert IsSet(d.Bitmap, i) <==> !init[i].IsNull();
          assert init[i] == calls[i];
        } else {
          assert i == n;
        }
      }
    }
  }

  /** Eight values and then a null: the null falls past the only byte, so
      `_reset_bitmap` replaces the bitmap by the byte 0 and the first eight
      rows lose their validity bits. */
  lemma NullAtRowEightWipesBitmap()
    ensures var calls := Repeat(Integer(0), 8) + [IntegerNull];
            AllPackable(calls) && Replay(calls).Bitmap == [ZeroOctet]
            && !calls[0].IsNull() && !IsSet(Replay(calls).Bitmap, 0)
  {
    var values := Repeat(Integer(0), 8);
    assert forall i :: 0 <= i < 8 ==> values[i] == Integer(0) by {
      assert values == [Integer(0), Integer(0), Integer(0), Integer(0),
                        Integer(0), Integer(0), Integer(0), Integer(0)];
    }
    BitmapTracksRows(values);
    ApplyAllStep(Empty, values, IntegerNull);
  }
}
