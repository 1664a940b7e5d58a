/**
 * The column descriptor of a record (opengemini_client/record/field.py):
 * a type tag and a name, written as a length-prefixed string followed by a
 * zig-zag int64.
 */
module Fields {
  import opened Wire
  import opened Size
  import opened BinaryEncoder
  import opened BinaryDecoder

  const FieldTypeUnknown: int := 0
  const FieldTypeInt: int := 1
  const FieldTypeUInt: int := 2
  const FieldTypeFloat: int := 3
  const FieldTypeString: int := 4
  const FieldTypeBoolean: int := 5
  const FieldTypeTag: int := 6
  const FieldTypeLast: int := 7

  /** The value of a Field object at one moment. */
  datatype FieldDesc = FieldDesc(Type: int, Name: string)

  /** What `marshal` needs: the name fits the uint16 prefix and the type
      fits numpy's int64. */
  predicate Marshalable(d: FieldDesc)
  {
    |d.Name| < TwoTo16 && IsInt64(d.Type)
  }

  /** What a round trip needs on top: an ASCII name (the prefix counts
      characters) and a type inside the int64 codec's exact range. */
  predicate RoundTrips(d: FieldDesc)
  {
    Marshalable(d) && IsAscii(d.Name) && -TwoTo62 <= d.Type < TwoTo62
  }

  function CodecSizeOf(d: FieldDesc): nat
  {
    SizeOfString(d.Name) + SizeOfInt64()
  }

  /** `marshal`: the name, then the type. */
  function Encode(buf: Bytes, d: FieldDesc): (r: Bytes)
    requires Marshalable(d)
    ensures |r| >= |buf| + CodecSizeOf(d) && r[..|buf|] == buf
    ensures |r| == |buf| + CodecSizeOf(d) <==> IsAscii(d.Name)
  {
    var s := AppendString(buf, d.Name);
    var r := AppendInt64(s, d.Type);
    assert r[..|buf|] == r[..|s|][..|buf|];
    r
  }

  /** `unmarshal` applied to a Field holding `d`: the new value and the
      exception raised, if any. An empty buffer changes nothing; a failure
      while reading the type leaves the name already assigned. */
  function UnmarshalInto(d: FieldDesc, buf: Bytes): (FieldDesc, Option<DecodeError>)
  {
    if |buf| == 0 then (d, None)
    else
      match StringAt(buf, 0)
      case Err(e) => (d, Some(e))
      case Ok(Read(name, p)) =>
        match Int64At(buf, p)
        case Err(e) => (d.(Name := name), Some(e))
        case Ok(Read(t, _)) => (FieldDesc(t, name), None)
  }

  class Field {
    var Type: int
    var Name: string

    constructor (t: int, name: string)
      ensures Type == t && Name == name
    {
      Type := t;
      Name := name;
    }

    function Desc(): FieldDesc
      reads this
    {
      FieldDesc(Type, Name)
    }

    function Marshal(buf: Bytes): Bytes
      reads this
      requires Marshalable(Desc())
    {
      Encode(buf, Desc())
    }

    function CodecSize(): nat
      reads this
    {
      CodecSizeOf(Desc())
    }

    method Unmarshal(buf: Bytes) returns (err: Option<DecodeError>)
      modifies this
      ensures (Desc(), err) == UnmarshalInto(old(Desc()), buf)
    {
      if |buf| == 0 {
        return None;
      }
      var dec := new Decoder(buf, 0);
      var name := dec.String();
      if name.Err? {
        return Some(name.error);
      }
      Name := name.value;
      var t := dec.Int64();
      if t.Err? {
        return Some(t.error);
      }
      Type := t.value;
      err := None;
    }
  }

  /** `codec_size()` is the name length plus ten, and it is the marshalled
      length exactly when the name is ASCII. */
  lemma CodecSizeIsMarshalLength(buf: Bytes, d: FieldDesc)
    requires Marshalable(d)
    ensures CodecSizeOf(d) == |d.Name| + 10
    ensures |Encode(buf, d)| - |buf| == CodecSizeOf(d) <==> IsAscii(d.Name)
  {
  }

  /** `marshal` only appends: its output is the input followed by the
      bytes it writes for an empty buffer. */
  lemma EncodeAppends(buf: Bytes, d: FieldDesc)
    requires Marshalable(d)
    ensures Encode(buf, d) == buf + Encode([], d)
  {
    assert buf == buf + [];
    AppendStringShift(buf, [], d.Name);
    AppendInt64Shift(buf, AppendString([], d.Name), d.Type);
  }

  /** Unmarshalling what `marshal` wrote restores the name and the type,
      whatever the Field held before. */
  lemma RoundTrip(d: FieldDesc, before: FieldDesc)
    requires RoundTrips(d)
    ensures UnmarshalInto(before, Encode([], d)) == (d, None)
  {
    var s := AppendString([], d.Name);
    var full := Encode([], d);
    StringRoundTrip([], d.Name, full[|s|..]);
    assert s + full[|s|..] == full;
    Int64RoundTrip(s, d.Type, []);
    assert full + [] == full;
  }
}
