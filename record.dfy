/**
 * A record (opengemini_client/record/record.py): a list of column
 * descriptors and a list of columns, written as a uint32 count and then
 * every Field framed by its `codec_size()`, followed by a uint32 count and
 * every ColVal framed the same way.
 *
 * `marshal` and `code_size` loop over the two lists and `unmarshal` appends
 * freshly decoded objects to them; each method is proved against a pure
 * function of the record's value (`Encode`, `CodeSizeOf`, `UnmarshalInto`)
 * and the lemmas at the end relate those functions.
 */
module Records {
  import opened Wire
  import opened Size
  import opened BinaryEncoder
  import opened BinaryDecoder
  import F = Fields
  import C = ColVals

  /** The name of the time column. */
  const TimeField: string := "time"

  /** The value of a Record at one moment. */
  datatype RecordData = RecordData(Fields: seq<F.FieldDesc>, ColVals: seq<C.ColValData>)

  predicate FieldsMarshalable(fs: seq<F.FieldDesc>)
  {
    forall i :: 0 <= i < |fs| ==> F.Marshalable(fs[i])
  }

  /** A column can be framed when it can be marshalled and its
      `codec_size()` fits the uint32 frame prefix. */
  predicate ColValsMarshalable(cs: seq<C.ColValData>)
  {
    forall i :: 0 <= i < |cs| ==> C.Marshalable(cs[i]) && C.CodecSizeOf(cs[i]) < TwoTo32
  }

  /** What `marshal` needs: both counts fit their uint32 prefixes and every
      element can be framed. */
  predicate Marshalable(r: RecordData)
  {
    |r.Fields| < TwoTo32 && |r.ColVals| < TwoTo32
    && FieldsMarshalable(r.Fields) && ColValsMarshalable(r.ColVals)
  }

  predicate FieldsRoundTrip(fs: seq<F.FieldDesc>)
  {
    forall i :: 0 <= i < |fs| ==> F.RoundTrips(fs[i])
  }

  predicate ColValsRoundTrip(cs: seq<C.ColValData>)
  {
    forall i :: 0 <= i < |cs| ==> C.RoundTrips(cs[i]) && C.CodecSizeOf(cs[i]) < TwoTo32
  }

  /** What a round trip needs on top: every Field and ColVal round-trips on
      its own (ASCII names, counters in the exact int64 range). */
  predicate RoundTrips(r: RecordData)
  {
    |r.Fields| < TwoTo32 && |r.ColVals| < TwoTo32
    && FieldsRoundTrip(r.Fields) && ColValsRoundTrip(r.ColVals)
  }

  // -----------------------------------------------------------------------
  // The wire form

  /** The field loop of `marshal`: each field's `codec_size()` as a uint32,
      then the field. */
  function EncodeFields(buf: Bytes, fs: seq<F.FieldDesc>): Bytes
    requires FieldsMarshalable(fs)
    decreases |fs|
  {
    if fs == [] then buf
    else EncodeFields(FieldFrame(buf, fs[0]), fs[1..])
  }

  /** One field as the field loop writes it: its size, then the field. */
  function FieldFrame(buf: Bytes, d: F.FieldDesc): Bytes
    requires F.Marshalable(d)
  {
    F.Encode(AppendUint32(buf, F.CodecSizeOf(d)), d)
  }

  /** The column loop of `marshal`. */
  function EncodeColVals(buf: Bytes, cs: seq<C.ColValData>): Bytes
    requires ColValsMarshalable(cs)
    decreases |cs|
  {
    if cs == [] then buf
    else EncodeColVals(ColValFrame(buf, cs[0]), cs[1..])
  }

  /** One column as the column loop writes it. */
  function ColValFrame(buf: Bytes, d: C.ColValData): Bytes
    requires C.Marshalable(d) && C.CodecSizeOf(d) < TwoTo32
  {
    C.Encode(AppendUint32(buf, C.CodecSizeOf(d)), d)
  }

  /** `marshal`. */
  function Encode(buf: Bytes, r: RecordData): Bytes
    requires Marshalable(r)
  {
    var afterFields := EncodeFields(AppendUint32(buf, |r.Fields|), r.Fields);
    EncodeColVals(AppendUint32(afterFields, |r.ColVals|), r.ColVals)
  }

  function FieldSizes(fs: seq<F.FieldDesc>): nat
  {
    if fs == [] then 0 else SizeOfUint32() + F.CodecSizeOf(fs[0]) + FieldSizes(fs[1..])
  }

  function ColValSizes(cs: seq<C.ColValData>): nat
  {
    if cs == [] then 0 else SizeOfUint32() + C.CodecSizeOf(cs[0]) + ColValSizes(cs[1..])
  }

  /** `code_size()`: the two counts, and every element with its frame
      prefix. */
  function CodeSizeOf(r: RecordData): nat
  {
    SizeOfUint32() + FieldSizes(r.Fields) + SizeOfUint32() + ColValSizes(r.ColVals)
  }

  /** What the decoding loops produce: the elements decoded, the offset
      reached and the exception that ended the loop, if any. */
  datatype Decoded<T> = Decoded(items: seq<T>, next: nat, err: Option<DecodeError>)

  /** Prepends elements decoded earlier to the outcome of a later part of
      a loop. */
  function Prepend<T>(items: seq<T>, r: Decoded<T>): Decoded<T>
  {
    Decoded(items + r.items, r.next, r.err)
  }

  /** A Field as `Field()` constructs it. */
  const DefaultField: F.FieldDesc := F.FieldDesc(0, "")

  /** One turn of the field loop of `unmarshal`: a blob read with
      `bytes()` and unmarshalled into a fresh Field. */
  function FieldAt(buf: Bytes, off: nat): Result<Read<F.FieldDesc>, DecodeError>
  {
    match BytesAt(buf, off)
    case Err(e) => Err(e)
    case Ok(Read(blob, p)) =>
      match F.UnmarshalInto(DefaultField, blob)
      case (_, Some(e)) => Err(e)
      case (d, None) => Ok(Read(d, p))
  }

  /** One turn of the column loop of `unmarshal`, into a fresh ColVal. */
  function ColValAt(buf: Bytes, off: nat): Result<Read<C.ColValData>, DecodeError>
  {
    match BytesAt(buf, off)
    case Err(e) => Err(e)
    case Ok(Read(blob, p)) =>
      match C.UnmarshalInto(C.Empty, blob)
      case (_, Some(e)) => Err(e)
      case (d, None) => Ok(Read(d, p))
  }

  /** `n` turns of a decoding loop from offset `off`, each reading one
      element with `step`; the first exception ends the loop. */
  function DecodeN<T>(step: (Bytes, nat) -> Result<Read<T>, DecodeError>, buf: Bytes, off: nat, n: nat): Decoded<T>
    decreases n
  {
    if n == 0 then Decoded([], off, None)
    else
      match step(buf, off)
      case Err(e) => Decoded([], off, Some(e))
      case Ok(Read(d, p)) => Prepend([d], DecodeN(step, buf, p, n - 1))
  }

  /** `unmarshal` applied to a Record holding `r`: the decoded elements are
      APPENDED to the lists already there, and an exception keeps every
      element decoded before it. An empty buffer changes nothing. */
  function UnmarshalInto(r: RecordData, buf: Bytes): (RecordData, Option<DecodeError>)
  {
    if |buf| == 0 then (r, None)
    else
      match Uint32At(buf, 0)
      case Err(e) => (r, Some(e))
      case Ok(Read(n, p)) => UnmarshalFieldsAt(r, buf, p, n)
  }

  /** `unmarshal` from the field loop on, with `n` fields to read at `off`. */
  function UnmarshalFieldsAt(r: RecordData, buf: Bytes, off: nat, n: nat): (RecordData, Option<DecodeError>)
  {
    var fs := DecodeN(FieldAt, buf, off, n);
    var r1 := r.(Fields := r.Fields + fs.items);
    if fs.err.Some? then (r1, fs.err)
    else UnmarshalColValsAt(r1, buf, fs.next)
  }

  /** `unmarshal` from the column count on. */
  function UnmarshalColValsAt(r: RecordData, buf: Bytes, off: nat): (RecordData, Option<DecodeError>)
  {
    match Uint32At(buf, off)
    case Err(e) => (r, Some(e))
    case Ok(Read(m, q)) =>
      var cs := DecodeN(ColValAt, buf, q, m);
      (r.(ColVals := r.ColVals + cs.items), cs.err)
  }

  /** After `i` clean turns, turn `i + 1` either appends one element or
      ends the whole loop with its exception. */
  lemma {:induction false} DecodeNStep<T>(step: (Bytes, nat) -> Result<Read<T>, DecodeError>, buf: Bytes, off: nat, i: nat, n: nat)
    requires i < n && DecodeN(step, buf, off, i).err.None?
    ensures var r := DecodeN(step, buf, off, i);
            match step(buf, r.next)
            case Err(e) => DecodeN(step, buf, off, n) == Decoded(r.items, r.next, Some(e))
            case Ok(Read(d, p)) => DecodeN(step, buf, off, i + 1) == Decoded(r.items + [d], p, None)
    decreases i
  {
    if i > 0 {
      match step(buf, off)
      case Ok(Read(d, p)) =>
        DecodeNStep(step, buf, p, i - 1, n - 1);
        var r := DecodeN(step, buf, p, i - 1);
        match step(buf, r.next)
        case Err(e) =>
        case Ok(Read(x, q)) =>
          assert [d] + (r.items + [x]) == ([d] + r.items) + [x];
    }
  }

  // -----------------------------------------------------------------------
  // The class

  /** The values of a list of Field objects. */
  function Descs(fs: seq<F.Field>): (r: seq<F.FieldDesc>)
    reads fs
    ensures |r| == |fs| && forall i :: 0 <= i < |fs| ==> r[i] == fs[i].Desc()
  {
    if fs == [] then [] else Descs(fs[..|fs| - 1]) + [fs[|fs| - 1].Desc()]
  }

  /** The values of a list of ColVal objects. */
  function Datas(cs: seq<C.ColVal>): (r: seq<C.ColValData>)
    reads cs
    ensures |r| == |cs| && forall i :: 0 <= i < |cs| ==> r[i] == cs[i].Data()
  {
    if cs == [] then [] else Datas(cs[..|cs| - 1]) + [cs[|cs| - 1].Data()]
  }

  lemma DescsSnoc(fs: seq<F.Field>, f: F.Field)
    ensures Descs(fs + [f]) == Descs(fs) + [f.Desc()]
  {
    PrefixOfSnoc(fs, f);
  }

  lemma {:induction false} DescsAppend(olds: seq<F.Field>, news: seq<F.Field>, done: seq<F.FieldDesc>)
    requires |news| == |done| && forall k :: 0 <= k < |news| ==> news[k].Desc() == done[k]
    ensures Descs(olds + news) == Descs(olds) + done
    decreases |news|
  {
    if news == [] {
      assert olds + news == olds;
    } else {
      var m := |news| - 1;
      DescsAppend(olds, news[..m], done[..m]);
      assert olds + news == (olds + news[..m]) + [news[m]];
      DescsSnoc(olds + news[..m], news[m]);
      assert done == done[..m] + [done[m]];
    }
  }

  /** Objects the heap change left alone keep their values. */
  twostate lemma DescsUnchanged(fs: seq<F.Field>)
    requires forall k :: 0 <= k < |fs| ==> unchanged(fs[k])
    ensures Descs(fs) == old(Descs(fs))
  {
  }

  twostate lemma DatasUnchanged(cs: seq<C.ColVal>)
    requires forall k :: 0 <= k < |cs| ==> unchanged(cs[k])
    ensures Datas(cs) == old(Datas(cs))
  {
  }

  lemma DatasSnoc(cs: seq<C.ColVal>, c: C.ColVal)
    ensures Datas(cs + [c]) == Datas(cs) + [c.Data()]
  {
    PrefixOfSnoc(cs, c);
  }

  lemma {:induction false} DatasAppend(olds: seq<C.ColVal>, news: seq<C.ColVal>, added: seq<C.ColValData>)
    requires |news| == |added| && forall k :: 0 <= k < |news| ==> news[k].Data() == added[k]
    ensures Datas(olds + news) == Datas(olds) + added
    decreases |news|
  {
    if news == [] {
      assert olds + news == olds;
    } else {
      var m := |news| - 1;
      DatasAppend(olds, news[..m], added[..m]);
      assert olds + news == (olds + news[..m]) + [news[m]];
      DatasSnoc(olds + news[..m], news[m]);
      assert added == added[..m] + [added[m]];
    }
  }

  class Record {
    var ColVals: seq<C.ColVal>
    var Fields: seq<F.Field>

    constructor ()
      ensures ColVals == [] && Fields == []
    {
      ColVals := [];
      Fields := [];
    }

    function Data(): RecordData
      reads this, Fields, ColVals
    {
      RecordData(Descs(Fields), Datas(ColVals))
    }

    method Marshal(buf: Bytes) returns (r: Bytes)
      requires Marshalable(Data())
      ensures r == Encode(buf, Data())
    {
      r := AppendUint32(buf, |Fields|);
      r := MarshalFields(r);
      r := AppendUint32(r, |ColVals|);
      r := MarshalColVals(r);
    }

    /** The field loop of `marshal`. */
    method MarshalFields(buf: Bytes) returns (r: Bytes)
      requires FieldsMarshalable(Descs(Fields))
      ensures r == EncodeFields(buf, Descs(Fields)) && Data() == old(Data())
    {
      ghost var fs := Descs(Fields);
      r := buf;
      for i := 0 to |Fields|
        invariant EncodeFields(r, fs[i..]) == EncodeFields(buf, fs)
      {
        assert fs[i..][1..] == fs[i + 1..];
        r := AppendUint32(r, Fields[i].CodecSize());
        r := Fields[i].Marshal(r);
      }
      assert fs[|Fields|..] == [];
    }

    /** The column loop of `marshal`. */
    method MarshalColVals(buf: Bytes) returns (r: Bytes)
      requires ColValsMarshalable(Datas(ColVals))
      ensures r == EncodeColVals(buf, Datas(ColVals)) && Data() == old(Data())
    {
      ghost var cs := Datas(ColVals);
      r := buf;
      for j := 0 to |ColVals|
        invariant EncodeColVals(r, cs[j..]) == EncodeColVals(buf, cs)
      {
        assert cs[j..][1..] == cs[j + 1..];
        r := AppendUint32(r, ColVals[j].CodecSize());
        r := ColVals[j].Marshal(r);
      }
      assert cs[|ColVals|..] == [];
    }

    method CodeSize() returns (size: nat)
      ensures size == CodeSizeOf(Data())
    {
      size := 0;
      size := size + SizeOfUint32();
      var fieldsSize := FieldsCodeSize();
      size := size + fieldsSize;
      size := size + SizeOfUint32();
      var colValsSize := ColValsCodeSize();
      size := size + colValsSize;
    }

    /** The field loop of `code_size`. */
    method FieldsCodeSize() returns (size: nat)
      ensures size == FieldSizes(Descs(Fields))
    {
      ghost var fs := Descs(Fields);
      size := 0;
      for i := 0 to |Fields|
        invariant size + FieldSizes(fs[i..]) == FieldSizes(fs)
      {
        assert fs[i..][1..] == fs[i + 1..];
        size := size + SizeOfUint32();
        size := size + Fields[i].CodecSize();
      }
      assert fs[|Fields|..] == [];
    }

    /** The column loop of `code_size`. */
    method ColValsCodeSize() returns (size: nat)
      ensures size == ColValSizes(Datas(ColVals))
    {
      ghost var cs := Datas(ColVals);
      size := 0;
      for j := 0 to |ColVals|
        invariant size + ColValSizes(cs[j..]) == ColValSizes(cs)
      {
        assert cs[j..][1..] == cs[j + 1..];
        size := size + SizeOfUint32();
        size := size + ColVals[j].CodecSize();
      }
      assert cs[|ColVals|..] == [];
    }

    method Unmarshal(buf: Bytes) returns (err: Option<DecodeError>)
      modifies this
      ensures (Data(), err) == UnmarshalInto(old(Data()), buf)
    {
      if |buf| == 0 {
        return None;
      }
      var dec := new Decoder(buf, 0);
      var fl := dec.Uint32();
      if fl.Err? {
        return Some(fl.error);
      }
      err := UnmarshalFields(dec, fl.value);
    }

    /** The rest of `unmarshal`, once the field count is read. */
    method UnmarshalFields(dec: Decoder, n: nat) returns (err: Option<DecodeError>)
      modifies this, dec
      ensures (Data(), err) == UnmarshalFieldsAt(old(Data()), dec.buf, old(dec.offset), n)
    {
      ghost var before := Data();
      var fields, e := ReadFields(dec, n, FieldAt);
      assert Data() == before;
      AppendFields(fields, Descs(fields));
      if e.Some? {
        return e;
      }
      err := UnmarshalColVals(dec);
    }

    method UnmarshalColVals(dec: Decoder) returns (err: Option<DecodeError>)
      modifies this, dec
      ensures (Data(), err) == UnmarshalColValsAt(old(Data()), dec.buf, old(dec.offset))
    {
      var cl := dec.Uint32();
      if cl.Err? {
        return Some(cl.error);
      }
      ghost var before := Data();
      var cols, e := ReadColVals(dec, cl.value, ColValAt);
      assert Data() == before;
      AppendColVals(cols, Datas(cols));
      return e;
    }

    method AppendFields(fields: seq<F.Field>, ghost added: seq<F.FieldDesc>)
      requires Descs(fields) == added
      modifies this`Fields
      ensures Data() == old(Data()).(Fields := old(Data()).Fields + added)
    {
      DescsAppend(Fields, fields, added);
      Fields := Fields + fields;
    }

    method AppendColVals(cols: seq<C.ColVal>, ghost added: seq<C.ColValData>)
      requires Datas(cols) == added
      modifies this`ColVals
      ensures Data() == old(Data()).(ColVals := old(Data()).ColVals + added)
    {
      DatasAppend(ColVals, cols, added);
      ColVals := ColVals + cols;
    }
  }

  // The two decoding loops are proved for any `step` that agrees with the
  // reader of one element; the callers pass that reader itself. Keeping
  // `step` abstract inside the loop spares the proof the reader's body.

  /** The field loop of `unmarshal`: the Fields it creates, in order, and
      the exception that stopped it. */
  method ReadFields(dec: Decoder, n: nat, ghost step: (Bytes, nat) -> Result<Read<F.FieldDesc>, DecodeError>)
    returns (fields: seq<F.Field>, err: Option<DecodeError>)
    requires forall b, o {:trigger FieldAt(b, o)} :: step(b, o) == FieldAt(b, o)
    modifies dec
    ensures var r := DecodeN(step, dec.buf, old(dec.offset), n);
            Descs(fields) == r.items && err == r.err && (err.None? ==> dec.offset == r.next)
  {
    fields := [];
    ghost var done: seq<F.FieldDesc> := [];
    var i := 0;
    while i < n
      invariant 0 <= i <= n
      invariant |fields| == |done| && forall k :: 0 <= k < |fields| ==> fields[k].Desc() == done[k]
      invariant DecodeN(step, dec.buf, old(dec.offset), i) == Decoded(done, dec.offset, None)
    {
      var e;
      fields, done, e := ReadFieldStep(dec, step, old(dec.offset), i, n, fields, done);
      if e.Some? {
        return fields, e;
      }
      i := i + 1;
    }
    return fields, None;
  }

  /** The column loop of `unmarshal`. */
  method ReadColVals(dec: Decoder, n: nat, ghost step: (Bytes, nat) -> Result<Read<C.ColValData>, DecodeError>)
    returns (cols: seq<C.ColVal>, err: Option<DecodeError>)
    requires forall b, o {:trigger ColValAt(b, o)} :: step(b, o) == ColValAt(b, o)
    modifies dec
    ensures var r := DecodeN(step, dec.buf, old(dec.offset), n);
            Datas(cols) == r.items && err == r.err && (err.None? ==> dec.offset == r.next)
  {
    cols := [];
    ghost var done: seq<C.ColValData> := [];
    var j := 0;
    while j < n
      invariant 0 <= j <= n
      invariant |cols| == |done| && forall k :: 0 <= k < |cols| ==> cols[k].Data() == done[k]
      invariant DecodeN(step, dec.buf, old(dec.offset), j) == Decoded(done, dec.offset, None)
    {
      var e;
      cols, done, e := ReadColValStep(dec, step, old(dec.offset), j, n, cols, done);
      if e.Some? {
        return cols, e;
      }
      j := j + 1;
    }
    return cols, None;
  }

  /** Turn `i` of the field loop, which started at `off0` and has created
      `fields`, holding `done`, so far: its Field is appended and extends
      the outcome by one element, or its exception is the outcome of the
      whole loop. */
  method ReadFieldStep(dec: Decoder, ghost step: (Bytes, nat) -> Result<Read<F.FieldDesc>, DecodeError>,
                       ghost off0: nat, ghost i: nat, ghost n: nat, fields: seq<F.Field>, ghost done: seq<F.FieldDesc>)
    returns (fields': seq<F.Field>, ghost done': seq<F.FieldDesc>, err: Option<DecodeError>)
    requires forall b, o {:trigger FieldAt(b, o)} :: step(b, o) == FieldAt(b, o)
    requires |fields| == |done| && forall k :: 0 <= k < |fields| ==> fields[k].Desc() == done[k]
    requires i < n && DecodeN(step, dec.buf, off0, i) == Decoded(done, dec.offset, None)
    modifies dec
    ensures |fields'| == |done'| && forall k :: 0 <= k < |fields'| ==> fields'[k].Desc() == done'[k]
    ensures err.Some? ==> DecodeN(step, dec.buf, off0, n) == Decoded(done', old(dec.offset), err)
    ensures err.None? ==> DecodeN(step, dec.buf, off0, i + 1) == Decoded(done', dec.offset, None)
  {
    DecodeNStep(step, dec.buf, off0, i, n);
    var fd;
    fd, err := ReadField(dec);
    if err.Some? {
      return fields, done, err;
    }
    fields' := fields + [fd];
    done' := done + [fd.Desc()];
  }

  /** Turn `j` of the column loop. */
  method ReadColValStep(dec: Decoder, ghost step: (Bytes, nat) -> Result<Read<C.ColValData>, DecodeError>,
                        ghost off0: nat, ghost j: nat, ghost n: nat, cols: seq<C.ColVal>, ghost done: seq<C.ColValData>)
    returns (cols': seq<C.ColVal>, ghost done': seq<C.ColValData>, err: Option<DecodeError>)
    requires forall b, o {:trigger ColValAt(b, o)} :: step(b, o) == ColValAt(b, o)
    requires |cols| == |done| && forall k :: 0 <= k < |cols| ==> cols[k].Data() == done[k]
    requires j < n && DecodeN(step, dec.buf, off0, j) == Decoded(done, dec.offset, None)
    modifies dec
    ensures |cols'| == |done'| && forall k :: 0 <= k < |cols'| ==> cols'[k].Data() == done'[k]
    ensures err.Some? ==> DecodeN(step, dec.buf, off0, n) == Decoded(done', old(dec.offset), err)
    ensures err.None? ==> DecodeN(step, dec.buf, off0, j + 1) == Decoded(done', dec.offset, None)
  {
    DecodeNStep(step, dec.buf, off0, j, n);
    var col;
    col, err := ReadColVal(dec);
    if err.Some? {
      return cols, done, err;
    }
    cols' := cols + [col];
    done' := done + [col.Data()];
  }

  /** `fd = Field(); fd.unmarshal(dec.bytes())`. */
  method ReadField(dec: Decoder) returns (fd: F.Field, err: Option<DecodeError>)
    modifies dec
    ensures fresh(fd)
    ensures var r := FieldAt(dec.buf, old(dec.offset));
            if r.Err? then err == Some(r.error)
            else err == None && fd.Desc() == r.value.value && dec.offset == r.value.next
  {
    fd := new F.Field(0, "");
    var blob := dec.Bytes();
    if blob.Err? {
      return fd, Some(blob.error);
    }
    err := fd.Unmarshal(blob.value);
  }

  /** `col = ColVal(); col.unmarshal(dec.bytes())`. */
  method ReadColVal(dec: Decoder) returns (col: C.ColVal, err: Option<DecodeError>)
    modifies dec
    ensures fresh(col)
    ensures var r := ColValAt(dec.buf, old(dec.offset));
            if r.Err? then err == Some(r.error)
            else err == None && col.Data() == r.value.value && dec.offset == r.value.next
  {
    col := new C.ColVal();
    var blob := dec.Bytes();
    if blob.Err? {
      return col, Some(blob.error);
    }
    err := col.Unmarshal(blob.value);
  }

  // -----------------------------------------------------------------------
  // What the wire form promises

  predicate AsciiNames(fs: seq<F.FieldDesc>)
  {
    forall i :: 0 <= i < |fs| ==> IsAscii(fs[i].Name)
  }

  lemma FieldsTail(fs: seq<F.FieldDesc>)
    requires fs != []
    ensures FieldsMarshalable(fs) ==> FieldsMarshalable(fs[1..])
    ensures FieldsRoundTrip(fs) ==> FieldsRoundTrip(fs[1..])
  {
    assert forall i :: 0 < i < |fs| ==> fs[1..][i - 1] == fs[i];
  }

  lemma AsciiTail(fs: seq<F.FieldDesc>)
    requires fs != []
    ensures AsciiNames(fs) <==> IsAscii(fs[0].Name) && AsciiNames(fs[1..])
  {
    assert forall i :: 0 < i < |fs| ==> fs[1..][i - 1] == fs[i];
  }

  lemma ColValsTail(cs: seq<C.ColValData>)
    requires cs != []
    ensures ColValsMarshalable(cs) ==> ColValsMarshalable(cs[1..])
    ensures ColValsRoundTrip(cs) ==> ColValsRoundTrip(cs[1..])
  {
    assert forall i :: 0 < i < |cs| ==> cs[1..][i - 1] == cs[i];
  }

  lemma FieldFrameAppends(buf: Bytes, d: F.FieldDesc)
    requires F.Marshalable(d)
    ensures FieldFrame(buf, d) == buf + FieldFrame([], d)
  {
    var size := F.CodecSizeOf(d);
    var prefix := AppendUint32([], size);
    ConcatEmpty(buf);
    AppendUint32Shift(buf, [], size);
    F.EncodeAppends(buf + prefix, d);
    F.EncodeAppends(prefix, d);
    ConcatAssoc(buf, prefix, F.Encode([], d));
  }

  lemma ColValFrameAppends(buf: Bytes, d: C.ColValData)
    requires C.Marshalable(d) && C.CodecSizeOf(d) < TwoTo32
    ensures ColValFrame(buf, d) == buf + ColValFrame([], d)
  {
    var size := C.CodecSizeOf(d);
    var prefix := AppendUint32([], size);
    ConcatEmpty(buf);
    AppendUint32Shift(buf, [], size);
    C.EncodeAppends(buf + prefix, d);
    C.EncodeAppends(prefix, d);
    ConcatAssoc(buf, prefix, C.Encode([], d));
  }

  /** The field loop of `marshal` only appends. */
  lemma {:induction false} EncodeFieldsAppends(buf: Bytes, fs: seq<F.FieldDesc>)
    requires FieldsMarshalable(fs)
    ensures EncodeFields(buf, fs) == buf + EncodeFields([], fs)
    decreases |fs|
  {
    if fs != [] {
      var framed := FieldFrame([], fs[0]);
      FieldsTail(fs);
      FieldFrameAppends(buf, fs[0]);
      EncodeFieldsAppends(buf + framed, fs[1..]);
      EncodeFieldsAppends(framed, fs[1..]);
      var rest := EncodeFields([], fs[1..]);
      ConcatAssoc(buf, framed, rest);
    }
  }

  /** The column loop of `marshal` only appends. */
  lemma {:induction false} EncodeColValsAppends(buf: Bytes, cs: seq<C.ColValData>)
    requires ColValsMarshalable(cs)
    ensures EncodeColVals(buf, cs) == buf + EncodeColVals([], cs)
    decreases |cs|
  {
    if cs != [] {
      var framed := ColValFrame([], cs[0]);
      ColValsTail(cs);
      ColValFrameAppends(buf, cs[0]);
      EncodeColValsAppends(buf + framed, cs[1..]);
      EncodeColValsAppends(framed, cs[1..]);
      var rest := EncodeColVals([], cs[1..]);
      ConcatAssoc(buf, framed, rest);
    }
  }

  /** `marshal` only appends: its output is the input followed by the
      bytes it writes for an empty buffer. */
  lemma EncodeAppends(buf: Bytes, r: RecordData)
    requires Marshalable(r)
    ensures Encode(buf, r) == buf + Encode([], r)
  {
    var fs, cs := r.Fields, r.ColVals;
    var countPrefix := AppendUint32([], |fs|);
    ConcatEmpty(buf);
    AppendUint32Shift(buf, [], |fs|);
    EncodeFieldsAppends(buf + countPrefix, fs);
    EncodeFieldsAppends(countPrefix, fs);
    ConcatAssoc(buf, countPrefix, EncodeFields([], fs));
    var fields := EncodeFields(countPrefix, fs);
    assert EncodeFields(AppendUint32(buf, |fs|), fs) == buf + fields;
    AppendUint32Shift(buf, fields, |cs|);
    var colPrefix := AppendUint32(fields, |cs|);
    EncodeColValsAppends(buf + colPrefix, cs);
    EncodeColValsAppends(colPrefix, cs);
    ConcatAssoc(buf, colPrefix, EncodeColVals([], cs));
  }

  /** Every framed field counts `codec_size()` bytes and its prefix; the
      count is exact precisely when every name is ASCII. */
  lemma {:induction false} EncodeFieldsLength(buf: Bytes, fs: seq<F.FieldDesc>)
    requires FieldsMarshalable(fs)
    ensures |EncodeFields(buf, fs)| >= |buf| + FieldSizes(fs)
    ensures |EncodeFields(buf, fs)| == |buf| + FieldSizes(fs) <==> AsciiNames(fs)
    decreases |fs|
  {
    if fs != [] {
      FieldsTail(fs);
      AsciiTail(fs);
      EncodeFieldsLength(FieldFrame(buf, fs[0]), fs[1..]);
    }
  }

  lemma {:induction false} EncodeColValsLength(buf: Bytes, cs: seq<C.ColValData>)
    requires ColValsMarshalable(cs)
    ensures |EncodeColVals(buf, cs)| == |buf| + ColValSizes(cs)
    decreases |cs|
  {
    if cs != [] {
      ColValsTail(cs);
      EncodeColValsLength(ColValFrame(buf, cs[0]), cs[1..]);
    }
  }

  /** `code_size()` is the length `marshal` appends exactly when every
      field name is ASCII; otherwise it falls short. */
  lemma CodeSizeIsMarshalLength(buf: Bytes, r: RecordData)
    requires Marshalable(r)
    ensures |Encode(buf, r)| >= |buf| + CodeSizeOf(r)
    ensures |Encode(buf, r)| == |buf| + CodeSizeOf(r) <==> AsciiNames(r.Fields)
  {
    var fields := EncodeFields(AppendUint32(buf, |r.Fields|), r.Fields);
    EncodeFieldsLength(AppendUint32(buf, |r.Fields|), r.Fields);
    EncodeColValsLength(AppendUint32(fields, |r.ColVals|), r.ColVals);
  }

  /** A turn of the field loop that finds a blob holding `d`. */
  lemma FieldAtBlob(buf: Bytes, off: nat, blob: Bytes, next: nat, d: F.FieldDesc)
    requires BytesAt(buf, off) == Ok(Read(blob, next))
    requires F.UnmarshalInto(DefaultField, blob) == (d, None)
    ensures FieldAt(buf, off) == Ok(Read(d, next))
  {
  }

  /** A framed field is read back by one turn of the field loop. */
  lemma FieldFrameRead(pre: Bytes, d: F.FieldDesc, post: Bytes)
    requires F.RoundTrips(d)
    ensures FieldAt(FieldFrame(pre, d) + post, |pre|) == Ok(Read(d, |FieldFrame(pre, d)|))
  {
    var blob := F.Encode([], d);
    var frame := FieldFrame(pre, d);
    F.EncodeAppends(AppendUint32(pre, |blob|), d);
    assert frame == AppendBytes(pre, blob);
    BytesRoundTrip(pre, blob, post);
    assert BytesAt(frame + post, |pre|) == Ok(Read(blob, |frame|));
    F.RoundTrip(d, DefaultField);
    FieldAtBlob(frame + post, |pre|, blob, |frame|, d);
  }

  /** A turn of the column loop that finds a blob holding `d`. */
  lemma ColValAtBlob(buf: Bytes, off: nat, blob: Bytes, next: nat, d: C.ColValData)
    requires BytesAt(buf, off) == Ok(Read(blob, next))
    requires C.UnmarshalInto(C.Empty, blob) == (d, None)
    ensures ColValAt(buf, off) == Ok(Read(d, next))
  {
  }

  /** A framed column is read back by one turn of the column loop. */
  lemma ColValFrameRead(pre: Bytes, d: C.ColValData, post: Bytes)
    requires C.RoundTrips(d) && C.CodecSizeOf(d) < TwoTo32
    ensures ColValAt(ColValFrame(pre, d) + post, |pre|) == Ok(Read(d, |ColValFrame(pre, d)|))
  {
    var blob := C.Encode([], d);
    var frame := ColValFrame(pre, d);
    var buf := frame + post;
    C.EncodeAppends(AppendUint32(pre, |blob|), d);
    assert frame == AppendBytes(pre, blob);
    BytesRoundTrip(pre, blob, post);
    assert BytesAt(buf, |pre|) == Ok(Read(blob, |frame|));
    C.RoundTrip(d, C.Empty);
    assert C.UnmarshalInto(C.Empty, blob) == (d, None);
    ColValAtBlob(buf, |pre|, blob, |frame|, d);
  }

  /** A clean first turn prepends its element to the turns after it. */
  lemma DecodeNCons<T>(step: (Bytes, nat) -> Result<Read<T>, DecodeError>, buf: Bytes, off: nat, n: nat,
                       d: T, p: nat, rest: Decoded<T>)
    requires step(buf, off) == Ok(Read(d, p))
    requires DecodeN(step, buf, p, n) == rest
    ensures DecodeN(step, buf, off, n + 1) == Prepend([d], rest)
  {
  }

  /** A framed field in front of later turns is read by the first turn. */
  lemma FieldsCons(pre: Bytes, d: F.FieldDesc, post: Bytes, n: nat, tail: Decoded<F.FieldDesc>)
    requires F.RoundTrips(d)
    requires DecodeN(FieldAt, FieldFrame(pre, d) + post, |FieldFrame(pre, d)|, n) == tail
    ensures DecodeN(FieldAt, FieldFrame(pre, d) + post, |pre|, n + 1) == Prepend([d], tail)
  {
    FieldFrameRead(pre, d, post);
  }

  /** The field loop of `unmarshal` reads back what the field loop of
      `marshal` wrote, in order, and stops right after it. */
  lemma {:induction false} DecodeEncodedFields(pre: Bytes, fs: seq<F.FieldDesc>, post: Bytes)
    requires FieldsRoundTrip(fs)
    ensures FieldsMarshalable(fs)
    ensures DecodeN(FieldAt, EncodeFields(pre, fs) + post, |pre|, |fs|) == Decoded(fs, |EncodeFields(pre, fs)|, None)
    decreases |fs|
  {
    if fs != [] {
      var framed := FieldFrame(pre, fs[0]);
      var rest := EncodeFields([], fs[1..]);
      var whole := EncodeFields(framed, fs[1..]);
      DecodeEncodedFields(framed, fs[1..], post);
      EncodeFieldsAppends(framed, fs[1..]);
      ConcatAssoc(framed, rest, post);
      FieldsCons(pre, fs[0], rest + post, |fs| - 1, Decoded(fs[1..], |whole|, None));
      HeadTail(fs);
    }
  }

  /** The column loop of `unmarshal` reads back what the column loop of
      `marshal` wrote. */
  lemma {:induction false} DecodeEncodedColVals(pre: Bytes, cs: seq<C.ColValData>, post: Bytes)
    requires ColValsRoundTrip(cs)
    ensures ColValsMarshalable(cs)
    ensures DecodeN(ColValAt, EncodeColVals(pre, cs) + post, |pre|, |cs|) == Decoded(cs, |EncodeColVals(pre, cs)|, None)
    decreases |cs|
  {
    if cs != [] {
      ColValsTail(cs);
      var framed := ColValFrame(pre, cs[0]);
      var rest := EncodeColVals([], cs[1..]);
      var whole := EncodeColVals(framed, cs[1..]);
      assert EncodeColVals(pre, cs) == whole;
      EncodeColValsAppends(framed, cs[1..]);
      ConcatAssoc(framed, rest, post);
      var buf := whole + post;
      assert buf == framed + (rest + post);
      DecodeEncodedColVals(framed, cs[1..], post);
      ColValFrameRead(pre, cs[0], rest + post);
      DecodeNCons(ColValAt, buf, |pre|, |cs| - 1, cs[0], |framed|, Decoded(cs[1..], |whole|, None));
      HeadTail(cs);
    }
  }

  /** The column half of `unmarshal` once it has read the column count. */
  lemma ColValsAtCount(r: RecordData, buf: Bytes, off: nat, m: nat, q: nat)
    requires Uint32At(buf, off) == Ok(Read(m, q))
    ensures UnmarshalColValsAt(r, buf, off)
         == (r.(ColVals := r.ColVals + DecodeN(ColValAt, buf, q, m).items), DecodeN(ColValAt, buf, q, m).err)
  {
  }

  /** The column count `marshal` writes is read back in front of the
      columns. */
  lemma ColValsCountRead(fields: Bytes, cs: seq<C.ColValData>)
    requires ColValsRoundTrip(cs) && |cs| < TwoTo32
    ensures Uint32At(EncodeColVals(AppendUint32(fields, |cs|), cs), |fields|)
         == Ok(Read(|cs|, |AppendUint32(fields, |cs|)|))
  {
    var colPrefix := AppendUint32(fields, |cs|);
    DecodeEncodedColVals(colPrefix, cs, []);
    EncodeColValsAppends(colPrefix, cs);
    Uint32RoundTrip(fields, |cs|, EncodeColVals([], cs));
  }

  /** The column half of `unmarshal` reads back the column half of
      `marshal` and ends the buffer. */
  lemma ColValsPartRoundTrip(r: RecordData, fields: Bytes, cs: seq<C.ColValData>)
    requires ColValsRoundTrip(cs) && |cs| < TwoTo32
    ensures ColValsMarshalable(cs)
    ensures UnmarshalColValsAt(r, EncodeColVals(AppendUint32(fields, |cs|), cs), |fields|)
         == (r.(ColVals := r.ColVals + cs), None)
  {
    var colPrefix := AppendUint32(fields, |cs|);
    var buf := EncodeColVals(colPrefix, cs);
    DecodeEncodedColVals(colPrefix, cs, []);
    ConcatEmpty(buf);
    ColValsCountRead(fields, cs);
    ColValsAtCount(r, buf, |fields|, |cs|, |colPrefix|);
  }

  /** The field half of `unmarshal` reads back the field half of `marshal`
      and hands over to the column half right after it. */
  lemma FieldsPartRoundTrip(r: RecordData, pre: Bytes, fs: seq<F.FieldDesc>, post: Bytes)
    requires FieldsRoundTrip(fs)
    ensures FieldsMarshalable(fs)
    ensures var buf := EncodeFields(pre, fs) + post;
            (UnmarshalFieldsAt(r, buf, |pre|, |fs|)
             == UnmarshalColValsAt(r.(Fields := r.Fields + fs), buf, |EncodeFields(pre, fs)|))
  {
    DecodeEncodedFields(pre, fs, post);
  }

  /** Unmarshalling what `marshal` wrote for an empty buffer appends the
      record's Fields and ColVals, in order, to those already held, and
      raises nothing. Into a fresh Record it reproduces the record. */
  lemma RoundTrip(r: RecordData, before: RecordData)
    requires RoundTrips(r)
    ensures Marshalable(r)
    ensures UnmarshalInto(before, Encode([], r))
         == (RecordData(before.Fields + r.Fields, before.ColVals + r.ColVals), None)
  {
    var fs, cs := r.Fields, r.ColVals;
    var countPrefix := AppendUint32([], |fs|);
    var fields := EncodeFields(countPrefix, fs);
    var buf := EncodeColVals(AppendUint32(fields, |cs|), cs);
    assert buf == Encode([], r);
    ColValsPartRoundTrip(before.(Fields := before.Fields + fs), fields, cs);
    var post := BigEndian(|cs|, 4) + EncodeColVals([], cs);
    EncodeColValsAppends(AppendUint32(fields, |cs|), cs);
    ConcatAssoc(fields, BigEndian(|cs|, 4), EncodeColVals([], cs));
    assert buf == fields + post;
    FieldsPartRoundTrip(before, countPrefix, fs, post);
    EncodeFieldsAppends(countPrefix, fs);
    ConcatAssoc(countPrefix, EncodeFields([], fs), post);
    Uint32RoundTrip([], |fs|, EncodeFields([], fs) + post);
  }

  /** `unmarshal` never drops or reorders what the Record held: whatever
      the buffer, even one that raises, the old Fields and ColVals are a
      prefix of the new ones. */
  lemma UnmarshalKeeps(r: RecordData, buf: Bytes)
    ensures var after := UnmarshalInto(r, buf).0;
            |r.Fields| <= |after.Fields| && after.Fields[..|r.Fields|] == r.Fields
            && |r.ColVals| <= |after.ColVals| && after.ColVals[..|r.ColVals|] == r.ColVals
  {
    var after := UnmarshalInto(r, buf).0;
    if |buf| > 0 && Uint32At(buf, 0).Ok? {
      var n := Uint32At(buf, 0).value;
      var fs := DecodeN(FieldAt, buf, n.next, n.value);
      var r1 := r.(Fields := r.Fields + fs.items);
      PrefixOfConcat(r.Fields, fs.items);
      if fs.err.None? && Uint32At(buf, fs.next).Ok? {
        var m := Uint32At(buf, fs.next).value;
        PrefixOfConcat(r.ColVals, DecodeN(ColValAt, buf, m.next, m.value).items);
      }
    }
  }
}
