/**
 * Turning points into a record (opengemini_client/record_transform.py).
 *
 * A RecordTransform keeps one column per tag, field and the time, all of
 * the same length: every point adds one row, holding the point's value in
 * the columns it names and a null in every other column, and a column seen
 * for the first time is back-filled with nulls for the earlier rows.
 *
 * The columns are modelled on values: a `Column` pairs a field descriptor
 * with the fields of its ColVal (`ColVals.ColValData`), and the append
 * calls of the ColVal become `ColVals.Apply`. The class keeps the state of
 * the transform; each method is proved against a function on `State`, and
 * the lemmas at the end say what those functions do to the rows.
 */
module Transform {
  import opened Wire
  import F = Fields
  import C = ColVals
  import R = Records
  import M = Models

  /** The exceptions the transform raises. */
  datatype TransformError =
    | InvalidFieldValueType  // ValueError("invalid field value type")
    | EmptyRecord            // ValueError("empty record")
    | PackError              // struct.error from struct.pack
    | FloatOverflow          // OverflowError converting an int to a double
    | NotAString             // AttributeError: the value has no `encode`

  /** `get_field_type`. A `bool` is an `int` to `isinstance`, so the
      boolean branch is never taken. */
  function FieldTypeOf(v: M.FieldValue): (r: Result<int, TransformError>)
    ensures r.Err? <==> v.OtherValue?
    ensures r.Ok? ==> r.value != F.FieldTypeBoolean
  {
    match v
    case IntValue(_) => Ok(F.FieldTypeInt)
    case BoolValue(_) => Ok(F.FieldTypeInt)
    case FloatValue(_) => Ok(F.FieldTypeFloat)
    case StrValue(_) => Ok(F.FieldTypeString)
    case OtherValue => Err(InvalidFieldValueType)
  }

  /** Python truthiness, as `append_boolean` tests it. A double is false
      exactly when it is +0.0 or -0.0: every byte but the sign bit is zero.
      `add_value` never reaches it with an object of another type: the
      column would need the Boolean type, which `get_field_type` never
      gives; the model counts such an object as true. */
  predicate Truthy(v: M.FieldValue)
  {
    match v
    case BoolValue(b) => b
    case IntValue(i) => i != 0
    case StrValue(s) => |s| > 0
    case FloatValue(f) => !(f[0] == f[1] == f[2] == f[3] == f[4] == f[5] == f[6] == 0 && f[7] % 128 == 0)
    case OtherValue => true
  }

  /** The append call `add_nulls` repeats for a column type, if the type
      has one. */
  function NullCall(t: int): Option<C.Append>
  {
    if t == F.FieldTypeString || t == F.FieldTypeTag then Some(C.StringNull)
    else if t == F.FieldTypeInt then Some(C.IntegerNull)
    else if t == F.FieldTypeFloat then Some(C.FloatNull)
    else if t == F.FieldTypeBoolean then Some(C.BooleanNull)
    else None
  }

  /** The append call `add_value` makes for a value in a column of type
      `t`, or the exception it raises. `toDouble` gives the eight bytes
      `struct.pack('<d', v)` writes for an `int`, or None where Python
      raises OverflowError. */
  function ValueCall(t: int, v: M.FieldValue, toDouble: int -> Option<Float64>): (r: Result<C.Append, TransformError>)
    ensures r.Ok? ==> r.value.Packable() && !r.value.IsNull()
    ensures r.Ok? && (t == F.FieldTypeString || t == F.FieldTypeTag) ==> v.StrValue? && r.value == C.Str(v.s)
    ensures r.Ok? && t == F.FieldTypeInt ==> (v.IntValue? || v.BoolValue?) && r.value.Integer?
    ensures NullCall(t).None? ==> r == Err(InvalidFieldValueType)
  {
    if t == F.FieldTypeString || t == F.FieldTypeTag then
      if v.StrValue? then Ok(C.Str(v.s)) else Err(NotAString)
    else if t == F.FieldTypeInt then
      match v
      case IntValue(i) => if IsInt64(i) then Ok(C.Integer(i)) else Err(PackError)
      case BoolValue(b) => Ok(C.Integer(if b then 1 else 0))
      case _ => Err(PackError)
    else if t == F.FieldTypeFloat then
      match v
      case FloatValue(f) => Ok(C.Float(f))
      case IntValue(i) => if toDouble(i).Some? then Ok(C.Float(toDouble(i).value)) else Err(FloatOverflow)
      case BoolValue(b) =>
        var d := toDouble(if b then 1 else 0);
        if d.Some? then Ok(C.Float(d.value)) else Err(FloatOverflow)
      case _ => Err(PackError)
    else if t == F.FieldTypeBoolean then Ok(C.Boolean(Truthy(v)))
    else Err(InvalidFieldValueType)
  }

  /** A column of the transform: its descriptor and its values. */
  datatype Column = Column(field: F.FieldDesc, col: C.ColValData)
  {
    /** The column can take appends and nulls. */
    predicate Usable()
    {
      col.Len + col.BitmapOffset >= 0 && NullCall(field.Type).Some?
    }

    /** `add_nulls(count)`; `range(count)` is empty for `count <= 0`. */
    function AddNulls(count: int): (r: Result<Column, TransformError>)
      requires col.Len + col.BitmapOffset >= 0
      ensures r.Ok? <==> NullCall(field.Type).Some?
      ensures r.Ok? ==> r.value.field == field && r.value.Usable()
                        && r.value.col.Len == col.Len + (if count <= 0 then 0 else count)
    {
      match NullCall(field.Type)
      case None => Err(InvalidFieldValueType)
      case Some(a) => Ok(Column(field, C.ApplyAll(col, C.Repeat(a, count))))
    }

    /** `add_value(value)`. */
    function AddValue(v: M.FieldValue, toDouble: int -> Option<Float64>): (r: Result<Column, TransformError>)
      requires col.Len + col.BitmapOffset >= 0
      ensures r.Ok? <==> ValueCall(field.Type, v, toDouble).Ok?
      ensures r.Ok? ==> r.value.field == field && r.value.col.Len == col.Len + 1
                        && r.value.col.BitmapOffset == col.BitmapOffset
    {
      match ValueCall(field.Type, v, toDouble)
      case Err(e) => Err(e)
      case Ok(a) => Ok(Column(field, C.Apply(col, a)))
    }
  }

  /** A column as `Column(field=Field(Name=name, Type=t), col=ColVal())`
      creates it. */
  function NewColumn(name: string, t: int): Column
  {
    Column(F.FieldDesc(t, name), C.Empty)
  }

  // -----------------------------------------------------------------------
  // The transform as a value

  /** The index of the column named `name`: every column is stored under
      its own field name, so the `columns` dictionary is its list of values
      in insertion order, looked up by name. */
  function Find(cols: seq<Column>, name: string): (r: Option<nat>)
    ensures r.Some? ==> r.value < |cols| && cols[r.value].field.Name == name
    ensures r.None? ==> forall i :: 0 <= i < |cols| ==> cols[i].field.Name != name
  {
    if |cols| == 0 then None
    else if cols[|cols| - 1].field.Name == name then Some(|cols| - 1)
    else Find(cols[..|cols| - 1], name)
  }

  /** The names of the columns are distinct, as the keys of a dictionary
      are. */
  predicate Distinct(cols: seq<Column>)
  {
    forall i, j :: 0 <= i < j < |cols| ==> cols[i].field.Name != cols[j].field.Name
  }

  /** The fields of a RecordTransform, with the `columns` dictionary as its
      values in insertion order. */
  datatype State = State(
    rowCount: int,
    minTime: int,
    maxTime: int,
    columns: seq<Column>,
    fills: map<string, bool>)

  /** A fresh RecordTransform. */
  const Initial: State := State(0, 0, 0, [], map[])

  predicate ColumnsOk(cols: seq<Column>)
  {
    forall i :: 0 <= i < |cols| ==> cols[i].Usable()
  }

  /** What holds of every RecordTransform whatever was added to it: the
      columns take appends and every fill flag belongs to a column. */
  predicate Shaped(s: State)
  {
    ColumnsOk(s.columns) && forall n :: n in s.fills ==> Find(s.columns, n).Some?
  }

  /** The outcome of an operation: the state it leaves, and the exception
      it raised, if any. */
  datatype Outcome = Outcome(state: State, err: Option<TransformError>)

  /** The column the loop body of `add_tag_columns` / `add_field_columns`
      builds for one entry: the existing column, or a new one of type
      `newType` back-filled with nulls, with the value appended. */
  function CellColumn(s: State, name: string, newType: Result<int, TransformError>, v: M.FieldValue,
                      toDouble: int -> Option<Float64>): (r: Result<Column, TransformError>)
    requires Shaped(s)
    ensures r.Ok? ==> r.value.Usable() && r.value.field.Name == name
  {
    var i := Find(s.columns, name);
    var start :=
      if i.Some? then Ok(s.columns[i.value])
      else if newType.Err? then Err(newType.error)
      else NewColumn(name, newType.value).AddNulls(s.rowCount);
    if start.Err? then Err(start.error) else start.value.AddValue(v, toDouble)
  }

  /** `self.columns[name] = column`: in place when the name is there, at
      the end otherwise; and `self.fills[name] = True` when `fill` is set. */
  function Store(s: State, name: string, c: Column, fill: bool): State
  {
    var i := Find(s.columns, name);
    s.(columns := if i.Some? then s.columns[i.value := c] else s.columns + [c],
       fills := if fill then s.fills[name := true] else s.fills)
  }

  /** One turn of the loop of `add_tag_columns` or `add_field_columns`. */
  function Put(s: State, name: string, newType: Result<int, TransformError>, v: M.FieldValue,
               toDouble: int -> Option<Float64>): (r: Outcome)
    requires Shaped(s)
    ensures Shaped(r.state)
  {
    match CellColumn(s, name, newType, v, toDouble)
    case Err(e) => Outcome(s, Some(e))
    case Ok(c) => StoreShaped(s, name, c, true); Outcome(Store(s, name, c, true), None)
  }

  lemma StoreShaped(s: State, name: string, c: Column, fill: bool)
    requires Shaped(s) && c.Usable() && c.field.Name == name
    ensures Shaped(Store(s, name, c, fill))
  {
    var t := Store(s, name, c, fill);
    forall n | n in t.fills
      ensures Find(t.columns, n).Some?
    {
      var i := Find(s.columns, name);
      var j := if n == name then (if i.Some? then i.value else |s.columns|) else Find(s.columns, n).value;
      assert t.columns[j].field.Name == n;
    }
  }

  /** The type a new column gets: a tag column, or the type of the field's
      value. */
  function NewType(isTag: bool, v: M.FieldValue): Result<int, TransformError>
  {
    if isTag then Ok(F.FieldTypeTag) else FieldTypeOf(v)
  }

  /** The loop of `add_tag_columns` (`isTag`) or `add_field_columns` over
      the entries in dictionary order; the first exception stops it. */
  function PutAll(s: State, cells: seq<(string, M.FieldValue)>, isTag: bool,
                  toDouble: int -> Option<Float64>): (r: Outcome)
    requires Shaped(s)
    ensures Shaped(r.state)
  {
    if |cells| == 0 then Outcome(s, None)
    else
      var o := PutAll(s, cells[..|cells| - 1], isTag, toDouble);
      var last := cells[|cells| - 1];
      if o.err.Some? then o else Put(o.state, last.0, NewType(isTag, last.1), last.1, toDouble)
  }

  /** A tag dictionary as entries whose values are strings. */
  function TagCells(tags: seq<(string, string)>): (r: seq<(string, M.FieldValue)>)
    ensures |r| == |tags|
    ensures forall i :: 0 <= i < |r| ==> r[i] == (tags[i].0, M.StrValue(tags[i].1))
  {
    seq(|tags|, i requires 0 <= i < |tags| => (tags[i].0, M.StrValue(tags[i].1)))
  }

  function Min(a: int, b: int): int { if a <= b then a else b }
  function Max(a: int, b: int): int { if a >= b then a else b }

  /** `add_timestamp`: the time column gets the value `v` that
      `generate_timestamp` gave, and the bounds widen to take in `ts`, the
      integer that value stands for. The time column gets no fill flag. */
  function Timestamped(s: State, v: M.FieldValue, ts: int, toDouble: int -> Option<Float64>): (r: Outcome)
    requires Shaped(s)
    ensures Shaped(r.state)
  {
    match CellColumn(s, R.TimeField, Ok(F.FieldTypeInt), v, toDouble)
    case Err(e) => Outcome(s, Some(e))
    case Ok(c) =>
      StoreShaped(s, R.TimeField, c, false);
      var t := Store(s, R.TimeField, c, false);
      Outcome(t.(minTime := Min(s.minTime, ts), maxTime := Max(s.maxTime, ts)), None)
  }

  /** A column padded with nulls up to `rowCount` rows. */
  function Padded(c: Column, rowCount: int): (r: Column)
    requires c.Usable()
    ensures r.Usable() && r.field == c.field
  {
    if rowCount - c.col.Len > 0 then c.AddNulls(rowCount - c.col.Len).value else c
  }

  /** A column after the first loop of `add_miss_value_columns`: padded
      when its fill flag is False. */
  function Filled(s: State, c: Column): (r: Column)
    requires c.Usable()
    ensures r.Usable() && r.field == c.field
  {
    if c.field.Name in s.fills && !s.fills[c.field.Name] then Padded(c, s.rowCount) else c
  }

  /** The columns after the first loop of `add_miss_value_columns`. */
  function FilledAll(s: State, cols: seq<Column>): (r: seq<Column>)
    requires ColumnsOk(cols)
    ensures |r| == |cols| && ColumnsOk(r)
    ensures forall i :: 0 <= i < |r| ==> r[i].field == cols[i].field && r[i] == Filled(s, cols[i])
  {
    if |cols| == 0 then [] else FilledAll(s, cols[..|cols| - 1]) + [Filled(s, cols[|cols| - 1])]
  }

  /** `add_miss_value_columns`: pad the columns this row left out, then
      clear every fill flag. */
  function MissFilled(s: State): (r: State)
    requires Shaped(s)
    ensures Shaped(r)
  {
    var cols := FilledAll(s, s.columns);
    SameNamesFind(s.columns, cols);
    s.(columns := cols, fills := map n | n in s.fills :: false)
  }

  /** Two column lists with the same names find the same indices. */
  lemma {:induction false} SameNamesFind(a: seq<Column>, b: seq<Column>)
    requires |a| == |b| && forall i :: 0 <= i < |a| ==> a[i].field.Name == b[i].field.Name
    ensures forall n :: Find(a, n) == Find(b, n)
  {
    if |a| > 0 {
      SameNamesFind(a[..|a| - 1], b[..|b| - 1]);
    }
  }

  /** The integer a point's timestamp stands for: 0 when the point has none. */
  function Timestamp(p: M.Point): int
  {
    if p.timestamp.None? then 0 else p.timestamp.value
  }

  /** `generate_timestamp` takes its nanosecond branch, which computes
      `timestamp() * 1000 * 1000 * 1000` and so gives a float. */
  predicate FloatStamp(p: M.Point)
  {
    p.timestamp.Some? && p.precision == M.PrecisionNanoSecond
  }

  /** The value `generate_timestamp` gives: the integer, or for the
      nanosecond branch the double `toDouble` gives for it (a datetime never
      reaches the range where `toDouble` has none; the model then takes an
      object no column accepts). */
  function StampValue(p: M.Point, toDouble: int -> Option<Float64>): (r: M.FieldValue)
    ensures !FloatStamp(p) <==> r == M.IntValue(Timestamp(p))
  {
    if !FloatStamp(p) then M.IntValue(Timestamp(p))
    else if toDouble(p.timestamp.value).Some? then M.FloatValue(toDouble(p.timestamp.value).value)
    else M.OtherValue
  }

  /** `add_point`. */
  function PointAdded(s: State, p: M.Point, toDouble: int -> Option<Float64>): (r: Outcome)
    requires Shaped(s)
    ensures Shaped(r.state)
  {
    var tags := PutAll(s, TagCells(p.tags), true, toDouble);
    if tags.err.Some? then tags
    else
      var fields := PutAll(tags.state, p.fields, false, toDouble);
      if fields.err.Some? then fields
      else
        var time := Timestamped(fields.state, StampValue(p, toDouble), Timestamp(p), toDouble);
        if time.err.Some? then time
        else Outcome(MissFilled(time.state.(rowCount := time.state.rowCount + 1)), None)
  }

  // -----------------------------------------------------------------------
  // convert_to_record

  /** Where `convert_to_record` puts a column: 0 for a field, 1 for a tag,
      2 for the time column. */
  function Group(c: Column): nat
  {
    if c.field.Name == R.TimeField then 2 else if c.field.Type == F.FieldTypeTag then 1 else 0
  }

  /** The columns of one group, in the given order. */
  function Picked(cols: seq<Column>, g: nat): (r: seq<Column>)
    ensures |r| <= |cols|
    ensures forall i :: 0 <= i < |r| ==> Group(r[i]) == g
  {
    if |cols| == 0 then []
    else Picked(cols[..|cols| - 1], g) + (if Group(cols[|cols| - 1]) == g then [cols[|cols| - 1]] else [])
  }

  function Descs(cols: seq<Column>): (r: seq<F.FieldDesc>)
    ensures |r| == |cols|
  {
    seq(|cols|, i requires 0 <= i < |cols| => cols[i].field)
  }

  function Datas(cols: seq<Column>): (r: seq<C.ColValData>)
    ensures |r| == |cols|
  {
    seq(|cols|, i requires 0 <= i < |cols| => cols[i].col)
  }

  /** The columns `convert_to_record` puts in the record, in its order:
      the fields, then the tags, then the time column. */
  function Grouped(cols: seq<Column>): seq<Column>
  {
    Picked(cols, 0) + Picked(cols, 1) + Picked(cols, 2)
  }

  /** `convert_to_record`. */
  function Converted(s: State): Result<R.RecordData, TransformError>
  {
    if |s.columns| == 0 then Err(EmptyRecord)
    else
      var cols := Grouped(s.columns);
      Ok(R.RecordData(Descs(cols), Datas(cols)))
  }

  // -----------------------------------------------------------------------
  // The class

  class RecordTransform {
    var rowCount: int
    var minTime: int
    var maxTime: int
    /** The columns dictionary: its values in insertion order, each stored
        under its field name. */
    var columns: seq<Column>
    var fills: map<string, bool>

    function Data(): State
      reads this
    {
      State(rowCount, minTime, maxTime, columns, fills)
    }

    constructor ()
      ensures Data() == Initial
    {
      rowCount, minTime, maxTime := 0, 0, 0;
      columns, fills := [], map[];
    }

    /** The body of the loops of `add_tag_columns` and `add_field_columns`
        for one entry. */
    method PutEntry(name: string, newType: Result<int, TransformError>, v: M.FieldValue,
                    toDouble: int -> Option<Float64>) returns (err: Option<TransformError>)
      requires Shaped(Data())
      modifies this
      ensures Outcome(Data(), err) == Put(old(Data()), name, newType, v, toDouble)
    {
      var i := Find(columns, name);
      var column: Column;
      if i.Some? {
        column := columns[i.value];
      } else {
        if newType.Err? {
          return Some(newType.error);
        }
        var padded := NewColumn(name, newType.value).AddNulls(rowCount);
        if padded.Err? {
          return Some(padded.error);
        }
        column := padded.value;
      }
      var added := column.AddValue(v, toDouble);
      if added.Err? {
        return Some(added.error);
      }
      if i.Some? {
        columns := columns[i.value := added.value];
      } else {
        columns := columns + [added.value];
      }
      fills := fills[name := true];
      err := None;
    }

    method AddTagColumns(tags: seq<(string, string)>, toDouble: int -> Option<Float64>)
      returns (err: Option<TransformError>)
      requires Shaped(Data())
      modifies this
      ensures Outcome(Data(), err) == PutAll(old(Data()), TagCells(tags), true, toDouble)
    {
      ghost var cells := TagCells(tags);
      for i := 0 to |tags|
        invariant Shaped(Data())
        invariant PutAll(old(Data()), cells[..i], true, toDouble) == Outcome(Data(), None)
      {
        var (name, value) := tags[i];
        PutAllNext(old(Data()), cells, i, true, toDouble);
        err := PutEntry(name, Ok(F.FieldTypeTag), M.StrValue(value), toDouble);
        if err.Some? {
          PutAllStops(old(Data()), cells, i + 1, true, toDouble);
          return;
        }
      }
      assert cells[..|tags|] == cells;
      err := None;
    }

    method AddFieldColumns(fields: seq<(string, M.FieldValue)>, toDouble: int -> Option<Float64>)
      returns (err: Option<TransformError>)
      requires Shaped(Data())
      modifies this
      ensures Outcome(Data(), err) == PutAll(old(Data()), fields, false, toDouble)
    {
      for i := 0 to |fields|
        invariant Shaped(Data())
        invariant PutAll(old(Data()), fields[..i], false, toDouble) == Outcome(Data(), None)
      {
        var (name, value) := fields[i];
        PutAllNext(old(Data()), fields, i, false, toDouble);
        err := PutEntry(name, FieldTypeOf(value), value, toDouble);
        if err.Some? {
          PutAllStops(old(Data()), fields, i + 1, false, toDouble);
          return;
        }
      }
      assert fields[..|fields|] == fields;
      err := None;
    }

    method AddTimestamp(v: M.FieldValue, ts: int, toDouble: int -> Option<Float64>) returns (err: Option<TransformError>)
      requires Shaped(Data())
      modifies this
      ensures Outcome(Data(), err) == Timestamped(old(Data()), v, ts, toDouble)
    {
      var i := Find(columns, R.TimeField);
      var column: Column;
      if i.Some? {
        column := columns[i.value];
      } else {
        column := NewColumn(R.TimeField, F.FieldTypeInt).AddNulls(rowCount).value;
      }
      var added := column.AddValue(v, toDouble);
      if added.Err? {
        return Some(added.error);
      }
      if i.Some? {
        columns := columns[i.value := added.value];
      } else {
        columns := columns + [added.value];
      }
      minTime := Min(minTime, ts);
      maxTime := Max(maxTime, ts);
      err := None;
    }

    /** One column of the first loop of `add_miss_value_columns`: padded
        with nulls up to the row count when its name is flagged False. */
    method FillColumn(column: Column) returns (c: Column)
      requires column.Usable()
      ensures c == Filled(Data(), column)
    {
      c := column;
      var name := column.field.Name;
      if name in fills && !fills[name] {
        var count := rowCount - column.col.Len;
        if count > 0 {
          c := column.AddNulls(count).value;
        }
      }
    }

    method AddMissValueColumns()
      requires Shaped(Data())
      modifies this
      ensures Data() == MissFilled(old(Data()))
    {
      ghost var s := Data();
      var filled := [];
      for i := 0 to |columns|
        invariant Data() == s
        invariant filled == FilledAll(s, columns[..i])
      {
        var c := FillColumn(columns[i]);
        assert columns[..i + 1][..i] == columns[..i];
        filled := filled + [c];
      }
      assert columns[..|columns|] == columns;
      columns := filled;
      fills := map n | n in fills :: false;
    }

    method AddPoint(p: M.Point, toDouble: int -> Option<Float64>) returns (err: Option<TransformError>)
      requires Shaped(Data())
      modifies this
      ensures Outcome(Data(), err) == PointAdded(old(Data()), p, toDouble)
    {
      err := AddTagColumns(p.tags, toDouble);
      if err.Some? {
        return;
      }
      err := AddFieldColumns(p.fields, toDouble);
      if err.Some? {
        return;
      }
      err := AddTimestamp(StampValue(p, toDouble), Timestamp(p), toDouble);
      if err.Some? {
        return;
      }
      rowCount := rowCount + 1;
      AddMissValueColumns();
    }

    method ConvertToRecord() returns (r: Result<R.RecordData, TransformError>)
      ensures r == Converted(Data())
    {
      if |columns| == 0 {
        return Err(EmptyRecord);
      }
      var fieldCols, tagCols, timeCols := [], [], [];
      for i := 0 to |columns|
        invariant fieldCols == Picked(columns[..i], 0)
        invariant tagCols == Picked(columns[..i], 1)
        invariant timeCols == Picked(columns[..i], 2)
      {
        var column := columns[i];
        assert columns[..i + 1][..i] == columns[..i];
        if column.field.Name == R.TimeField {
          timeCols := timeCols + [column];
        } else if column.field.Type == F.FieldTypeTag {
          tagCols := tagCols + [column];
        } else {
          fieldCols := fieldCols + [column];
        }
      }
      assert columns[..|columns|] == columns;
      var cols := fieldCols + tagCols + timeCols;
      r := Ok(R.RecordData(Descs(cols), Datas(cols)));
    }
  }

  // -----------------------------------------------------------------------
  // Lemmas

  /** One more turn of the loop. */
  lemma PutAllNext(s: State, cells: seq<(string, M.FieldValue)>, k: nat, isTag: bool,
                   toDouble: int -> Option<Float64>)
    requires Shaped(s) && k < |cells|
    requires PutAll(s, cells[..k], isTag, toDouble).err.None?
    ensures PutAll(s, cells[..k + 1], isTag, toDouble)
         == Put(PutAll(s, cells[..k], isTag, toDouble).state, cells[k].0, NewType(isTag, cells[k].1), cells[k].1, toDouble)
  {
    assert cells[..k + 1][..k] == cells[..k];
  }

  /** The first exception stops the loop: nothing after it runs. */
  lemma {:induction false} PutAllStops(s: State, cells: seq<(string, M.FieldValue)>, k: nat, isTag: bool,
                                       toDouble: int -> Option<Float64>)
    requires Shaped(s) && k <= |cells|
    requires PutAll(s, cells[..k], isTag, toDouble).err.Some?
    ensures PutAll(s, cells, isTag, toDouble) == PutAll(s, cells[..k], isTag, toDouble)
    decreases |cells| - k
  {
    if k < |cells| {
      var next := cells[..k + 1];
      assert next[..k] == cells[..k];
      PutAllStops(s, cells, k + 1, isTag, toDouble);
    } else {
      assert cells[..k] == cells;
    }
  }

  // -----------------------------------------------------------------------
  // What a point does to the rows

  /** Distinct names are found where they are. */
  lemma {:induction false} FindDistinct(cols: seq<Column>, i: nat)
    requires Distinct(cols) && i < |cols|
    ensures Find(cols, cols[i].field.Name) == Some(i)
  {
    if i < |cols| - 1 {
      FindDistinct(cols[..|cols| - 1], i);
    }
  }

  /** The value an entry list holds under a name, if any. */
  function CellOf(cells: seq<(string, M.FieldValue)>, name: string): (r: Option<M.FieldValue>)
    ensures r.None? <==> forall i :: 0 <= i < |cells| ==> cells[i].0 != name
  {
    if |cells| == 0 then None
    else if cells[|cells| - 1].0 == name then Some(cells[|cells| - 1].1)
    else CellOf(cells[..|cells| - 1], name)
  }

  predicate DistinctKeys(cells: seq<(string, M.FieldValue)>)
  {
    forall i, j :: 0 <= i < j < |cells| ==> cells[i].0 != cells[j].0
  }

  /** Column `i` after a loop over `cells` from `s0`: an entry's column is
      what the loop body builds for it from `s0`, in place or at the end,
      and any other column is as it was. */
  ghost predicate EnteredColumn(s0: State, cells: seq<(string, M.FieldValue)>, isTag: bool,
                          toDouble: int -> Option<Float64>, i: nat, c: Column)
    requires Shaped(s0)
  {
    var n := c.field.Name;
    match CellOf(cells, n)
    case None => i < |s0.columns| && c == s0.columns[i]
    case Some(v) =>
      CellColumn(s0, n, NewType(isTag, v), v, toDouble) == Ok(c)
      && (if i < |s0.columns| then Find(s0.columns, n) == Some(i) else Find(s0.columns, n).None?)
  }

  /** The state after a loop over `cells` from `s0` that raised nothing. */
  ghost predicate Entered(s0: State, cells: seq<(string, M.FieldValue)>, isTag: bool,
                    toDouble: int -> Option<Float64>, t: State)
    requires Shaped(s0)
  {
    EnteredShape(s0, t) && EnteredColumns(s0, cells, isTag, toDouble, t)
    && EnteredFinds(cells, t) && EnteredFills(s0, cells, t)
  }

  /** The counters are kept, and the columns keep their places. */
  predicate EnteredShape(s0: State, t: State)
  {
    t.rowCount == s0.rowCount && t.minTime == s0.minTime && t.maxTime == s0.maxTime
    && |s0.columns| <= |t.columns| && Distinct(t.columns)
    && (forall i :: 0 <= i < |s0.columns| ==> t.columns[i].field.Name == s0.columns[i].field.Name)
  }

  ghost predicate EnteredColumns(s0: State, cells: seq<(string, M.FieldValue)>, isTag: bool,
                                 toDouble: int -> Option<Float64>, t: State)
    requires Shaped(s0)
  {
    forall i :: 0 <= i < |t.columns| ==> EnteredColumn(s0, cells, isTag, toDouble, i, t.columns[i])
  }

  /** Every entry has a column. */
  predicate EnteredFinds(cells: seq<(string, M.FieldValue)>, t: State)
  {
    forall i :: 0 <= i < |cells| ==> Find(t.columns, cells[i].0).Some?
  }

  /** Every entry's fill flag is set; the others are as they were. */
  ghost predicate EnteredFills(s0: State, cells: seq<(string, M.FieldValue)>, t: State)
  {
    (forall n :: n in t.fills <==> n in s0.fills || CellOf(cells, n).Some?)
    && (forall n :: n in t.fills ==> t.fills[n] == (CellOf(cells, n).Some? || s0.fills[n]))
  }

  /** The loop body builds the same column from two states that hold the
      same column under the name, or none, and count the same rows. */
  lemma CellColumnSame(s: State, t: State, name: string, newType: Result<int, TransformError>, v: M.FieldValue,
                       toDouble: int -> Option<Float64>)
    requires Shaped(s) && Shaped(t) && s.rowCount == t.rowCount
    requires Find(s.columns, name).None? <==> Find(t.columns, name).None?
    requires Find(s.columns, name).Some? ==> s.columns[Find(s.columns, name).value] == t.columns[Find(t.columns, name).value]
    ensures CellColumn(s, name, newType, v, toDouble) == CellColumn(t, name, newType, v, toDouble)
  {
  }

  lemma CellOfSnoc(cells: seq<(string, M.FieldValue)>, m: string, v: M.FieldValue, n: string)
    ensures CellOf(cells + [(m, v)], n) == if n == m then Some(v) else CellOf(cells, n)
  {
    assert (cells + [(m, v)])[..|cells|] == cells;
  }

  /** A name the loop did not enter finds the column it found at the
      start, at the same place. */
  lemma Untouched(s0: State, cells: seq<(string, M.FieldValue)>, isTag: bool, toDouble: int -> Option<Float64>,
                  t: State, m: string)
    requires Shaped(s0) && Distinct(s0.columns)
    requires Entered(s0, cells, isTag, toDouble, t) && CellOf(cells, m).None?
    ensures Find(t.columns, m) == Find(s0.columns, m)
    ensures Find(t.columns, m).Some? ==> t.columns[Find(t.columns, m).value] == s0.columns[Find(t.columns, m).value]
  {
    var j := Find(t.columns, m);
    if j.Some? {
      assert EnteredColumn(s0, cells, isTag, toDouble, j.value, t.columns[j.value]);
      FindDistinct(s0.columns, j.value);
    } else if Find(s0.columns, m).Some? {
      assert false;
    }
  }

  /** Storing a column under its own name keeps the names distinct. */
  lemma StoreDistinct(s: State, name: string, c: Column, fill: bool)
    requires Distinct(s.columns) && c.field.Name == name
    ensures Distinct(Store(s, name, c, fill).columns)
  {
  }

  /** Column `i` after one more entry. */
  lemma PutEnteredColumn(s0: State, cells: seq<(string, M.FieldValue)>, isTag: bool, toDouble: int -> Option<Float64>,
                         t: State, m: string, v: M.FieldValue, i: nat)
    requires Shaped(s0) && Distinct(s0.columns) && Shaped(t)
    requires Entered(s0, cells, isTag, toDouble, t) && CellOf(cells, m).None?
    requires Put(t, m, NewType(isTag, v), v, toDouble).err.None?
    requires i < |Put(t, m, NewType(isTag, v), v, toDouble).state.columns|
    ensures var u := Put(t, m, NewType(isTag, v), v, toDouble).state;
            EnteredColumn(s0, cells + [(m, v)], isTag, toDouble, i, u.columns[i])
  {
    var u := Put(t, m, NewType(isTag, v), v, toDouble).state;
    var j := Find(t.columns, m);
    var n := u.columns[i].field.Name;
    Untouched(s0, cells, isTag, toDouble, t, m);
    CellColumnSame(s0, t, m, NewType(isTag, v), v, toDouble);
    CellOfSnoc(cells, m, v, n);
    if (j.Some? && i == j.value) || (j.None? && i == |t.columns|) {
      assert n == m;
    } else {
      assert u.columns[i] == t.columns[i];
      assert EnteredColumn(s0, cells, isTag, toDouble, i, t.columns[i]);
    }
  }

  /** An entry of the loop still finds its column after one more entry. */
  lemma PutEnteredFind(s0: State, cells: seq<(string, M.FieldValue)>, isTag: bool, toDouble: int -> Option<Float64>,
                       t: State, m: string, v: M.FieldValue, i: nat)
    requires Shaped(s0) && Shaped(t)
    requires Entered(s0, cells, isTag, toDouble, t) && i <= |cells|
    requires Put(t, m, NewType(isTag, v), v, toDouble).err.None?
    ensures Find(Put(t, m, NewType(isTag, v), v, toDouble).state.columns, (cells + [(m, v)])[i].0).Some?
  {
    var u := Put(t, m, NewType(isTag, v), v, toDouble).state;
    var j := Find(t.columns, m);
    if i < |cells| {
      assert (cells + [(m, v)])[i] == cells[i];
      var k := Find(t.columns, cells[i].0).value;
      assert u.columns[k].field.Name == cells[i].0;
    } else {
      var k := if j.Some? then j.value else |t.columns|;
      assert u.columns[k].field.Name == m;
    }
  }

  /** A turn of the loop that raises nothing keeps the counters, keeps
      every column's place and name, and sets the entry's fill flag. */
  lemma PutKeeps(t: State, m: string, nt: Result<int, TransformError>, v: M.FieldValue, toDouble: int -> Option<Float64>)
    requires Shaped(t) && Distinct(t.columns)
    requires Put(t, m, nt, v, toDouble).err.None?
    ensures var u := Put(t, m, nt, v, toDouble).state;
            u.rowCount == t.rowCount && u.minTime == t.minTime && u.maxTime == t.maxTime
            && |t.columns| <= |u.columns| && Distinct(u.columns)
            && (forall i :: 0 <= i < |t.columns| ==> u.columns[i].field.Name == t.columns[i].field.Name)
            && u.fills == t.fills[m := true]
  {
    var c := CellColumn(t, m, nt, v, toDouble).value;
    StoreDistinct(t, m, c, true);
  }

  lemma FillsEntered(s0: State, cells: seq<(string, M.FieldValue)>, t: State, m: string, v: M.FieldValue,
                     fills: map<string, bool>)
    requires EnteredFills(s0, cells, t) && fills == t.fills[m := true]
    ensures EnteredFills(s0, cells + [(m, v)], t.(fills := fills))
  {
    forall n
      ensures CellOf(cells + [(m, v)], n) == if n == m then Some(v) else CellOf(cells, n)
    {
      CellOfSnoc(cells, m, v, n);
    }
  }

  /** One more entry keeps the loop's state described by `Entered`. */
  lemma PutEntered(s0: State, cells: seq<(string, M.FieldValue)>, isTag: bool, toDouble: int -> Option<Float64>,
                   t: State, m: string, v: M.FieldValue)
    requires Shaped(s0) && Distinct(s0.columns) && Shaped(t)
    requires Entered(s0, cells, isTag, toDouble, t) && CellOf(cells, m).None?
    requires Put(t, m, NewType(isTag, v), v, toDouble).err.None?
    ensures Entered(s0, cells + [(m, v)], isTag, toDouble, Put(t, m, NewType(isTag, v), v, toDouble).state)
  {
    var nt := NewType(isTag, v);
    var next := cells + [(m, v)];
    var u := Put(t, m, nt, v, toDouble).state;
    PutKeeps(t, m, nt, v, toDouble);
    assert EnteredShape(s0, u);
    forall i | 0 <= i < |u.columns|
      ensures EnteredColumn(s0, next, isTag, toDouble, i, u.columns[i])
    {
      PutEnteredColumn(s0, cells, isTag, toDouble, t, m, v, i);
    }
    forall i | 0 <= i < |next|
      ensures Find(u.columns, next[i].0).Some?
    {
      PutEnteredFind(s0, cells, isTag, toDouble, t, m, v, i);
    }
    FillsEntered(s0, cells, t, m, v, u.fills);
    assert t.(fills := u.fills).fills == u.fills;
  }

  /** A loop over entries with distinct names that raises nothing leaves
      the state `Entered` describes: each entry's column is what the loop
      body builds for it from the starting state. */
  lemma {:induction false} PutAllEntered(s0: State, cells: seq<(string, M.FieldValue)>, isTag: bool,
                                         toDouble: int -> Option<Float64>)
    requires Shaped(s0) && Distinct(s0.columns) && DistinctKeys(cells)
    requires PutAll(s0, cells, isTag, toDouble).err.None?
    ensures Entered(s0, cells, isTag, toDouble, PutAll(s0, cells, isTag, toDouble).state)
    decreases |cells|
  {
    if |cells| == 0 {
      assert EnteredColumns(s0, cells, isTag, toDouble, s0);
    } else {
      var init := cells[..|cells| - 1];
      var (m, v) := cells[|cells| - 1];
      assert cells == init + [(m, v)];
      var o := PutAll(s0, init, isTag, toDouble);
      assert o.err.None?;
      PutAllEntered(s0, init, isTag, toDouble);
      assert CellOf(init, m).None?;
      PutEntered(s0, init, isTag, toDouble, o.state, m, v);
    }
  }

  // -----------------------------------------------------------------------
  // add_point, row by row

  /** What holds of a RecordTransform between points: every column has one
      entry per row and a usable type, the names are distinct, the bounds
      take in 0, and every column but the time column has a fill flag, and
      the flag is False. */
  ghost predicate Valid(s: State)
  {
    Shaped(s) && Distinct(s.columns) && s.rowCount >= 0 && s.minTime <= 0 <= s.maxTime
    && (forall i :: 0 <= i < |s.columns| ==> s.columns[i].col.Len == s.rowCount && s.columns[i].col.BitmapOffset == 0)
    && (forall i :: 0 <= i < |s.columns| ==> (s.columns[i].field.Name in s.fills <==> s.columns[i].field.Name != R.TimeField))
    && (forall n :: n in s.fills ==> !s.fills[n])
  }

  /** The keys of a point as Python dictionaries have them: distinct tag
      names, distinct field names; and no name is both a tag and a field,
      and none is the time column's. */
  predicate PointKeys(p: M.Point)
  {
    DistinctKeys(TagCells(p.tags)) && DistinctKeys(p.fields)
    && (forall i, j :: 0 <= i < |p.tags| && 0 <= j < |p.fields| ==> p.tags[i].0 != p.fields[j].0)
    && (forall i :: 0 <= i < |p.tags| ==> p.tags[i].0 != R.TimeField)
    && (forall j :: 0 <= j < |p.fields| ==> p.fields[j].0 != R.TimeField)
  }

  /** The value a point puts in the column of a name: its tag value, its
      field value, or the value `generate_timestamp` gives for the time
      column; None for a column the point does not name. */
  function RowValue(p: M.Point, name: string, toDouble: int -> Option<Float64>): Option<M.FieldValue>
  {
    if name == R.TimeField then Some(StampValue(p, toDouble))
    else if CellOf(TagCells(p.tags), name).Some? then CellOf(TagCells(p.tags), name)
    else CellOf(p.fields, name)
  }

  /** The type a column new to a point gets. */
  function RowType(p: M.Point, name: string): Result<int, TransformError>
  {
    if name == R.TimeField then Ok(F.FieldTypeInt)
    else if CellOf(TagCells(p.tags), name).Some? then Ok(F.FieldTypeTag)
    else if CellOf(p.fields, name).Some? then FieldTypeOf(CellOf(p.fields, name).value)
    else Err(InvalidFieldValueType)
  }

  /** `k` nulls of a column type, from a fresh ColVal. */
  function Nulls(t: int, k: int): (d: C.ColValData)
    requires NullCall(t).Some?
    ensures d.Len == (if k <= 0 then 0 else k) && d.BitmapOffset == 0
  {
    C.ApplyAll(C.Empty, C.Repeat(NullCall(t).value, k))
  }

  /** Column `i` after a point was added to `s`: a column that was there
      keeps its descriptor, a new one is named by the point and has the
      type its value gives; and the column is its old entries, or `rowCount`
      nulls for a new one, followed by the point's value under its name, or
      by a null. */
  ghost predicate RowAdded(s: State, p: M.Point, toDouble: int -> Option<Float64>, i: nat, c: Column)
    requires Shaped(s)
  {
    var n := c.field.Name;
    var t := c.field.Type;
    NullCall(t).Some?
    && (i < |s.columns| ==> c.field == s.columns[i].field)
    && (i >= |s.columns| ==> RowValue(p, n, toDouble).Some? && Find(s.columns, n).None? && RowType(p, n) == Ok(t))
    && var before := if i < |s.columns| then s.columns[i].col else Nulls(t, s.rowCount);
       match RowValue(p, n, toDouble)
       case None => c.col == C.Apply(before, NullCall(t).value)
       case Some(v) => ValueCall(t, v, toDouble).Ok? && c.col == C.Apply(before, ValueCall(t, v, toDouble).value)
  }

  /** The column the loop body builds, as appends: the value appended to
      the existing column, or to a new column of nulls. */
  lemma CellColumnRow(s: State, name: string, newType: Result<int, TransformError>, v: M.FieldValue,
                      toDouble: int -> Option<Float64>)
    requires Shaped(s) && CellColumn(s, name, newType, v, toDouble).Ok?
    ensures var c := CellColumn(s, name, newType, v, toDouble).value;
            var k := Find(s.columns, name);
            if k.Some? then
              var was := s.columns[k.value];
              ValueCall(was.field.Type, v, toDouble).Ok?
              && c == Column(was.field, C.Apply(was.col, ValueCall(was.field.Type, v, toDouble).value))
            else
              newType.Ok? && NullCall(newType.value).Some? && ValueCall(newType.value, v, toDouble).Ok?
              && c == Column(F.FieldDesc(newType.value, name),
                             C.Apply(Nulls(newType.value, s.rowCount), ValueCall(newType.value, v, toDouble).value))
  {
  }

  /** What `add_timestamp` does to the columns: every column but the time
      column stays where it is, as it was; the time column is what the
      loop body builds for the timestamp, in place or at the end. */
  ghost predicate TimeStaged(s: State, v: M.FieldValue, ts: int, toDouble: int -> Option<Float64>, t: State)
    requires Shaped(s)
  {
    t.rowCount == s.rowCount && t.fills == s.fills
    && t.minTime == Min(s.minTime, ts) && t.maxTime == Max(s.maxTime, ts)
    && |s.columns| <= |t.columns| && Distinct(t.columns) && Find(t.columns, R.TimeField).Some?
    && (forall i :: 0 <= i < |s.columns| ==> t.columns[i].field.Name == s.columns[i].field.Name)
    && (forall i :: 0 <= i < |t.columns| && t.columns[i].field.Name != R.TimeField ==>
          i < |s.columns| && t.columns[i] == s.columns[i])
    && (forall i :: 0 <= i < |t.columns| && t.columns[i].field.Name == R.TimeField ==>
          CellColumn(s, R.TimeField, Ok(F.FieldTypeInt), v, toDouble) == Ok(t.columns[i])
          && (if i < |s.columns| then Find(s.columns, R.TimeField) == Some(i) else Find(s.columns, R.TimeField).None?))
  }

  lemma TimestampedStaged(s: State, v: M.FieldValue, ts: int, toDouble: int -> Option<Float64>)
    requires Shaped(s) && Distinct(s.columns) && Timestamped(s, v, ts, toDouble).err.None?
    ensures TimeStaged(s, v, ts, toDouble, Timestamped(s, v, ts, toDouble).state)
  {
    var t := Timestamped(s, v, ts, toDouble).state;
    var c := CellColumn(s, R.TimeField, Ok(F.FieldTypeInt), v, toDouble).value;
    var j := Find(s.columns, R.TimeField);
    StoreDistinct(s, R.TimeField, c, false);
    assert t.columns[if j.Some? then j.value else |s.columns|].field.Name == R.TimeField;
    forall i | 0 <= i < |t.columns| && t.columns[i].field.Name == R.TimeField
      ensures t.columns[i] == c
      ensures if i < |s.columns| then j == Some(i) else j.None?
    {
      var k := if j.Some? then j.value else |s.columns|;
      assert t.columns[k].field.Name == R.TimeField;
      if i < |s.columns| {
        FindDistinct(t.columns, i);
        FindDistinct(t.columns, k);
      }
    }
  }

  /** The states between the steps of `add_point`: after the tags (`s1`),
      after the fields (`s2`) and after the timestamp (`s3`). */
  ghost predicate Stages(s: State, p: M.Point, toDouble: int -> Option<Float64>, s1: State, s2: State, s3: State)
  {
    Valid(s) && PointKeys(p)
    && Shaped(s1) && Distinct(s1.columns) && Shaped(s2) && Distinct(s2.columns) && Shaped(s3)
    && Entered(s, TagCells(p.tags), true, toDouble, s1)
    && Entered(s1, p.fields, false, toDouble, s2)
    && TimeStaged(s2, StampValue(p, toDouble), Timestamp(p), toDouble, s3)
  }

  /** One null appended to a column is one append call. */
  lemma OneNull(c: Column)
    requires c.Usable()
    ensures c.AddNulls(1).Ok? && c.AddNulls(1).value.col == C.Apply(c.col, NullCall(c.field.Type).value)
  {
    var a := NullCall(c.field.Type).value;
    assert C.Repeat(a, 1) == [] + [a];
    C.ApplyAllStep(c.col, [], a);
  }

  /** A column the point names, from what the loop body built for it. */
  lemma EnteredRow(s: State, p: M.Point, toDouble: int -> Option<Float64>, s4: State, i: nat, c: Column,
                   nt: Result<int, TransformError>, v: M.FieldValue)
    requires Shaped(s) && s4.rowCount == s.rowCount + 1
    requires CellColumn(s, c.field.Name, nt, v, toDouble) == Ok(c)
    requires if i < |s.columns| then Find(s.columns, c.field.Name) == Some(i) else Find(s.columns, c.field.Name).None?
    requires c.field.Name !in s4.fills || s4.fills[c.field.Name]
    requires RowValue(p, c.field.Name, toDouble) == Some(v) && RowType(p, c.field.Name) == nt
    ensures RowAdded(s, p, toDouble, i, Filled(s4, c))
  {
    CellColumnRow(s, c.field.Name, nt, v, toDouble);
  }

  /** A column the point leaves out, from the column it was. */
  lemma MissedRow(s: State, p: M.Point, toDouble: int -> Option<Float64>, s4: State, i: nat, c: Column)
    requires Shaped(s) && i < |s.columns| && c == s.columns[i] && c.col.Len == s.rowCount
    requires c.field.Name in s4.fills && !s4.fills[c.field.Name] && s4.rowCount == s.rowCount + 1
    requires RowValue(p, c.field.Name, toDouble).None?
    ensures RowAdded(s, p, toDouble, i, Filled(s4, c))
  {
    OneNull(c);
  }

  /** Tags and fields leave the time column as it was. */
  lemma TimeUntouched(s: State, p: M.Point, toDouble: int -> Option<Float64>, s1: State, s2: State)
    requires Shaped(s) && Distinct(s.columns) && Shaped(s1) && Distinct(s1.columns) && PointKeys(p)
    requires Entered(s, TagCells(p.tags), true, toDouble, s1) && Entered(s1, p.fields, false, toDouble, s2)
    ensures s2.rowCount == s.rowCount && (R.TimeField in s2.fills <==> R.TimeField in s.fills)
    ensures Find(s2.columns, R.TimeField) == Find(s.columns, R.TimeField)
    ensures Find(s.columns, R.TimeField).Some? ==>
              s2.columns[Find(s.columns, R.TimeField).value] == s.columns[Find(s.columns, R.TimeField).value]
  {
    var tc := TagCells(p.tags);
    assert CellOf(tc, R.TimeField).None?;
    assert CellOf(p.fields, R.TimeField).None?;
    Untouched(s, tc, true, toDouble, s1, R.TimeField);
    Untouched(s1, p.fields, false, toDouble, s2, R.TimeField);
  }

  /** The time column after a point. */
  lemma TimeRow(s: State, p: M.Point, toDouble: int -> Option<Float64>, s1: State, s2: State, s3: State, i: nat)
    requires Stages(s, p, toDouble, s1, s2, s3) && i < |s3.columns|
    requires s3.columns[i].field.Name == R.TimeField
    ensures RowAdded(s, p, toDouble, i, Filled(s3.(rowCount := s.rowCount + 1), s3.columns[i]))
  {
    var nt := Ok(F.FieldTypeInt);
    var v := StampValue(p, toDouble);
    TimeUntouched(s, p, toDouble, s1, s2);
    CellColumnSame(s, s2, R.TimeField, nt, v, toDouble);
    EnteredRow(s, p, toDouble, s3.(rowCount := s.rowCount + 1), i, s3.columns[i], nt, v);
  }

  /** A tag's column after a point. */
  lemma TagRow(s: State, p: M.Point, toDouble: int -> Option<Float64>, s1: State, s2: State, s3: State, i: nat)
    requires Stages(s, p, toDouble, s1, s2, s3) && i < |s3.columns|
    requires CellOf(TagCells(p.tags), s3.columns[i].field.Name).Some?
    ensures RowAdded(s, p, toDouble, i, Filled(s3.(rowCount := s.rowCount + 1), s3.columns[i]))
  {
    var tc := TagCells(p.tags);
    var c := s3.columns[i];
    var n := c.field.Name;
    var v := CellOf(tc, n).value;
    assert n != R.TimeField;
    assert CellOf(p.fields, n).None?;
    assert c == s2.columns[i];
    assert EnteredColumn(s1, p.fields, false, toDouble, i, s2.columns[i]);
    assert EnteredColumn(s, tc, true, toDouble, i, s1.columns[i]);
    assert s2.fills[n];
    EnteredRow(s, p, toDouble, s3.(rowCount := s.rowCount + 1), i, c, Ok(F.FieldTypeTag), v);
  }

  /** A field's column after a point. */
  lemma FieldRow(s: State, p: M.Point, toDouble: int -> Option<Float64>, s1: State, s2: State, s3: State, i: nat)
    requires Stages(s, p, toDouble, s1, s2, s3) && i < |s3.columns|
    requires CellOf(p.fields, s3.columns[i].field.Name).Some?
    ensures RowAdded(s, p, toDouble, i, Filled(s3.(rowCount := s.rowCount + 1), s3.columns[i]))
  {
    var tc := TagCells(p.tags);
    var c := s3.columns[i];
    var n := c.field.Name;
    var v := CellOf(p.fields, n).value;
    assert n != R.TimeField;
    assert CellOf(tc, n).None?;
    assert c == s2.columns[i];
    assert EnteredColumn(s1, p.fields, false, toDouble, i, s2.columns[i]);
    Untouched(s, tc, true, toDouble, s1, n);
    CellColumnSame(s, s1, n, NewType(false, v), v, toDouble);
    assert s2.fills[n];
    EnteredRow(s, p, toDouble, s3.(rowCount := s.rowCount + 1), i, c, NewType(false, v), v);
  }

  /** The column of a name the point leaves out. */
  lemma OtherRow(s: State, p: M.Point, toDouble: int -> Option<Float64>, s1: State, s2: State, s3: State, i: nat)
    requires Stages(s, p, toDouble, s1, s2, s3) && i < |s3.columns|
    requires s3.columns[i].field.Name != R.TimeField
    requires CellOf(TagCells(p.tags), s3.columns[i].field.Name).None?
    requires CellOf(p.fields, s3.columns[i].field.Name).None?
    ensures RowAdded(s, p, toDouble, i, Filled(s3.(rowCount := s.rowCount + 1), s3.columns[i]))
  {
    var tc := TagCells(p.tags);
    var c := s3.columns[i];
    var n := c.field.Name;
    assert c == s2.columns[i];
    assert EnteredColumn(s1, p.fields, false, toDouble, i, s2.columns[i]);
    assert EnteredColumn(s, tc, true, toDouble, i, s1.columns[i]);
    assert n in s2.fills && !s2.fills[n];
    MissedRow(s, p, toDouble, s3.(rowCount := s.rowCount + 1), i, c);
  }

  /** Every column after a point, case by case. */
  lemma ColumnRow(s: State, p: M.Point, toDouble: int -> Option<Float64>, s1: State, s2: State, s3: State, i: nat)
    requires Stages(s, p, toDouble, s1, s2, s3) && i < |s3.columns|
    ensures RowAdded(s, p, toDouble, i, Filled(s3.(rowCount := s.rowCount + 1), s3.columns[i]))
  {
    var n := s3.columns[i].field.Name;
    if n == R.TimeField {
      TimeRow(s, p, toDouble, s1, s2, s3, i);
    } else if CellOf(TagCells(p.tags), n).Some? {
      TagRow(s, p, toDouble, s1, s2, s3, i);
    } else if CellOf(p.fields, n).Some? {
      FieldRow(s, p, toDouble, s1, s2, s3, i);
    } else {
      OtherRow(s, p, toDouble, s1, s2, s3, i);
    }
  }

  /** The fill flags after the tags and fields of a point: the old ones,
      and one for each name of the point. */
  lemma FillsOfPoint(s: State, p: M.Point, toDouble: int -> Option<Float64>, s1: State, s2: State)
    requires Shaped(s) && Shaped(s1) && PointKeys(p)
    requires EnteredFills(s, TagCells(p.tags), s1) && EnteredFills(s1, p.fields, s2)
    ensures forall n :: n in s2.fills <==> n in s.fills || (n != R.TimeField && RowValue(p, n, toDouble).Some?)
  {
    forall n
      ensures n in s2.fills <==> n in s.fills || (n != R.TimeField && RowValue(p, n, toDouble).Some?)
    {
      if n == R.TimeField {
        assert CellOf(TagCells(p.tags), n).None?;
        assert CellOf(p.fields, n).None?;
      }
    }
  }

  /** A column after a point has one entry per row, and a fill flag
      unless it is the time column. */
  lemma ColumnValid(s: State, p: M.Point, toDouble: int -> Option<Float64>, fills: map<string, bool>, i: nat, c: Column)
    requires Valid(s) && RowAdded(s, p, toDouble, i, c)
    requires forall n :: n in fills <==> n in s.fills || (n != R.TimeField && RowValue(p, n, toDouble).Some?)
    ensures c.col.Len == s.rowCount + 1 && c.col.BitmapOffset == 0
    ensures c.field.Name in fills <==> c.field.Name != R.TimeField
  {
    if i < |s.columns| {
      assert s.columns[i].field.Name in s.fills <==> s.columns[i].field.Name != R.TimeField;
    }
  }

  /** A name found in a list is found in a longer list that keeps the
      names in their places. */
  lemma FindKept(a: seq<Column>, b: seq<Column>, name: string)
    requires |a| <= |b| && forall i :: 0 <= i < |a| ==> b[i].field.Name == a[i].field.Name
    requires Find(a, name).Some?
    ensures Find(b, name).Some?
  {
    assert b[Find(a, name).value].field.Name == name;
  }

  /** Every name of a point has a column after the timestamp step. */
  lemma StagesFind(s: State, p: M.Point, toDouble: int -> Option<Float64>, s1: State, s2: State, s3: State, n: string)
    requires Stages(s, p, toDouble, s1, s2, s3) && RowValue(p, n, toDouble).Some?
    ensures Find(s3.columns, n).Some?
  {
    var tc := TagCells(p.tags);
    if n != R.TimeField {
      if CellOf(tc, n).Some? {
        var k :| 0 <= k < |tc| && tc[k].0 == n;
        assert Find(s1.columns, tc[k].0).Some?;
        FindKept(s1.columns, s2.columns, n);
      } else {
        var k :| 0 <= k < |p.fields| && p.fields[k].0 == n;
        assert Find(s2.columns, p.fields[k].0).Some?;
      }
      FindKept(s2.columns, s3.columns, n);
    }
  }

  /** The columns after a point, row by row. */
  lemma StagesRowAdded(s: State, p: M.Point, toDouble: int -> Option<Float64>, s1: State, s2: State, s3: State)
    requires Stages(s, p, toDouble, s1, s2, s3)
    ensures var t := MissFilled(s3.(rowCount := s.rowCount + 1));
            |s.columns| <= |t.columns|
            && forall i :: 0 <= i < |t.columns| ==> RowAdded(s, p, toDouble, i, t.columns[i])
  {
    var t := MissFilled(s3.(rowCount := s.rowCount + 1));
    forall i | 0 <= i < |t.columns|
      ensures RowAdded(s, p, toDouble, i, t.columns[i])
    {
      ColumnRow(s, p, toDouble, s1, s2, s3, i);
    }
  }

  /** Each column after a point has one entry per row, and a fill flag
      unless it is the time column. */
  lemma RowsShaped(s: State, p: M.Point, toDouble: int -> Option<Float64>, cols: seq<Column>, fills: map<string, bool>)
    requires Valid(s)
    requires forall n :: n in fills <==> n in s.fills || (n != R.TimeField && RowValue(p, n, toDouble).Some?)
    requires forall i :: 0 <= i < |cols| ==> RowAdded(s, p, toDouble, i, cols[i])
    ensures forall i :: 0 <= i < |cols| ==>
              cols[i].col.Len == s.rowCount + 1 && cols[i].col.BitmapOffset == 0
              && (cols[i].field.Name in fills <==> cols[i].field.Name != R.TimeField)
  {
    forall i | 0 <= i < |cols|
      ensures cols[i].col.Len == s.rowCount + 1 && cols[i].col.BitmapOffset == 0
      ensures cols[i].field.Name in fills <==> cols[i].field.Name != R.TimeField
    {
      ColumnValid(s, p, toDouble, fills, i, cols[i]);
    }
  }

  /** A point keeps a RecordTransform valid. */
  lemma RowsValid(s: State, s3: State)
    requires Shaped(s3) && Distinct(s3.columns) && s3.minTime <= 0 <= s3.maxTime && s.rowCount >= 0
    requires var t := MissFilled(s3.(rowCount := s.rowCount + 1));
             forall i :: 0 <= i < |t.columns| ==>
               t.columns[i].col.Len == s.rowCount + 1 && t.columns[i].col.BitmapOffset == 0
               && (t.columns[i].field.Name in s3.fills <==> t.columns[i].field.Name != R.TimeField)
    ensures Valid(MissFilled(s3.(rowCount := s.rowCount + 1)))
  {
    var t := MissFilled(s3.(rowCount := s.rowCount + 1));
    assert Distinct(t.columns) by {
      assert forall i :: 0 <= i < |t.columns| ==> t.columns[i].field.Name == s3.columns[i].field.Name;
    }
  }

  /** Every name of a point has a column after it. */
  lemma StagesFindAll(s: State, p: M.Point, toDouble: int -> Option<Float64>, s1: State, s2: State, s3: State)
    requires Stages(s, p, toDouble, s1, s2, s3)
    ensures forall n :: RowValue(p, n, toDouble).Some? ==> Find(MissFilled(s3.(rowCount := s.rowCount + 1)).columns, n).Some?
  {
    var t := MissFilled(s3.(rowCount := s.rowCount + 1));
    SameNamesFind(s3.columns, t.columns);
    forall n | RowValue(p, n, toDouble).Some?
      ensures Find(t.columns, n).Some?
    {
      StagesFind(s, p, toDouble, s1, s2, s3, n);
    }
  }

  /** `add_point` raised nothing exactly when none of its steps did. */
  lemma PointAddedSteps(s: State, p: M.Point, toDouble: int -> Option<Float64>, o1: Outcome, o2: Outcome, o3: Outcome)
    requires Valid(s) && PointAdded(s, p, toDouble).err.None?
    requires o1 == PutAll(s, TagCells(p.tags), true, toDouble)
    requires o2 == PutAll(o1.state, p.fields, false, toDouble)
    requires o3 == Timestamped(o2.state, StampValue(p, toDouble), Timestamp(p), toDouble)
    ensures o1.err.None? && o2.err.None? && o3.err.None?
    ensures PointAdded(s, p, toDouble).state == MissFilled(o3.state.(rowCount := o3.state.rowCount + 1))
  {
  }

  /** The three steps of `add_point` ran from `s` through `s1` and `s2`
      to `s3` and raised nothing. */
  ghost predicate Stepped(s: State, p: M.Point, toDouble: int -> Option<Float64>, s1: State, s2: State, s3: State)
  {
    Valid(s) && PointKeys(p)
    && PutAll(s, TagCells(p.tags), true, toDouble) == Outcome(s1, None)
    && Shaped(s1) && PutAll(s1, p.fields, false, toDouble) == Outcome(s2, None)
    && Shaped(s2) && Timestamped(s2, StampValue(p, toDouble), Timestamp(p), toDouble) == Outcome(s3, None)
  }

  /** The steps of `add_point` that raised nothing. */
  lemma PointStages(s: State, p: M.Point, toDouble: int -> Option<Float64>, s1: State, s2: State, s3: State)
    requires Stepped(s, p, toDouble, s1, s2, s3)
    ensures Stages(s, p, toDouble, s1, s2, s3)
  {
    PutAllEntered(s, TagCells(p.tags), true, toDouble);
    PutAllEntered(s1, p.fields, false, toDouble);
    TimestampedStaged(s2, StampValue(p, toDouble), Timestamp(p), toDouble);
  }

  /** The counters and bounds after the steps of `add_point`. */
  lemma StagesBounds(s: State, p: M.Point, toDouble: int -> Option<Float64>, s1: State, s2: State, s3: State)
    requires Stages(s, p, toDouble, s1, s2, s3)
    ensures Shaped(s3) && Distinct(s3.columns) && s3.rowCount == s.rowCount
    ensures s3.minTime == Min(s.minTime, Timestamp(p)) && s3.maxTime == Max(s.maxTime, Timestamp(p))
  {
    assert EnteredShape(s, s1) && EnteredShape(s1, s2);
  }

  /** After the steps of `add_point`: the columns stay distinct, the row
      count is untouched and the bounds take in the timestamp. */
  lemma StepsBounds(s: State, p: M.Point, toDouble: int -> Option<Float64>, s1: State, s2: State, s3: State)
    requires Stepped(s, p, toDouble, s1, s2, s3)
    ensures Shaped(s3) && Distinct(s3.columns) && s3.rowCount == s.rowCount
    ensures s3.minTime == Min(s.minTime, Timestamp(p)) && s3.maxTime == Max(s.maxTime, Timestamp(p))
  {
    PointStages(s, p, toDouble, s1, s2, s3);
    StagesBounds(s, p, toDouble, s1, s2, s3);
  }

  /** After the steps of `add_point` the names to fill are the old ones and
      the point's. */
  lemma StepsFills(s: State, p: M.Point, toDouble: int -> Option<Float64>, s1: State, s2: State, s3: State)
    requires Stepped(s, p, toDouble, s1, s2, s3)
    ensures forall n :: n in s3.fills <==> n in s.fills || (n != R.TimeField && RowValue(p, n, toDouble).Some?)
  {
    PointStages(s, p, toDouble, s1, s2, s3);
    FillsOfPoint(s, p, toDouble, s1, s2);
  }

  /** After the steps of `add_point` every column has its new row. */
  lemma StepsRowAdded(s: State, p: M.Point, toDouble: int -> Option<Float64>, s1: State, s2: State, s3: State, t: State)
    requires Stepped(s, p, toDouble, s1, s2, s3)
    requires Shaped(s3) && t == MissFilled(s3.(rowCount := s.rowCount + 1))
    ensures |s.columns| <= |t.columns|
    ensures forall i :: 0 <= i < |t.columns| ==>
              RowAdded(s, p, toDouble, i, t.columns[i])
  {
    PointStages(s, p, toDouble, s1, s2, s3);
    StagesRowAdded(s, p, toDouble, s1, s2, s3);
  }

  /** After the steps of `add_point` every name of the point has a column. */
  lemma StepsFindAll(s: State, p: M.Point, toDouble: int -> Option<Float64>, s1: State, s2: State, s3: State, t: State)
    requires Stepped(s, p, toDouble, s1, s2, s3)
    requires Shaped(s3) && t == MissFilled(s3.(rowCount := s.rowCount + 1))
    ensures forall n :: RowValue(p, n, toDouble).Some? ==> Find(t.columns, n).Some?
  {
    PointStages(s, p, toDouble, s1, s2, s3);
    StagesFindAll(s, p, toDouble, s1, s2, s3);
  }

  /** The state after the steps of `add_point`, from what the steps did to
      its columns, fills and bounds. */
  lemma RowsAdded(s: State, p: M.Point, toDouble: int -> Option<Float64>, s3: State, t: State)
    requires Valid(s) && Shaped(s3) && Distinct(s3.columns) && s3.rowCount == s.rowCount
    requires s3.minTime == Min(s.minTime, Timestamp(p)) && s3.maxTime == Max(s.maxTime, Timestamp(p))
    requires forall n :: n in s3.fills <==> n in s.fills || (n != R.TimeField && RowValue(p, n, toDouble).Some?)
    requires t == MissFilled(s3.(rowCount := s.rowCount + 1))
    requires |s.columns| <= |t.columns|
    requires forall i :: 0 <= i < |t.columns| ==> RowAdded(s, p, toDouble, i, t.columns[i])
    requires forall n :: RowValue(p, n, toDouble).Some? ==> Find(t.columns, n).Some?
    ensures Valid(t) && t.rowCount == s.rowCount + 1
    ensures t.minTime == Min(s.minTime, Timestamp(p)) && t.maxTime == Max(s.maxTime, Timestamp(p))
    ensures |s.columns| <= |t.columns|
    ensures forall i :: 0 <= i < |t.columns| ==> RowAdded(s, p, toDouble, i, t.columns[i])
    ensures forall n :: RowValue(p, n, toDouble).Some? ==> Find(t.columns, n).Some?
  {
    RowsShaped(s, p, toDouble, t.columns, s3.fills);
    RowsValid(s, s3);
  }

  /** Counting the new row from either count, once they agree. */
  lemma FilledCount(s3: State, n: int, t: State)
    requires Shaped(s3) && s3.rowCount == n && t == MissFilled(s3.(rowCount := s3.rowCount + 1))
    ensures t == MissFilled(s3.(rowCount := n + 1))
  {
  }

  /** The facts of `add_point` after its steps, about the state it leaves. */
  lemma StepsRows(s: State, p: M.Point, toDouble: int -> Option<Float64>, s1: State, s2: State, s3: State, t: State)
    requires Stepped(s, p, toDouble, s1, s2, s3)
    requires Shaped(s3) && t == MissFilled(s3.(rowCount := s3.rowCount + 1))
    ensures Valid(t) && t.rowCount == s.rowCount + 1
    ensures t.minTime == Min(s.minTime, Timestamp(p)) && t.maxTime == Max(s.maxTime, Timestamp(p))
    ensures |s.columns| <= |t.columns|
    ensures forall i :: 0 <= i < |t.columns| ==> RowAdded(s, p, toDouble, i, t.columns[i])
    ensures forall n :: RowValue(p, n, toDouble).Some? ==> Find(t.columns, n).Some?
  {
    StepsBounds(s, p, toDouble, s1, s2, s3);
    FilledCount(s3, s.rowCount, t);
    StepsFills(s, p, toDouble, s1, s2, s3);
    StepsRowAdded(s, p, toDouble, s1, s2, s3, t);
    StepsFindAll(s, p, toDouble, s1, s2, s3, t);
    RowsAdded(s, p, toDouble, s3, t);
  }

  /** `add_point` on a valid RecordTransform, for a point whose keys are
      those of dictionaries, raising nothing and leaving `t`: the transform
      stays valid with one more row, the bounds take in the timestamp, every
      name of the point has a column, and each column is what it was (or
      nulls, for a new one) followed by the point's value under its name, or
      a null. */
  lemma PointAddedRows(s: State, p: M.Point, toDouble: int -> Option<Float64>, t: State)
    requires Valid(s) && PointKeys(p) && PointAdded(s, p, toDouble) == Outcome(t, None)
    ensures Valid(t) && t.rowCount == s.rowCount + 1
    ensures t.minTime == Min(s.minTime, Timestamp(p)) && t.maxTime == Max(s.maxTime, Timestamp(p))
    ensures |s.columns| <= |t.columns|
    ensures forall i :: 0 <= i < |t.columns| ==> RowAdded(s, p, toDouble, i, t.columns[i])
    ensures forall n :: RowValue(p, n, toDouble).Some? ==> Find(t.columns, n).Some?
  {
    var o1 := PutAll(s, TagCells(p.tags), true, toDouble);
    var o2 := PutAll(o1.state, p.fields, false, toDouble);
    var o3 := Timestamped(o2.state, StampValue(p, toDouble), Timestamp(p), toDouble);
    PointAddedSteps(s, p, toDouble, o1, o2, o3);
    assert Stepped(s, p, toDouble, o1.state, o2.state, o3.state);
    StepsRows(s, p, toDouble, o1.state, o2.state, o3.state, t);
  }

  /** The float of the nanosecond branch: once the tags and fields are in,
      `add_point` raises `struct.error` whenever the time column is missing
      or has the Int type, after the tag and field columns were added and
      flagged, and before `row_count` moves. */
  lemma FloatStampFails(s: State, p: M.Point, toDouble: int -> Option<Float64>)
    requires Valid(s) && PointKeys(p) && FloatStamp(p)
    requires Find(s.columns, R.TimeField).None? || s.columns[Find(s.columns, R.TimeField).value].field.Type == F.FieldTypeInt
    requires PutAll(s, TagCells(p.tags), true, toDouble).err.None?
    requires PutAll(PutAll(s, TagCells(p.tags), true, toDouble).state, p.fields, false, toDouble).err.None?
    ensures PointAdded(s, p, toDouble)
            == Outcome(PutAll(PutAll(s, TagCells(p.tags), true, toDouble).state, p.fields, false, toDouble).state,
                       Some(PackError))
    ensures PointAdded(s, p, toDouble).state.rowCount == s.rowCount
  {
    var o1 := PutAll(s, TagCells(p.tags), true, toDouble);
    var o2 := PutAll(o1.state, p.fields, false, toDouble);
    var v := StampValue(p, toDouble);
    PutAllEntered(s, TagCells(p.tags), true, toDouble);
    assert Shaped(o1.state) && Distinct(o1.state.columns);
    PutAllEntered(o1.state, p.fields, false, toDouble);
    TimeUntouched(s, p, toDouble, o1.state, o2.state);
    assert ValueCall(F.FieldTypeInt, v, toDouble) == Err(PackError);
    assert CellColumn(o2.state, R.TimeField, Ok(F.FieldTypeInt), v, toDouble) == Err(PackError);
    assert Timestamped(o2.state, v, Timestamp(p), toDouble) == Outcome(o2.state, Some(PackError));
  }

  /** A fresh RecordTransform is valid. */
  lemma InitialValid()
    ensures Valid(Initial) && Initial.rowCount == 0 && Initial.columns == []
  {
  }

  // -----------------------------------------------------------------------
  // convert_to_record

  lemma PickedSnoc(cols: seq<Column>, c: Column, g: nat)
    ensures Picked(cols + [c], g) == Picked(cols, g) + (if Group(c) == g then [c] else [])
  {
    assert (cols + [c])[..|cols|] == cols;
  }

  /** Picking a group distributes over concatenation. */
  lemma {:induction false} PickedConcat(a: seq<Column>, b: seq<Column>, g: nat)
    ensures Picked(a + b, g) == Picked(a, g) + Picked(b, g)
    decreases |b|
  {
    if |b| == 0 {
      assert a + b == a;
    } else {
      var init := b[..|b| - 1];
      var c := b[|b| - 1];
      assert b == init + [c];
      assert a + b == (a + init) + [c];
      PickedConcat(a, init, g);
      PickedSnoc(a + init, c, g);
      PickedSnoc(init, c, g);
    }
  }

  /** A group picked from a list of one group is all of it, or nothing. */
  lemma {:induction false} PickedOfPicked(cols: seq<Column>, g: nat, h: nat)
    ensures Picked(Picked(cols, h), g) == if g == h then Picked(cols, h) else []
    decreases |cols|
  {
    if |cols| > 0 {
      var init := cols[..|cols| - 1];
      var c := cols[|cols| - 1];
      PickedOfPicked(init, g, h);
      var tail := if Group(c) == h then [c] else [];
      PickedConcat(Picked(init, h), tail, g);
      if Group(c) == h {
        PickedSnoc([], c, g);
        assert [] + [c] == [c];
      }
    }
  }

  /** The three groups hold every column once. */
  lemma {:induction false} PickedSplit(cols: seq<Column>)
    ensures multiset(Picked(cols, 0)) + multiset(Picked(cols, 1)) + multiset(Picked(cols, 2)) == multiset(cols)
    decreases |cols|
  {
    if |cols| > 0 {
      var init := cols[..|cols| - 1];
      var c := cols[|cols| - 1];
      assert cols == init + [c];
      PickedSplit(init);
    }
  }

  /** The record's columns are the transform's columns, reordered. */
  lemma GroupedPermutation(cols: seq<Column>)
    ensures multiset(Grouped(cols)) == multiset(cols) && |Grouped(cols)| == |cols|
  {
    var g := Grouped(cols);
    PickedSplit(cols);
    assert multiset(g) == multiset(Picked(cols, 0)) + multiset(Picked(cols, 1)) + multiset(Picked(cols, 2));
    assert |g| == |multiset(g)|;
  }

  /** The record holds the fields first, then the tags, then the time
      column. */
  lemma GroupedSorted(cols: seq<Column>)
    ensures forall i, j :: 0 <= i < j < |Grouped(cols)| ==> Group(Grouped(cols)[i]) <= Group(Grouped(cols)[j])
  {
    var g := Grouped(cols);
    var n0, n1 := |Picked(cols, 0)|, |Picked(cols, 1)|;
    assert forall k :: 0 <= k < |g| ==> Group(g[k]) == (if k < n0 then 0 else if k < n0 + n1 then 1 else 2);
  }

  /** Each group keeps the order the columns were inserted in. */
  lemma GroupedKeepsOrder(cols: seq<Column>, h: nat)
    ensures Picked(Grouped(cols), h) == Picked(cols, h)
  {
    var p0, p1, p2 := Picked(cols, 0), Picked(cols, 1), Picked(cols, 2);
    var q0, q1, q2 := Picked(p0, h), Picked(p1, h), Picked(p2, h);
    PickedConcat(p0 + p1, p2, h);
    PickedConcat(p0, p1, h);
    assert Picked(Grouped(cols), h) == q0 + q1 + q2;
    PickedOfPicked(cols, h, 0);
    PickedOfPicked(cols, h, 1);
    PickedOfPicked(cols, h, 2);
    if h == 0 {
      assert q0 + q1 + q2 == p0 + [] + [];
    } else if h == 1 {
      assert q0 + q1 + q2 == [] + p1 + [];
    } else if h == 2 {
      assert q0 + q1 + q2 == [] + [] + p2;
    } else {
      PickedNone(cols, h);
      assert q0 + q1 + q2 == [] + [] + [];
    }
  }

  /** No column is in a group past the time column's. */
  lemma {:induction false} PickedNone(cols: seq<Column>, g: nat)
    requires g > 2
    ensures Picked(cols, g) == []
    decreases |cols|
  {
    if |cols| > 0 {
      PickedNone(cols[..|cols| - 1], g);
    }
  }

  /** `convert_to_record` raises only on a transform with no columns, and
      otherwise gives a record whose i-th field and i-th column come from
      the same column of the transform. */
  lemma ConvertedRecord(s: State)
    ensures Converted(s).Err? <==> |s.columns| == 0
    ensures Converted(s).Err? ==> Converted(s).error == EmptyRecord
    ensures Converted(s).Ok? ==>
              var r := Converted(s).value;
              var g := Grouped(s.columns);
              |r.Fields| == |r.ColVals| == |s.columns|
              && forall i :: 0 <= i < |g| ==> r.Fields[i] == g[i].field && r.ColVals[i] == g[i].col
  {
    GroupedPermutation(s.columns);
  }

  /** On a valid transform every column of the record has one entry per
      row and starts its bitmap at bit 0. */
  lemma ConvertedRows(s: State)
    requires Valid(s) && Converted(s).Ok?
    ensures forall i :: 0 <= i < |Converted(s).value.ColVals| ==>
              Converted(s).value.ColVals[i].Len == s.rowCount && Converted(s).value.ColVals[i].BitmapOffset == 0
  {
    var g := Grouped(s.columns);
    GroupedPermutation(s.columns);
    forall i | 0 <= i < |g|
      ensures g[i].col.Len == s.rowCount && g[i].col.BitmapOffset == 0
    {
      assert g[i] in multiset(s.columns);
    }
  }
}
