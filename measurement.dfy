/**
 * The DDL side of opengemini_client/measurement.py: the checks a
 * `Measurement` and a `MeasurementCondition` make before they are sent, and
 * the `CREATE MEASUREMENT` and `SHOW MEASUREMENTS` statements they write.
 *
 * As in the line-protocol model, the `io.StringIO` writer is the text
 * written so far: every writing method takes it and returns it extended,
 * and is proved against a function of the measurement. The lemmas say how
 * those texts are put together and read back.
 */
module Measurements {
  import opened Wire

  // -----------------------------------------------------------------------
  // Values

  /** The `ValueError` messages of the checks. */
  datatype MeasurementError = EmptyDatabaseName | EmptyMeasurement | EmptyTagOrField | EmptyIndexList
  {
    function Message(): string
    {
      match this
      case EmptyDatabaseName => "empty database name"
      case EmptyMeasurement => "empty measurement"
      case EmptyTagOrField => "empty tag or field"
      case EmptyIndexList => "empty index list"
    }
  }

  datatype FieldType = FieldTypeInt64 | FieldTypeFloat64 | FieldTypeString | FieldTypeBool
  {
    function Value(): string
    {
      match this
      case FieldTypeInt64 => "INT64"
      case FieldTypeFloat64 => "FLOAT64"
      case FieldTypeString => "STRING"
      case FieldTypeBool => "BOOL"
    }
  }

  datatype ShardType = ShardTypeHash | ShardTypeRange
  {
    function Value(): string
    {
      match this
      case ShardTypeHash => "HASH"
      case ShardTypeRange => "RANGE"
    }
  }

  datatype IndexType = IndexTypeText
  {
    function Value(): string { "text" }
  }

  datatype EngineType = EngineTypeColumnstore
  {
    function Value(): string { "columnstore" }
  }

  datatype ComparisonOperator =
    | Equals | NotEquals | GreaterThan | LessThan | GreaterThanOrEquals | LessThanOrEquals | Match | NotMatch
  {
    function Value(): string
    {
      match this
      case Equals => "="
      case NotEquals => "<>"
      case GreaterThan => ">"
      case LessThan => "<"
      case GreaterThanOrEquals => ">="
      case LessThanOrEquals => "<="
      case Match => "=~"
      case NotMatch => "!~"
    }
  }

  /** A `Measurement`; the `fields` dictionary is its entries in insertion
      order, and an option left at `None` is `None`. */
  datatype Measurement = Measurement(
    database: string,
    measurement: string,
    retentionPolicy: string,
    tags: seq<string>,
    fields: seq<(string, FieldType)>,
    shardType: Option<ShardType>,
    shardKeys: seq<string>,
    indexType: Option<IndexType>,
    indexList: seq<string>,
    engineType: Option<EngineType>,
    primaryKeys: seq<string>,
    sortKeys: seq<string>)

  datatype MeasurementCondition = MeasurementCondition(
    database: string,
    operator: Option<ComparisonOperator>,
    value: string)

  // -----------------------------------------------------------------------
  // check

  /** What a measurement needs to be sent: a database, a name, at least
      one tag or field, and an index list whenever an index type is set. */
  predicate Acceptable(m: Measurement)
  {
    |m.database| > 0 && |m.measurement| > 0 && (|m.tags| > 0 || |m.fields| > 0)
    && (m.indexType.Some? ==> |m.indexList| > 0)
  }

  /** `Measurement.check`: the error it raises, if any. The checks run in
      order, so the error is the first one that applies. */
  function Check(m: Measurement): (r: Option<MeasurementError>)
    ensures r.None? <==> Acceptable(m)
    ensures r == Some(EmptyDatabaseName) <==> |m.database| == 0
    ensures r == Some(EmptyMeasurement) <==> |m.database| > 0 && |m.measurement| == 0
    ensures r == Some(EmptyTagOrField) <==>
              |m.database| > 0 && |m.measurement| > 0 && |m.tags| == 0 && |m.fields| == 0
    ensures r == Some(EmptyIndexList) <==>
              |m.database| > 0 && |m.measurement| > 0 && (|m.tags| > 0 || |m.fields| > 0)
              && m.indexType.Some? && |m.indexList| == 0
  {
    if |m.database| == 0 then Some(EmptyDatabaseName)
    else if |m.measurement| == 0 then Some(EmptyMeasurement)
    else if |m.tags| == 0 && |m.fields| == 0 then Some(EmptyTagOrField)
    else if m.indexType.Some? && |m.indexList| == 0 then Some(EmptyIndexList)
    else None
  }

  /** `MeasurementCondition.check`. */
  function CheckCondition(c: MeasurementCondition): (r: Option<MeasurementError>)
    ensures r.None? <==> |c.database| > 0
    ensures r.Some? ==> r.value == EmptyDatabaseName
  {
    if |c.database| == 0 then Some(EmptyDatabaseName) else None
  }

  // -----------------------------------------------------------------------
  // Joining and splitting lists

  /** `sep.join(items)`. */
  function Join(sep: string, items: seq<string>): string
  {
    if |items| == 0 then ""
    else if |items| == 1 then items[0]
    else Join(sep, items[..|items| - 1]) + sep + items[|items| - 1]
  }

  /** The pieces of `s` between the occurrences of `c`, as `str.split`
      with a one-character separator gives them. */
  function Split(s: string, c: char): (r: seq<string>)
    ensures |r| > 0
  {
    if |s| == 0 then [""]
    else
      var init := Split(s[..|s| - 1], c);
      if s[|s| - 1] == c then init + [""]
      else init[..|init| - 1] + [init[|init| - 1] + [s[|s| - 1]]]
  }

  predicate Free(item: string, c: char)
  {
    forall i :: 0 <= i < |item| ==> item[i] != c
  }

  /** Splitting a text that does not hold `c` gives the text back. */
  lemma {:induction false} SplitFree(s: string, c: char)
    requires Free(s, c)
    ensures Split(s, c) == [s]
  {
    if |s| > 0 {
      SplitFree(s[..|s| - 1], c);
      assert s[..|s| - 1] + [s[|s| - 1]] == s;
    }
  }

  /** Splitting after a separator starts a new piece. */
  lemma {:induction false} SplitAppend(s: string, c: char, item: string)
    requires Free(item, c)
    ensures Split(s + [c] + item, c) == Split(s, c) + [item]
    decreases |item|
  {
    if |item| == 0 {
      assert s + [c] + item == s + [c];
      assert (s + [c])[..|s|] == s;
    } else {
      var init := item[..|item| - 1];
      var last := item[|item| - 1];
      SplitAppend(s, c, init);
      var t := s + [c] + item;
      assert t[..|t| - 1] == s + [c] + init;
      assert init + [last] == item;
    }
  }

  /** A list joined by `c` splits back into the list when no item holds
      `c`: the lists a statement names can be read back from it. */
  lemma {:induction false} JoinSplit(items: seq<string>, c: char)
    requires |items| > 0 && forall i :: 0 <= i < |items| ==> Free(items[i], c)
    ensures Split(Join([c], items), c) == items
    decreases |items|
  {
    if |items| == 1 {
      SplitFree(items[0], c);
    } else {
      var init := items[..|items| - 1];
      JoinSplit(init, c);
      SplitAppend(Join([c], init), c, items[|items| - 1]);
      assert init + [items[|items| - 1]] == items;
    }
  }

  /** Joining two lists is joining each, with a separator between them
      only when both are non-empty. */
  lemma {:induction false} JoinConcat(sep: string, a: seq<string>, b: seq<string>)
    ensures Join(sep, a + b) == Join(sep, a) + (if |a| > 0 && |b| > 0 then sep else "") + Join(sep, b)
    decreases |b|
  {
    if |b| == 0 {
      assert a + b == a;
    } else if |b| == 1 {
      assert (a + b)[..|a + b| - 1] == a;
    } else {
      var init := b[..|b| - 1];
      JoinConcat(sep, a, init);
      assert (a + b)[..|a + b| - 1] == a + init;
      assert init[..|init|] == init;
    }
  }

  // -----------------------------------------------------------------------
  // CREATE MEASUREMENT

  function TagItem(tag: string): string { tag + " TAG" }

  function FieldItem(field: (string, FieldType)): string { field.0 + " " + field.1.Value() + " FIELD" }

  function TagItems(tags: seq<string>): (r: seq<string>)
    ensures |r| == |tags| && forall i :: 0 <= i < |r| ==> r[i] == TagItem(tags[i])
  {
    seq(|tags|, i requires 0 <= i < |tags| => TagItem(tags[i]))
  }

  function FieldItems(fields: seq<(string, FieldType)>): (r: seq<string>)
    ensures |r| == |fields| && forall i :: 0 <= i < |r| ==> r[i] == FieldItem(fields[i])
  {
    seq(|fields|, i requires 0 <= i < |fields| => FieldItem(fields[i]))
  }

  /** What `_write_tags_fields` writes: the tag items joined, a comma when
      there are both tags and fields, the field items joined. */
  function TagsFieldsText(m: Measurement): string
  {
    "CREATE MEASUREMENT " + m.measurement + " ("
    + Join(",", TagItems(m.tags))
    + (if |m.tags| != 0 && |m.fields| != 0 then "," else "")
    + Join(",", FieldItems(m.fields))
    + ")"
  }

  /** What `_write_index` writes. */
  function IndexText(m: Measurement): string
    requires m.indexType.Some?
  {
    " WITH " + " INDEXTYPE " + m.indexType.value.Value() + " INDEXLIST " + Join(",", m.indexList)
  }

  /** The options a measurement sets, each as it is written, in the order
      ENGINETYPE, SHARDKEY, TYPE, PRIMARYKEY, SORTKEY. */
  function Options(m: Measurement): seq<string>
  {
    EngineOption(m) + ShardKeyOption(m) + ShardTypeOption(m) + PrimaryKeyOption(m) + SortKeyOption(m)
  }

  function EngineOption(m: Measurement): seq<string>
  {
    if m.engineType.Some? then [EngineText(m.engineType.value)] else []
  }

  function ShardKeyOption(m: Measurement): seq<string>
  {
    if |m.shardKeys| != 0 then [ShardKeyText(m.shardKeys)] else []
  }

  function ShardTypeOption(m: Measurement): seq<string>
  {
    if m.shardType.Some? then [ShardTypeText(m.shardType.value)] else []
  }

  function PrimaryKeyOption(m: Measurement): seq<string>
  {
    if |m.primaryKeys| != 0 then [PrimaryKeyText(m.primaryKeys)] else []
  }

  function SortKeyOption(m: Measurement): seq<string>
  {
    if |m.sortKeys| != 0 then [SortKeyText(m.sortKeys)] else []
  }

  function EngineText(e: EngineType): string { " ENGINETYPE = " + e.Value() }

  function ShardKeyText(keys: seq<string>): string { " SHARDKEY " + Join(",", keys) }

  function ShardTypeText(t: ShardType): string { " TYPE " + t.Value() }

  function PrimaryKeyText(keys: seq<string>): string { " PRIMARYKEY " + Join(",", keys) }

  function SortKeyText(keys: seq<string>): string { " SORTKEY " + Join(",", keys) }

  function Concat(parts: seq<string>): string
  {
    if |parts| == 0 then "" else Concat(parts[..|parts| - 1]) + parts[|parts| - 1]
  }

  /** The text of a list of options: " WITH " once, then the options. */
  function Written(written: seq<string>): string
  {
    if |written| == 0 then "" else " WITH " + Concat(written)
  }

  /** What `_writer_other` writes: nothing when no option is set, and
      otherwise " WITH " once, followed by the options. */
  function OtherText(m: Measurement): string
  {
    Written(Options(m))
  }

  /** The statement `Measurement.to_string` returns. */
  function Statement(m: Measurement): string
  {
    TagsFieldsText(m) + (if m.indexType.Some? then IndexText(m) else OtherText(m))
  }

  /** `Measurement.to_string`. */
  method ToString(m: Measurement) returns (s: string)
    ensures s == Statement(m)
  {
    var head := WriteTagsFields("", m);
    assert head == TagsFieldsText(m);
    if m.indexType.Some? {
      s := WriteIndex(head, m);
      return s;
    }
    s := WriterOther(head, m);
  }

  /** `_write_tags_fields`: the two lists of items are built by loops and
      joined. */
  method WriteTagsFields(w: string, m: Measurement) returns (out: string)
    ensures out == w + TagsFieldsText(m)
  {
    var head := w + ("CREATE MEASUREMENT " + m.measurement + " (");
    var tags := "";
    if |m.tags| != 0 {
      var items := CollectTags(m.tags);
      tags := Join(",", items);
    }
    assert tags == Join(",", TagItems(m.tags));
    var comma := "";
    if |m.tags| != 0 && |m.fields| != 0 {
      comma := ",";
    }
    var fields := "";
    if |m.fields| != 0 {
      var items := CollectFields(m.fields);
      fields := Join(",", items);
    }
    assert fields == Join(",", FieldItems(m.fields));
    ghost var start := "CREATE MEASUREMENT " + m.measurement + " (";
    ConcatAssoc(w, start, tags);
    ConcatAssoc(w, start + tags, comma);
    ConcatAssoc(w, start + tags + comma, fields);
    ConcatAssoc(w, start + tags + comma + fields, ")");
    out := head + tags + comma + fields + ")";
  }

  /** The loop of `_write_tags_fields` over the tags. */
  method CollectTags(tags: seq<string>) returns (items: seq<string>)
    ensures items == TagItems(tags)
  {
    items := [];
    for i := 0 to |tags|
      invariant items == TagItems(tags[..i])
    {
      items := items + [TagItem(tags[i])];
    }
    assert tags[..|tags|] == tags;
  }

  /** The loop of `_write_tags_fields` over the fields, in their order. */
  method CollectFields(fields: seq<(string, FieldType)>) returns (items: seq<string>)
    ensures items == FieldItems(fields)
  {
    items := [];
    for i := 0 to |fields|
      invariant items == FieldItems(fields[..i])
    {
      items := items + [FieldItem(fields[i])];
    }
    assert fields[..|fields|] == fields;
  }

  /** `_write_index`; the source reads `index_type.value`, so the index
      type must be set. */
  method WriteIndex(w: string, m: Measurement) returns (out: string)
    requires m.indexType.Some?
    ensures out == w + IndexText(m)
  {
    out := w + " WITH ";
    out := out + (" INDEXTYPE " + m.indexType.value.Value());
    out := out + (" INDEXLIST " + Join(",", m.indexList));
  }

  /** `_writer_other`, with its `with_identifier` flag: " WITH " is
      written before the first option that is set. Each option is written
      when its test holds (`engine_type is not None`, `shard_keys` not
      empty, and so on), which is when its option list is not empty. */
  method WriterOther(w: string, m: Measurement) returns (out: string)
    ensures out == w + OtherText(m)
  {
    var withIdentifier := false;
    assert w + Written([]) == w;
    ghost var written: seq<string> := [];
    out, withIdentifier := WriteIfSet(w, w, withIdentifier, written, EngineOption(m));
    written := written + EngineOption(m);
    out, withIdentifier := WriteIfSet(w, out, withIdentifier, written, ShardKeyOption(m));
    written := written + ShardKeyOption(m);
    out, withIdentifier := WriteIfSet(w, out, withIdentifier, written, ShardTypeOption(m));
    written := written + ShardTypeOption(m);
    out, withIdentifier := WriteIfSet(w, out, withIdentifier, written, PrimaryKeyOption(m));
    written := written + PrimaryKeyOption(m);
    out, withIdentifier := WriteIfSet(w, out, withIdentifier, written, SortKeyOption(m));
    written := written + SortKeyOption(m);
    assert [] + EngineOption(m) == EngineOption(m);
  }

  /** One block of `_writer_other`: when its option is set, the option,
      with " WITH " first when it is the first. */
  method WriteIfSet(w: string, out: string, withIdentifier: bool, ghost written: seq<string>, option: seq<string>)
    returns (out': string, withIdentifier': bool)
    requires |option| <= 1
    requires Flagged(w, out, withIdentifier, written)
    ensures Flagged(w, out', withIdentifier', written + option)
  {
    if |option| == 0 {
      assert written + option == written;
      return out, withIdentifier;
    }
    out', withIdentifier' := WriteOption(w, out, withIdentifier, written, option[0]);
    assert option == [option[0]];
  }

  /** One more option: " WITH " goes first when it is the first. */
  lemma WrittenSnoc(written: seq<string>, part: string)
    ensures Written(written + [part]) == Written(written) + ((if |written| == 0 then " WITH " else "") + part)
  {
    assert (written + [part])[..|written|] == written;
    if |written| == 0 {
      assert Concat([part]) == Concat([]) + part;
    }
  }

  /** The writer after the options in `written`: the flag is set exactly
      when one was written. */
  ghost predicate Flagged(w: string, out: string, withIdentifier: bool, written: seq<string>)
  {
    (withIdentifier <==> |written| > 0) && out == w + Written(written)
  }

  /** One option of `_writer_other`, with the flag test before it. */
  method WriteOption(w: string, out: string, withIdentifier: bool, ghost written: seq<string>, part: string)
    returns (out': string, withIdentifier': bool)
    requires Flagged(w, out, withIdentifier, written)
    ensures Flagged(w, out', withIdentifier', written + [part])
  {
    var lead := "";
    withIdentifier' := withIdentifier;
    if !withIdentifier' {
      withIdentifier' := true;
      lead := " WITH ";
    }
    out' := out + (lead + part);
    WrittenSnoc(written, part);
    ConcatAssoc(w, Written(written), lead + part);
  }

  // -----------------------------------------------------------------------
  // SHOW MEASUREMENTS

  /** The statement `MeasurementCondition.to_string` returns. */
  function ConditionText(c: MeasurementCondition): string
  {
    "SHOW MEASUREMENTS"
    + (if c.operator.Some? then " WITH MEASUREMENT " + c.operator.value.Value() + " " + c.value else "")
  }

  /** `MeasurementCondition.to_string`. */
  method ConditionToString(c: MeasurementCondition) returns (s: string)
    ensures s == ConditionText(c)
  {
    s := "SHOW MEASUREMENTS";
    if c.operator.Some? {
      s := s + (" WITH MEASUREMENT " + c.operator.value.Value() + " " + c.value);
    }
  }

  /** The operator a token names. */
  function OperatorOf(token: string): (r: Option<ComparisonOperator>)
    ensures r.Some? ==> r.value.Value() == token
  {
    if token == "=" then Some(Equals)
    else if token == "<>" then Some(NotEquals)
    else if token == ">" then Some(GreaterThan)
    else if token == "<" then Some(LessThan)
    else if token == ">=" then Some(GreaterThanOrEquals)
    else if token == "<=" then Some(LessThanOrEquals)
    else if token == "=~" then Some(Match)
    else if token == "!~" then Some(NotMatch)
    else None
  }

  /** The index of the first space in `s`, or `|s|`. */
  function FirstSpace(s: string): (k: nat)
    ensures k <= |s| && (k < |s| ==> s[k] == ' ') && Free(s[..k], ' ')
  {
    if |s| == 0 || s[0] == ' ' then 0 else 1 + FirstSpace(s[1..])
  }

  /** A reader for `SHOW MEASUREMENTS` statements: the operator and the
      value, or no operator. */
  function ParseCondition(s: string): Option<(Option<ComparisonOperator>, string)>
  {
    var head := "SHOW MEASUREMENTS";
    var with := " WITH MEASUREMENT ";
    if s == head then Some((None, ""))
    else if |s| < |head + with| || s[..|head + with|] != head + with then None
    else
      var rest := s[|head + with|..];
      var k := FirstSpace(rest);
      if k == |rest| then None
      else match OperatorOf(rest[..k])
        case None => None
        case Some(op) => Some((Some(op), rest[k + 1..]))
  }

  /** The first space after a word that holds none is right after it. */
  lemma {:induction false} FirstSpaceAfter(word: string, tail: string)
    requires Free(word, ' ')
    ensures FirstSpace(word + " " + tail) == |word|
    decreases |word|
  {
    if |word| > 0 {
      FirstSpaceAfter(word[1..], tail);
      assert (word + " " + tail)[1..] == word[1..] + " " + tail;
    }
  }

  /** The statement reads back as its operator and value; without an
      operator nothing of the value is written. */
  lemma ConditionRoundTrip(c: MeasurementCondition)
    ensures ParseCondition(ConditionText(c))
            == Some(if c.operator.Some? then (c.operator, c.value) else (None, ""))
  {
    if c.operator.Some? {
      var head := "SHOW MEASUREMENTS";
      var with := " WITH MEASUREMENT ";
      var v := c.operator.value.Value();
      var s := ConditionText(c);
      assert s == (head + with) + (v + " " + c.value);
      assert s[..|head + with|] == head + with;
      assert s[|head + with|..] == v + " " + c.value;
      FirstSpaceAfter(v, c.value);
      assert (v + " " + c.value)[..|v|] == v;
      assert (v + " " + c.value)[|v| + 1..] == c.value;
    }
  }

  // -----------------------------------------------------------------------
  // Lemmas about the CREATE MEASUREMENT statement

  /** The tags and fields part is one list: the tag items, then the field
      items, joined by commas. */
  lemma TagsFieldsJoined(m: Measurement)
    ensures TagsFieldsText(m)
            == "CREATE MEASUREMENT " + m.measurement + " (" + Join(",", TagItems(m.tags) + FieldItems(m.fields)) + ")"
  {
    JoinConcat(",", TagItems(m.tags), FieldItems(m.fields));
  }

  /** With an index type set, the engine, shard, primary-key and sort-key
      options do not change the statement. */
  lemma IndexIgnoresOptions(m: Measurement, n: Measurement)
    requires m.indexType.Some?
    requires n == m.(shardType := n.shardType, shardKeys := n.shardKeys, engineType := n.engineType,
                     primaryKeys := n.primaryKeys, sortKeys := n.sortKeys)
    ensures Statement(n) == Statement(m)
  {
  }

  /** Without an index type or options the statement is the tags and
      fields part alone. */
  lemma BareStatement(m: Measurement)
    requires m.indexType.None? && m.engineType.None? && m.shardType.None?
    requires |m.shardKeys| == 0 && |m.primaryKeys| == 0 && |m.sortKeys| == 0
    ensures Statement(m) == TagsFieldsText(m)
  {
  }
}
