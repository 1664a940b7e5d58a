/**
 * The line-protocol side of opengemini_client/models.py: the backslash
 * escaping of `chars_to_escape`, the text `Point.to_string` builds from a
 * point, the unit letters of `Precision.epoch`, and the error lookup of
 * `QueryResult._has_error`.
 *
 * The `io.StringIO` writer is modelled as the text written so far: every
 * `write_*` method takes it and returns it extended. Each method is proved
 * against a function of its inputs, and the lemmas relate those functions
 * to an unescaping reader and to each other.
 */
module Models {
  import opened Wire

  // -----------------------------------------------------------------------
  // Precision

  datatype Precision =
    | PrecisionNanoSecond
    | PrecisionMicrosecond
    | PrecisionMillisecond
    | PrecisionSecond
    | PrecisionMinute
    | PrecisionHour

  /** `Precision.epoch`: the unit of the `epoch` query parameter. The
      source's fallback `''` cannot be reached by a member of the enum. */
  function Epoch(p: Precision): string
  {
    match p
    case PrecisionNanoSecond => "ns"
    case PrecisionMicrosecond => "u"
    case PrecisionMillisecond => "ms"
    case PrecisionSecond => "s"
    case PrecisionMinute => "m"
    case PrecisionHour => "h"
  }

  /** Every precision has its own non-empty unit, so the unit names the
      precision. */
  lemma EpochNamesPrecision(p: Precision, q: Precision)
    ensures 1 <= |Epoch(p)| <= 2
    ensures Epoch(p) == Epoch(q) <==> p == q
  {
  }

  // -----------------------------------------------------------------------
  // chars_to_escape

  /** Whether `chars_to_escape` writes a backslash before `s[i]`: the
      character is one of `esc`, or it is a backslash followed by a
      backslash or by one of `esc`. */
  predicate NeedsEscape(s: string, i: nat, esc: string)
    requires i < |s|
  {
    s[i] in esc || (s[i] == '\\' && i < |s| - 1 && (s[i + 1] == '\\' || s[i + 1] in esc))
  }

  /** What `chars_to_escape` writes for `s[i..]`. */
  function EscapeFrom(s: string, i: nat, esc: string): string
    requires i <= |s|
    decreases |s| - i
  {
    if i == |s| then ""
    else (if NeedsEscape(s, i, esc) then ['\\', s[i]] else [s[i]]) + EscapeFrom(s, i + 1, esc)
  }

  /** What `chars_to_escape` writes for `s`. */
  function Escape(s: string, esc: string): string
  {
    EscapeFrom(s, 0, esc)
  }

  /** `chars_to_escape(writer, s, escape_str)`. */
  method CharsToEscape(w: string, s: string, esc: string) returns (out: string)
    ensures out == w + Escape(s, esc)
  {
    out := w;
    for i := 0 to |s|
      invariant out + EscapeFrom(s, i, esc) == w + Escape(s, esc)
    {
      var needEscape := s[i] in esc;
      var needCheckNextChar := s[i] == '\\' && i < |s| - 1;
      if !needEscape && needCheckNextChar {
        var nextChar := s[i + 1];
        needEscape := nextChar == '\\' || nextChar in esc;
      }
      ghost var before := out;
      if needEscape {
        out := out + "\\";
      }
      out := out + [s[i]];
      ghost var piece := if NeedsEscape(s, i, esc) then ['\\', s[i]] else [s[i]];
      assert out == before + piece;
      ConcatAssoc(before, piece, EscapeFrom(s, i + 1, esc));
    }
  }

  /** A reader for the escaped text: a backslash followed by a backslash or
      by one of `esc` stands for the character after it; every other
      character stands for itself. */
  function Unescape(t: string, esc: string): string
    decreases |t|
  {
    if |t| == 0 then ""
    else if |t| >= 2 && t[0] == '\\' && (t[1] == '\\' || t[1] in esc) then [t[1]] + Unescape(t[2..], esc)
    else [t[0]] + Unescape(t[1..], esc)
  }

  lemma {:induction false} UnescapeFrom(s: string, i: nat, esc: string)
    requires i <= |s|
    ensures Unescape(EscapeFrom(s, i, esc), esc) == s[i..]
    decreases |s| - i
  {
    if i < |s| {
      var rest := EscapeFrom(s, i + 1, esc);
      UnescapeFrom(s, i + 1, esc);
      assert s[i..] == [s[i]] + s[i + 1..];
      if NeedsEscape(s, i, esc) {
        var t := ['\\', s[i]] + rest;
        assert t[2..] == rest;
      } else {
        var t := [s[i]] + rest;
        assert t[1..] == rest;
        if s[i] == '\\' && i < |s| - 1 {
          // The backslash was left alone, so the character after it is
          // neither a backslash nor one of `esc`, and it is written as is.
          assert !NeedsEscape(s, i + 1, esc);
          assert t[1] == s[i + 1];
        }
      }
    }
  }

  /** Escaping loses nothing: the reader recovers the original text. */
  lemma EscapeRoundTrip(s: string, esc: string)
    ensures Unescape(Escape(s, esc), esc) == s
  {
    UnescapeFrom(s, 0, esc);
  }

  /** The positions of `s[i..]` that get a backslash. */
  function EscapedFrom(s: string, i: nat, esc: string): set<nat>
    requires i <= |s|
  {
    set j: nat | i <= j < |s| && NeedsEscape(s, j, esc)
  }

  lemma {:induction false} EscapeFromLength(s: string, i: nat, esc: string)
    requires i <= |s|
    ensures |EscapeFrom(s, i, esc)| == |s| - i + |EscapedFrom(s, i, esc)|
    decreases |s| - i
  {
    if i < |s| {
      EscapeFromLength(s, i + 1, esc);
      if NeedsEscape(s, i, esc) {
        assert EscapedFrom(s, i, esc) == EscapedFrom(s, i + 1, esc) + {i};
      } else {
        assert EscapedFrom(s, i, esc) == EscapedFrom(s, i + 1, esc);
      }
    } else {
      assert EscapedFrom(s, i, esc) == {};
    }
  }

  /** The output is the input plus one backslash per escaped position;
      a backslash at the very end is never escaped unless it is one of
      `esc`. */
  lemma EscapeLength(s: string, esc: string)
    ensures |Escape(s, esc)| == |s| + |EscapedFrom(s, 0, esc)|
    ensures |s| > 0 && s[|s| - 1] == '\\' && '\\' !in esc ==> |s| - 1 !in EscapedFrom(s, 0, esc)
  {
    EscapeFromLength(s, 0, esc);
  }

  // -----------------------------------------------------------------------
  // Integers as text

  function DigitChar(d: nat): char
    requires d < 10
  {
    "0123456789"[d]
  }

  /** `str(n)` for a natural number. */
  function Digits(n: nat): string
    decreases n
  {
    if n < 10 then [DigitChar(n)] else Digits(n / 10) + [DigitChar(n % 10)]
  }

  /** `str(n)`, with a minus sign for a negative number. */
  function IntText(n: int): string
  {
    if n < 0 then "-" + Digits(-n) else Digits(n)
  }

  predicate IsDigit(c: char) { '0' <= c <= '9' }

  predicate AllDigits(s: string) { forall i :: 0 <= i < |s| ==> IsDigit(s[i]) }

  /** The value of a run of decimal digits. */
  function DigitsValue(s: string): nat
    requires AllDigits(s)
  {
    if s == [] then 0
    else DigitsValue(s[..|s| - 1]) * 10 + DigitValue(s[|s| - 1])
  }

  function DigitValue(c: char): nat
    requires IsDigit(c)
  {
    c as int - '0' as int
  }

  /** A reader for what `IntText` writes. */
  function ParseInt(s: string): Option<int>
  {
    if |s| > 0 && s[0] == '-' then
      if |s| > 1 && AllDigits(s[1..]) then Some(0 - DigitsValue(s[1..])) else None
    else if |s| > 0 && AllDigits(s) then Some(DigitsValue(s))
    else None
  }

  /** A digit character reads back as its digit. */
  lemma DigitCharValue(d: nat)
    requires d < 10
    ensures IsDigit(DigitChar(d)) && DigitValue(DigitChar(d)) == d
  {
    assert "0123456789"[d] as int - '0' as int == d;
  }

  lemma {:induction false} DigitsRoundTrip(n: nat)
    ensures |Digits(n)| > 0 && AllDigits(Digits(n))
    ensures DigitsValue(Digits(n)) == n
    decreases n
  {
    if n < 10 {
      DigitCharValue(n);
      assert Digits(n)[..0] == [];
    } else {
      var q, r := n / 10, n % 10;
      DigitsRoundTrip(q);
      DigitCharValue(r);
      var s := Digits(n);
      assert s == Digits(q) + [DigitChar(r)];
      assert s[..|s| - 1] == Digits(q);
      assert DigitsValue(s) == n by {
        assert DigitsValue(s) == DigitsValue(Digits(q)) * 10 + DigitValue(DigitChar(r));
      }
    }
  }

  /** Integers are written so that they can be read back. */
  lemma IntTextRoundTrip(n: int)
    ensures ParseInt(IntText(n)) == Some(n)
  {
    if n < 0 {
      var d := Digits(-n);
      DigitsRoundTrip(-n);
      var s := "-" + d;
      assert s[1..] == d;
      assert ParseInt(s) == Some(0 - DigitsValue(d));
    } else {
      var d := Digits(n);
      DigitsRoundTrip(n);
      assert IsDigit(d[0]);
      assert ParseInt(d) == Some(DigitsValue(d));
    }
  }

  // -----------------------------------------------------------------------
  // Point.to_string

  /** A field value of a point: a Python `int`, `float`, `bool` or `str`,
      or any other object a caller might put in the dictionary. */
  datatype FieldValue =
    | IntValue(i: int)
    | FloatValue(f: Float64)
    | BoolValue(b: bool)
    | StrValue(s: string)
    | OtherValue

  /** A point. The dictionaries are lists of pairs in insertion order; the
      timestamp is the integer the point's datetime stands for at its
      precision. `generate_timestamp()` yields that integer for every
      precision but nanoseconds, where it yields a float (see
      `Transform.StampValue`). */
  datatype Point = Point(
    measurement: string,
    precision: Precision,
    fields: seq<(string, FieldValue)>,
    tags: seq<(string, string)>,
    timestamp: Option<int>)

  const MeasurementEscapes: string := ", "
  const KeyEscapes: string := ", ="
  const StringValueEscapes: string := "\""

  /** What `write_tags` writes for one tag. */
  function TagText(tag: (string, string)): string
  {
    "," + Escape(tag.0, KeyEscapes) + "=" + Escape(tag.1, KeyEscapes)
  }

  /** What `write_tags` writes for a list of tags, in list order. */
  function TagsText(tags: seq<(string, string)>): string
  {
    if |tags| == 0 then "" else TagsText(tags[..|tags| - 1]) + TagText(tags[|tags| - 1])
  }

  /** `str(v)` of a Python `int` or `bool` (a `bool` is an `int`). */
  function PyIntText(v: FieldValue): string
    requires v.IntValue? || v.BoolValue?
  {
    if v.IntValue? then IntText(v.i) else if v.b then "True" else "False"
  }

  /** What `write_fields` writes for one value: the `int` branch comes
      first and takes the booleans too; any other object writes nothing. */
  function ValueText(v: FieldValue, formatFloat: Float64 -> string): string
  {
    match v
    case IntValue(_) => PyIntText(v) + "i"
    case BoolValue(_) => PyIntText(v) + "i"
    case StrValue(s) => "\"" + Escape(s, StringValueEscapes) + "\""
    case FloatValue(f) => formatFloat(f)
    case OtherValue => ""
  }

  /** What `write_fields` writes for the first `n` fields: a space before
      the first, a comma before every other. */
  function FieldsText(fields: seq<(string, FieldValue)>, n: nat, formatFloat: Float64 -> string): string
    requires n <= |fields|
  {
    if n == 0 then ""
    else FieldsText(fields, n - 1, formatFloat) + ((if n == 1 then " " else ",") + FieldText(fields[n - 1], formatFloat))
  }

  /** What `write_fields` writes for one field after its separator. */
  function FieldText(field: (string, FieldValue), formatFloat: Float64 -> string): string
  {
    Escape(field.0, KeyEscapes) + "=" + ValueText(field.1, formatFloat)
  }

  function TimestampText(t: Option<int>): string
  {
    if t.None? then "" else " " + IntText(t.value)
  }

  /** The line `Point.to_string` returns. */
  function Line(p: Point, formatFloat: Float64 -> string): string
  {
    if |p.measurement| == 0 || |p.fields| == 0 then ""
    else Escape(p.measurement, MeasurementEscapes) + TagsText(p.tags)
         + FieldsText(p.fields, |p.fields|, formatFloat) + TimestampText(p.timestamp)
  }

  /** `Point.to_string`; the text of a float is whatever `formatFloat`
      gives for it. */
  method ToString(p: Point, formatFloat: Float64 -> string) returns (line: string)
    ensures line == Line(p, formatFloat)
  {
    if |p.measurement| == 0 || |p.fields| == 0 {
      return "";
    }
    var m := WriteMeasurement("", p.measurement);
    var t := WriteTags(m, p.tags);
    var f := WriteFields(t, p.fields, formatFloat);
    line := WriteTimestamp(f, p.timestamp);
    assert m == Escape(p.measurement, MeasurementEscapes);
    assert line == m + TagsText(p.tags) + FieldsText(p.fields, |p.fields|, formatFloat) + TimestampText(p.timestamp);
  }

  method WriteMeasurement(w: string, measurement: string) returns (out: string)
    ensures out == w + Escape(measurement, MeasurementEscapes)
  {
    out := CharsToEscape(w, measurement, MeasurementEscapes);
  }

  method WriteTags(w: string, tags: seq<(string, string)>) returns (out: string)
    ensures out == w + TagsText(tags)
  {
    out := w;
    for i := 0 to |tags|
      invariant out == w + TagsText(tags[..i])
    {
      ghost var before := out;
      var (k, v) := tags[i];
      out := out + ",";
      out := CharsToEscape(out, k, KeyEscapes);
      out := out + "=";
      out := CharsToEscape(out, v, KeyEscapes);
      assert out == before + TagText(tags[i]);
      assert tags[..i + 1][..i] == tags[..i];
      ConcatAssoc(w, TagsText(tags[..i]), TagText(tags[i]));
    }
    assert tags[..|tags|] == tags;
  }

  method WriteFields(w: string, fields: seq<(string, FieldValue)>, formatFloat: Float64 -> string) returns (out: string)
    ensures out == w + FieldsText(fields, |fields|, formatFloat)
  {
    out := w;
    var sep := " ";
    for i := 0 to |fields|
      invariant out == w + FieldsText(fields, i, formatFloat)
      invariant sep == if i == 0 then " " else ","
    {
      ghost var before := out;
      out := WriteField(out, sep, fields[i], formatFloat);
      sep := ",";
      ConcatAssoc(w, FieldsText(fields, i, formatFloat), (if i == 0 then " " else ",") + FieldText(fields[i], formatFloat));
    }
  }

  /** One turn of the loop of `write_fields`. */
  method WriteField(w: string, sep: string, field: (string, FieldValue), formatFloat: Float64 -> string)
    returns (out: string)
    ensures out == w + (sep + FieldText(field, formatFloat))
  {
    var (k, v) := field;
    out := w + sep;
    out := CharsToEscape(out, k, KeyEscapes);
    out := out + "=";
    out := WriteValue(out, v, formatFloat);
  }

  /** The value branch of `write_fields`. */
  method WriteValue(w: string, v: FieldValue, formatFloat: Float64 -> string) returns (out: string)
    ensures out == w + ValueText(v, formatFloat)
  {
    out := w;
    if v.IntValue? || v.BoolValue? {
      out := out + PyIntText(v) + "i";
    } else if v.StrValue? {
      out := out + "\"";
      out := CharsToEscape(out, v.s, StringValueEscapes);
      out := out + "\"";
    } else if v.FloatValue? {
      out := out + formatFloat(v.f);
    }
  }

  method WriteTimestamp(w: string, t: Option<int>) returns (out: string)
    ensures out == w + TimestampText(t)
  {
    if t.None? {
      return w;
    }
    out := w + " " + IntText(t.value);
  }

  /** A point yields no line exactly when it has no measurement or no
      field. */
  lemma LineEmpty(p: Point, formatFloat: Float64 -> string)
    ensures Line(p, formatFloat) == "" <==> |p.measurement| == 0 || |p.fields| == 0
  {
    if |p.measurement| > 0 && |p.fields| > 0 {
      FieldsTextStart(p.fields, |p.fields|, formatFloat);
    }
  }

  lemma {:induction false} FieldsTextStart(fields: seq<(string, FieldValue)>, n: nat, formatFloat: Float64 -> string)
    requires 0 < n <= |fields|
    ensures |FieldsText(fields, n, formatFloat)| > 0 && FieldsText(fields, n, formatFloat)[0] == ' '
  {
    if n > 1 {
      FieldsTextStart(fields, n - 1, formatFloat);
    }
  }

  /** A line begins with the escaped measurement, and unescaping that
      prefix gives the measurement back. */
  lemma LineMeasurement(p: Point, formatFloat: Float64 -> string)
    requires Line(p, formatFloat) != ""
    ensures var m := Escape(p.measurement, MeasurementEscapes);
            var line := Line(p, formatFloat);
            |m| <= |line| && line[..|m|] == m && Unescape(line[..|m|], MeasurementEscapes) == p.measurement
  {
    EscapeRoundTrip(p.measurement, MeasurementEscapes);
  }

  /** A timestamp only appends ` <ts>` to the line of the same point
      without one. */
  lemma LineTimestamp(p: Point, t: int, formatFloat: Float64 -> string)
    ensures Line(p.(timestamp := Some(t)), formatFloat)
         == if Line(p, formatFloat) == "" then "" else Line(p.(timestamp := None), formatFloat) + " " + IntText(t)
  {
  }

  /** Adding a tag inserts its `,k=v` between the existing tags and the
      fields. */
  lemma LineAddTag(p: Point, k: string, v: string, formatFloat: Float64 -> string)
    requires Line(p, formatFloat) != ""
    ensures var head := Escape(p.measurement, MeasurementEscapes) + TagsText(p.tags);
            var line := Line(p, formatFloat);
            |head| <= |line| && line[..|head|] == head
            && Line(p.(tags := p.tags + [(k, v)]), formatFloat) == head + TagText((k, v)) + line[|head|..]
  {
    var n := |p.tags|;
    var m := Escape(p.measurement, MeasurementEscapes);
    var tags := TagsText(p.tags);
    var fields := FieldsText(p.fields, |p.fields|, formatFloat);
    var stamp := TimestampText(p.timestamp);
    var added := TagText((k, v));
    assert (p.tags + [(k, v)])[..n] == p.tags;
    assert TagsText(p.tags + [(k, v)]) == tags + added;
    var line := m + tags + fields + stamp;
    assert Line(p, formatFloat) == line;
    Regroup(m, tags, fields, stamp);
    PrefixOfConcat(m + tags, fields + stamp);
    assert line[|m + tags|..] == fields + stamp;
    InsertAt(m, tags, added, fields, stamp);
  }

  // -----------------------------------------------------------------------
  // QueryResult._has_error

  /** One statement's result; only its error matters here. */
  datatype SeriesResult = SeriesResult(error: Option<string>)

  datatype QueryResult = QueryResult(results: seq<SeriesResult>, error: Option<string>)

  /** `QueryResult._has_error`: the top-level error, else the first
      statement error, else the empty string. */
  method HasError(q: QueryResult) returns (e: string)
    ensures q.error.Some? ==> e == q.error.value
    ensures q.error.None? && (forall i :: 0 <= i < |q.results| ==> q.results[i].error.None?) ==> e == ""
    ensures q.error.None? ==>
              forall i :: (0 <= i < |q.results| && q.results[i].error.Some?
                           && (forall j :: 0 <= j < i ==> q.results[j].error.None?)) ==> e == q.results[i].error.value
  {
    if q.error.Some? {
      return q.error.value;
    }
    for k := 0 to |q.results|
      invariant forall j :: 0 <= j < k ==> q.results[j].error.None?
    {
      if q.results[k].error.Some? {
        return q.results[k].error.value;
      }
    }
    return "";
  }
}
