# opengemini-client-python: record codec, point transform, line protocol and validators

This project is a Dafny model of the parts of the openGemini Python client
that do bounded byte and string work:

- **The columnar record codec** used by the gRPC write path. It covers:
  - the primitive encoder and decoder: big-endian integers, a zig-zag
    folded int64, length-prefixed strings and blobs, and a uint32 list whose
    elements are little-endian;
  - `ColVal`: a value buffer, a validity bitmap, a string offset table, and
    the `Len`/`NilCount` counters;
  - `Field` and `Record` with their size-prefixed `marshal`/`unmarshal`.
- **`RecordTransform`**: the object that turns points into one record. It
  keeps one column per tag, field and `time`, back-fills nulls so that all
  columns have the same length, and orders the columns as fields, then tags,
  then `time`.
- **Line-protocol text**: `chars_to_escape`, `Point.to_string` and its
  writers, `Precision.epoch` and `QueryResult._has_error`.
- **Validators and DDL text**:
  - `Measurement.check`/`to_string` and `MeasurementCondition`;
  - `check_config`, the configuration check and defaulting of the client.

How the model is built:

- **Bytes** are integers 0..255. Bitmap bytes are groups of eight bits,
  least significant first.
- **Strings** are sequences of Unicode scalar values, with a full UTF-8
  encoder and a strict decoder. This makes the character-count length
  prefixes of `append_string` and `size_of_string` visible.
- **Imperative parts** of the source are classes whose methods update fields
  in place: the decoder's `offset`, `ColVal`, `Field`, `Record`,
  `RecordTransform` and `Config`. Each method is proved against a function of
  the old state, and the lemmas about those functions state the round trips,
  sizes and invariants.
- **Text writers** over `io.StringIO` are methods that take the text written
  so far and return it extended.
- **Python exceptions** are `Err`/`Some` results. A method that raises
  half-way leaves the state the source leaves.

Source behaviours the model keeps as written:

- **A null at a byte boundary wipes the bitmap.** When a null needs a new
  bitmap byte, `_reset_bitmap` replaces the whole bitmap with `0x00`. See
  `NullAtRowEightWipesBitmap`.
- **Round trips of string-bearing values need ASCII names.** The string
  length prefix counts characters rather than bytes.
- **`bool` field values become integer columns** and are written as
  `Truei`/`Falsei`. The `int` test comes first in both places.
- **`min_time`/`max_time` start at 0.** They are therefore the minimum and
  maximum of 0 and all the timestamps.
- **The int64 decoder** raises an overflow for words ≥ 2^63. So the int64
  round trip is exact only on [-2^62, 2^62).

## Model

| member | source | states |
|---|---|---|
| BinaryEncoder.ZigZag | opengemini_client/codec/binary_encoder.py:21-22 | the folded int64 is a word below 2^64 |
| BinaryEncoder.ZigZagFolds | opengemini_client/codec/binary_encoder.py:21-22 | `(v<<1) ^ (v>>63)` mod 2^64 is 2v for v ≥ 0 and -2v-1 for v < 0 |
| BinaryEncoder.AppendInt64 | opengemini_client/codec/binary_encoder.py:20-25 | appends exactly `size_of_int64()` = 8 bytes and keeps the input as a prefix |
| BinaryEncoder.AppendInt64Examples | opengemini_client/codec/binary_encoder.py:20-25 | 0, -1, 1 and -2 encode as the words 00…00, 00…01, 00…02 and 00…03, most significant byte first |
| BinaryEncoder.AppendUint16 | opengemini_client/codec/binary_encoder.py:28-31 | appends `size_of_uint16()` = 2 bytes after an unchanged prefix |
| BinaryEncoder.AppendUint32 | opengemini_client/codec/binary_encoder.py:34-37 | appends `size_of_uint32()` = 4 bytes after an unchanged prefix |
| BinaryEncoder.AppendString | opengemini_client/codec/binary_encoder.py:40-42 | appends at least `size_of_string(v)` bytes, and exactly that many iff v is ASCII |
| BinaryEncoder.AppendBytes | opengemini_client/codec/binary_encoder.py:45-47 | appends exactly `size_of_bytes(v)` bytes; an empty blob gives four zero bytes |
| BinaryEncoder.PackUint32sLE | opengemini_client/codec/binary_encoder.py:54 | `struct.pack('<I…')` gives four bytes per element |
| BinaryEncoder.AppendUint32List | opengemini_client/codec/binary_encoder.py:50-55 | appends exactly `size_of_uint32_list(v)` bytes after an unchanged prefix |
| BinaryEncoder.AppendInt64Shift | opengemini_client/codec/binary_encoder.py:25 | the encoding does not depend on the bytes already in the buffer |
| BinaryEncoder.AppendStringShift | opengemini_client/codec/binary_encoder.py:40-42 | the string encoding does not depend on the bytes already in the buffer |
| BinaryEncoder.AppendUint32ListShift | opengemini_client/codec/binary_encoder.py:50-55 | the list encoding does not depend on the bytes already in the buffer |
| BinaryDecoder.UnpackUint32sLE | opengemini_client/codec/binary_decoder.py:65 | `struct.unpack('<I…')` gives one element per four bytes |
| BinaryDecoder.Decoder.constructor | opengemini_client/codec/binary_decoder.py:22-25 | a decoder over `buf` at `offset` |
| BinaryDecoder.Decoder.Int64 | opengemini_client/codec/binary_decoder.py:27-32 | returns the int64 read at the old offset and advances past it; the error cases are a short buffer and a word ≥ 2^63 |
| BinaryDecoder.Decoder.Uint16 | opengemini_client/codec/binary_decoder.py:34-38 | returns the big-endian uint16 at the old offset and advances by 2, or fails on a short buffer |
| BinaryDecoder.Decoder.Uint32 | opengemini_client/codec/binary_decoder.py:40-44 | returns the big-endian uint32 at the old offset and advances by 4, or fails on a short buffer |
| BinaryDecoder.Decoder.String | opengemini_client/codec/binary_decoder.py:46-50 | reads the length and the clamped slice, decodes it as strict UTF-8 and advances by 2 + length |
| BinaryDecoder.Decoder.Bytes | opengemini_client/codec/binary_decoder.py:52-58 | length 0 gives an empty blob after only the 4-byte length; otherwise it gives the clamped slice and advances by 4 + length |
| BinaryDecoder.Decoder.Uint32List | opengemini_client/codec/binary_decoder.py:60-67 | count 0 gives []; otherwise 4·count little-endian bytes; a short slice is a `struct.error` |
| BinaryDecoder.ZigZagRoundTrip | opengemini_client/codec/binary_decoder.py:30 | the folded word is below 2^63 iff -2^62 ≤ v < 2^62, and then `(u>>1) ^ -(u&1)` gives v back |
| BinaryDecoder.Int64RoundTrip | opengemini_client/codec/binary_decoder.py:27-32 | reading what `append_int64` wrote gives v and the offset after 8 bytes inside [-2^62, 2^62), and the overflow error outside it |
| BinaryDecoder.Uint16RoundTrip | opengemini_client/codec/binary_decoder.py:34-38 | `uint16()` inverts `append_uint16` and advances by 2, whatever follows |
| BinaryDecoder.Uint32RoundTrip | opengemini_client/codec/binary_decoder.py:40-44 | `uint32()` inverts `append_uint32` and advances by 4, whatever follows |
| BinaryDecoder.StringRoundTrip | opengemini_client/codec/binary_decoder.py:46-50 | for an ASCII string, `string()` inverts `append_string` and advances by `size_of_string` |
| BinaryDecoder.StringRoundTripFailsBeyondAscii | opengemini_client/codec/binary_decoder.py:47-48 | "é" is written with the prefix 1 but two UTF-8 bytes, so reading it back is a UnicodeDecodeError |
| BinaryDecoder.BytesRoundTrip | opengemini_client/codec/binary_decoder.py:52-58 | `bytes()` inverts `append_bytes` and advances by `size_of_bytes`, the empty blob included |
| BinaryDecoder.UnpackPack | opengemini_client/codec/binary_decoder.py:65 | unpacking the little-endian words gives the packed uint32 list back |
| BinaryDecoder.Uint32ListRoundTrip | opengemini_client/codec/binary_decoder.py:60-67 | `uint32_list()` inverts `append_uint32_list` and advances by `size_of_uint32_list` |
| Fields.Encode | opengemini_client/record/field.py:35-38 | `marshal` appends the name and then the type, at least `codec_size()` bytes and exactly that many iff the name is ASCII |
| Fields.Field.constructor | opengemini_client/record/field.py:30-33 | a Field with the given type and name |
| Fields.Field.Unmarshal | opengemini_client/record/field.py:40-45 | the new Name/Type and the error match `UnmarshalInto`: an empty buffer changes nothing, and the name is kept when reading the type fails |
| Fields.CodecSizeIsMarshalLength | opengemini_client/record/field.py:47-51 | `codec_size()` is len(Name) + 10, and it is the marshal length iff the name is ASCII |
| Fields.EncodeAppends | opengemini_client/record/field.py:35-38 | `marshal(buf)` is buf followed by `marshal(b'')` |
| Fields.RoundTrip | opengemini_client/record/field.py:35-45 | unmarshalling a marshalled Field with an ASCII name restores Name and Type, whatever the Field held before |
| ColVals.ApplyAll | opengemini_client/record/colval.py:53-110 | a sequence of appends adds one to `Len` per call, adds one to `NilCount` per null call, and keeps `BitmapOffset` |
| ColVals.Repeat | opengemini_client/record/colval.py:66-68 | `range(count)` repeats a call `count` times, and no times when count ≤ 0 |
| ColVals.ApplyAllConcat | opengemini_client/record/colval.py:66-68 | appending two runs of calls is appending the first run and then the second |
| ColVals.ColVal.constructor | opengemini_client/record/colval.py:26-33 | an empty ColVal with no appends |
| ColVals.ColVal.SetBitmap | opengemini_client/record/colval.py:35-42 | when past the end, appends the byte 0x01; otherwise ORs in the row's bit mask |
| ColVals.ColVal.ResetBitmap | opengemini_client/record/colval.py:44-51 | when past the end, REPLACES the bitmap with the single byte 0x00; otherwise ANDs in the flipped mask |
| ColVals.ColVal.AppendNull | opengemini_client/record/colval.py:53-56 | clears the row's bit and adds one to both `Len` and `NilCount`; `Val` and `Offset` are untouched |
| ColVals.ColVal.AppendInteger | opengemini_client/record/colval.py:58-61 | the new state is one integer append of the old one: 8 little-endian bytes, the bit set, `Len` + 1 |
| ColVals.ColVal.AppendIntegerNull | opengemini_client/record/colval.py:63-64 | the new state is one integer null append of the old one |
| ColVals.ColVal.AppendIntegerNulls | opengemini_client/record/colval.py:66-68 | the loop equals `count` single null appends, and none for count ≤ 0 |
| ColVals.ColVal.AppendBoolean | opengemini_client/record/colval.py:70-76 | one byte, 1 or 0, then the bit set and `Len` + 1 |
| ColVals.ColVal.AppendBooleanNull | opengemini_client/record/colval.py:78-79 | the new state is one boolean null append of the old one |
| ColVals.ColVal.AppendBooleanNulls | opengemini_client/record/colval.py:81-83 | the loop equals `count` single null appends, and none for count ≤ 0 |
| ColVals.ColVal.AppendFloat | opengemini_client/record/colval.py:85-88 | the 8 packed bytes, then the bit set and `Len` + 1 |
| ColVals.ColVal.AppendFloatNull | opengemini_client/record/colval.py:90-91 | the new state is one float null append of the old one |
| ColVals.ColVal.AppendFloatNulls | opengemini_client/record/colval.py:93-95 | the loop equals `count` single null appends, and none for count ≤ 0 |
| ColVals.ColVal.AppendString | opengemini_client/record/colval.py:97-102 | the new state is one string append of the old one: the old `len(Val)` pushed onto `Offset`, the UTF-8 bytes appended, the bit set, `Len` + 1 |
| ColVals.ColVal.AppendStringNull | opengemini_client/record/colval.py:104-106 | pushes `len(Val)` onto `Offset`, then appends a null |
| ColVals.ColVal.AppendStringNulls | opengemini_client/record/colval.py:108-110 | the loop equals `count` single string null appends, and none for count ≤ 0 |
| ColVals.ColVal.Unmarshal | opengemini_client/record/colval.py:121-130 | the new fields and the error match `UnmarshalInto`: an empty buffer changes nothing, and fields are assigned as they are read |
| ColVals.Encode | opengemini_client/record/colval.py:112-119 | `marshal` appends exactly `codec_size()` = 36 + len(Val) + len(Bitmap) + 4·len(Offset) bytes |
| ColVals.EncodeAppends | opengemini_client/record/colval.py:112-119 | `marshal(buf)` is buf followed by `marshal(b'')` |
| ColVals.RoundTrip | opengemini_client/record/colval.py:112-130 | unmarshalling a marshalled ColVal restores Len, NilCount, BitmapOffset, Val, Bitmap and Offset, whatever the ColVal held before |
| ColVals.EncodedReads | opengemini_client/record/colval.py:113-118 | the marshalled fields are read back one after another in the order written |
| ColVals.NullCountBound | opengemini_client/record/colval.py:53-56 | the number of null appends is at most the number of appends |
| ColVals.Counters | opengemini_client/record/colval.py:53-110 | from a fresh ColVal, `Len` is the number of appends, `NilCount` the number of nulls, and `NilCount ≤ Len` |
| ColVals.ValIsConcat | opengemini_client/record/colval.py:58-102 | `Val` is the values' bytes in append order, with nothing for nulls |
| ColVals.StringOffsets | opengemini_client/record/colval.py:97-106 | a string column has one offset per row, equal to the length of `Val` before that row, so the offsets never decrease |
| ColVals.StringRow | opengemini_client/record/colval.py:97-106 | between two consecutive offsets lies exactly the UTF-8 of that row's string, or nothing for a null |
| ColVals.MasksSelectBits | opengemini_client/record/colval.py:22-23 | `_BitMask[j]` is bit j and `_FlippedBitMask[j]` its complement; OR sets that bit and AND clears it |
| ColVals.SetBitSpec | opengemini_client/record/colval.py:39-42 | the in-range set changes only the bit of the row |
| ColVals.ClearBitSpec | opengemini_client/record/colval.py:48-51 | the in-range clear changes only the bit of the row |
| ColVals.BitmapStep | opengemini_client/record/colval.py:35-56 | an append that is not a null at a positive multiple of 8 grows the bitmap to (n+8)/8 bytes, gives row n the bit "is a value", and keeps the earlier bits |
| ColVals.BitmapTracksRows | opengemini_client/record/colval.py:35-56 | with no null at a positive multiple of 8, the bitmap has (Len+7)/8 bytes and bit i is set iff row i is a value |
| ColVals.NullAtRowEightWipesBitmap | opengemini_client/record/colval.py:44-47 | eight integers and then a null leave the bitmap 0x00, so row 0 reads as a null although it holds a value |
| Records.Descs | opengemini_client/record/record.py:29-30 | the Field list as values, element by element |
| Records.Datas | opengemini_client/record/record.py:29-30 | the ColVal list as values, element by element |
| Records.Record.constructor | opengemini_client/record/record.py:27-30 | a Record with empty lists |
| Records.Record.Marshal | opengemini_client/record/record.py:32-44 | the bytes are the field count, each Field framed by its `codec_size`, the column count, and each ColVal framed by its `codec_size`, in list order |
| Records.Record.MarshalFields | opengemini_client/record/record.py:35-37 | the field loop writes each framed Field in order and changes nothing |
| Records.Record.MarshalColVals | opengemini_client/record/record.py:41-43 | the column loop writes each framed ColVal in order and changes nothing |
| Records.Record.CodeSize | opengemini_client/record/record.py:65-78 | the loops add up 8 + Σ(4 + f.codec_size) + Σ(4 + c.codec_size) |
| Records.Record.FieldsCodeSize | opengemini_client/record/record.py:69-71 | the field loop adds 4 + `codec_size()` per Field |
| Records.Record.ColValsCodeSize | opengemini_client/record/record.py:75-77 | the column loop adds 4 + `codec_size()` per ColVal |
| Records.Record.Unmarshal | opengemini_client/record/record.py:46-63 | the new lists and the error match `UnmarshalInto`: an empty buffer changes nothing, decoded elements are appended to the existing lists, and an exception keeps what was appended before it |
| Records.Record.AppendFields | opengemini_client/record/record.py:56 | `self.Fields.append` adds the decoded Fields at the end |
| Records.Record.AppendColVals | opengemini_client/record/record.py:63 | `self.ColVals.append` adds the decoded ColVals at the end |
| Records.ReadFields | opengemini_client/record/record.py:53-56 | the loop decodes n Fields in order, each from a `bytes()` blob into a fresh Field, and stops at the first exception |
| Records.ReadColVals | opengemini_client/record/record.py:60-63 | the loop decodes n ColVals in order, each from a `bytes()` blob into a fresh ColVal, and stops at the first exception |
| Records.ReadField | opengemini_client/record/record.py:54-55 | one fresh Field unmarshalled from the next blob |
| Records.ReadColVal | opengemini_client/record/record.py:61-62 | one fresh ColVal unmarshalled from the next blob |
| Records.EncodeAppends | opengemini_client/record/record.py:32-44 | `marshal(buf)` is buf followed by `marshal(b'')` |
| Records.EncodeFieldsLength | opengemini_client/record/record.py:35-37 | the framed Fields take at least Σ(4 + codec_size) bytes, and exactly that many iff every name is ASCII |
| Records.EncodeColValsLength | opengemini_client/record/record.py:41-43 | the framed ColVals take exactly Σ(4 + codec_size) bytes |
| Records.CodeSizeIsMarshalLength | opengemini_client/record/record.py:65-78 | `len(marshal(buf)) - len(buf)` ≥ `code_size()`, with equality iff every field name is ASCII |
| Records.FieldFrameRead | opengemini_client/record/record.py:36-37 | a framed Field with an ASCII name reads back as itself, ending where the frame ends |
| Records.ColValFrameRead | opengemini_client/record/record.py:42-43 | a framed ColVal reads back as itself, ending where the frame ends |
| Records.DecodeEncodedFields | opengemini_client/record/record.py:35-37 | decoding the marshalled Fields gives them back in order |
| Records.DecodeEncodedColVals | opengemini_client/record/record.py:41-43 | decoding the marshalled ColVals gives them back in order |
| Records.RoundTrip | opengemini_client/record/record.py:32-63 | unmarshalling a marshalled Record appends its Fields and its ColVals, in order, to what the target held, and raises nothing |
| Records.UnmarshalKeeps | opengemini_client/record/record.py:55-56 | whatever the buffer, the old Fields and ColVals stay a prefix of the new lists |
| Transform.FieldTypeOf | opengemini_client/record_transform.py:28-39 | fails exactly for a value that is not int, float, bool or str, and never gives Boolean, because a bool passes the int test first |
| Transform.ValueCall | opengemini_client/record_transform.py:59-69 | a successful `add_value` appends one non-null value; String and Tag columns take only strings; Int columns take ints and bools; an unknown type raises |
| Transform.Column.AddNulls | opengemini_client/record_transform.py:47-57 | succeeds iff the type has a null call, and then adds max(count, 0) rows to the same field |
| Transform.Column.AddValue | opengemini_client/record_transform.py:59-69 | succeeds iff the type accepts the value, and then adds exactly one row to the same field |
| Transform.Find | opengemini_client/record_transform.py:82 | `columns.get(name)`: the index of the column with that name, or none has it |
| Transform.PutAll | opengemini_client/record_transform.py:80-104 | the tag and field loops keep every column usable and every fill flag on a column |
| Transform.PointAdded | opengemini_client/record_transform.py:135-140 | `add_point` keeps every column usable and every fill flag on a column, whatever the point |
| Transform.FilledAll | opengemini_client/record_transform.py:121-130 | the back-fill changes no descriptor, and each column is filled on its own |
| Transform.Picked | opengemini_client/record_transform.py:151-161 | a group holds only columns of that group |
| Transform.RecordTransform.constructor | opengemini_client/record_transform.py:73-78 | row count, min and max time 0, no columns, no fill flags |
| Transform.RecordTransform.PutEntry | opengemini_client/record_transform.py:82-91 | one loop turn: the existing column, or a new one with `row_count` leading nulls, gets the value; it is stored and flagged, or the state is kept on an exception |
| Transform.RecordTransform.AddTagColumns | opengemini_client/record_transform.py:80-91 | the loop puts the tag entries in order as Tag columns and stops at the first exception |
| Transform.RecordTransform.AddFieldColumns | opengemini_client/record_transform.py:93-104 | the loop puts the field entries in order, new columns typed by `get_field_type`, and stops at the first exception |
| Transform.RecordTransform.AddTimestamp | opengemini_client/record_transform.py:106-118 | appends the value `generate_timestamp` gave to the `time` column (an Int column when new, with `row_count` leading nulls) and widens `min_time`/`max_time` to take it in; an append that raises leaves the state as it was |
| Transform.StampValue | opengemini_client/models.py:212-228 | `generate_timestamp` gives the integer timestamp (0 for none) exactly when it does not take the nanosecond branch; that branch gives a float |
| Transform.FloatStampFails | opengemini_client/record_transform.py:106-140 | a nanosecond point with a timestamp makes `add_point` raise `struct.error` in `add_timestamp` whenever the time column is missing or Int: the tag and field columns stay added and flagged, `row_count` does not move |
| Transform.RecordTransform.FillColumn | opengemini_client/record_transform.py:124-130 | pads an unflagged column with `row_count - Len` nulls when that is positive |
| Transform.RecordTransform.AddMissValueColumns | opengemini_client/record_transform.py:120-133 | pads every unflagged column, then resets every flag to False |
| Transform.RecordTransform.AddPoint | opengemini_client/record_transform.py:135-140 | tags, fields, timestamp, `row_count + 1` and the back-fill, in that order, stopping at the first exception |
| Transform.RecordTransform.ConvertToRecord | opengemini_client/record_transform.py:142-164 | returns the record `Converted` gives for the current state (see `ConvertedRecord`) |
| Transform.PointAddedRows | opengemini_client/record_transform.py:80-140 | for a point with distinct names, a successful `add_point` keeps the invariant that every column has `row_count` rows and every flag is False. It adds exactly one row, and it takes the timestamp into min/max. Every column gets the point's value under its name or a null, and a new column gets `row_count` leading nulls first. Every name of the point has a column |
| Transform.InitialValid | opengemini_client/record_transform.py:73-78 | a fresh transform satisfies that invariant, with no rows and no columns |
| Transform.GroupedPermutation | opengemini_client/record_transform.py:151-163 | the record's columns are a permutation of the transform's columns |
| Transform.GroupedSorted | opengemini_client/record_transform.py:162-163 | value fields come first, then tags, then `time` |
| Transform.GroupedKeepsOrder | opengemini_client/record_transform.py:151-161 | within each group the creation order is kept |
| Transform.ConvertedRecord | opengemini_client/record_transform.py:142-164 | fails iff there are no columns, with `empty record`; otherwise Fields[i] and ColVals[i] are the field and the values of the same grouped column |
| Transform.ConvertedRows | opengemini_client/record_transform.py:142-164 | every ColVal of a converted valid transform has `row_count` rows |
| Models.EpochNamesPrecision | opengemini_client/models.py:103-118 | every precision has a one- or two-letter unit, and distinct precisions have distinct units |
| Models.CharsToEscape | opengemini_client/models.py:136-145 | the loop writes `Escape(s, esc)`: a backslash before each char in `esc`, and before a backslash that is followed by a backslash or a char in `esc` |
| Models.EscapeRoundTrip | opengemini_client/models.py:136-145 | removing the inserted backslashes gives the original text back |
| Models.EscapeLength | opengemini_client/models.py:139-145 | the output length is len(s) plus the number of escaped positions; a trailing backslash is not escaped unless `esc` holds a backslash |
| Models.IntTextRoundTrip | opengemini_client/models.py:199 | the decimal text of an int reads back as the same int |
| Models.ToString | opengemini_client/models.py:168-177 | the line is "" for an empty measurement or no fields; otherwise it is the escaped measurement, the tags, the fields and the timestamp (see the Line lemmas) |
| Models.WriteMeasurement | opengemini_client/models.py:179-180 | the measurement escaped for ", " |
| Models.WriteTags | opengemini_client/models.py:182-189 | ",k=v" per tag in order, with keys and values escaped for ", =" |
| Models.WriteFields | opengemini_client/models.py:191-210 | a space before the first field and a comma before each other |
| Models.WriteField | opengemini_client/models.py:194-197 | the separator, the escaped key and "=" before the value |
| Models.WriteValue | opengemini_client/models.py:198-210 | ints and bools as `str(v)` + "i"; strings quoted with inner quotes escaped; floats as formatted |
| Models.WriteTimestamp | opengemini_client/models.py:230-234 | " " and the timestamp only when one is set |
| Models.LineEmpty | opengemini_client/models.py:169-170 | the line is empty iff the measurement is empty or there are no fields |
| Models.LineMeasurement | opengemini_client/models.py:171-180 | a non-empty line starts with the escaped measurement, which unescapes back to the measurement |
| Models.LineTimestamp | opengemini_client/models.py:230-234 | setting a timestamp appends " <ts>" to a non-empty line and nothing else |
| Models.LineAddTag | opengemini_client/models.py:182-189 | adding a tag inserts ",k=v" after the existing tags and leaves the rest of the line as it was |
| Models.HasError | opengemini_client/models.py:269-275 | the top-level error if set, else the first per-result error, else "" |
| Measurements.Check | opengemini_client/measurement.py:86-94 | raises nothing iff the database, the measurement, one tag or field, and an index list when an index type is set are all present; otherwise it raises the first error in source order |
| Measurements.CheckCondition | opengemini_client/measurement.py:161-163 | raises iff the database is empty, and then only `empty database name` |
| Measurements.JoinSplit | opengemini_client/measurement.py:96-115 | a comma-joined list of comma-free names splits back into the list |
| Measurements.JoinConcat | opengemini_client/measurement.py:102-109 | joining two lists puts one separator between them only when both are non-empty |
| Measurements.ToString | opengemini_client/measurement.py:143-152 | the statement is the tags/fields part, followed by the index part when an index type is set and by the other options otherwise |
| Measurements.WriteTagsFields | opengemini_client/measurement.py:96-110 | "CREATE MEASUREMENT m (" + tag items + a comma only when there are both tags and fields + field items + ")" |
| Measurements.CollectTags | opengemini_client/measurement.py:99-101 | the loop builds the tag items in order |
| Measurements.CollectFields | opengemini_client/measurement.py:106-108 | the loop builds the field items in order |
| Measurements.WriteIndex | opengemini_client/measurement.py:112-115 | " WITH  INDEXTYPE x INDEXLIST a,b" |
| Measurements.WriterOther | opengemini_client/measurement.py:117-141 | nothing when no option is set; otherwise " WITH " once, then ENGINETYPE, SHARDKEY, TYPE, PRIMARYKEY and SORTKEY, each only when set |
| Measurements.WriteIfSet | opengemini_client/measurement.py:123-141 | one option block: it writes only when its option is set, and the flag records whether " WITH " was written |
| Measurements.WriteOption | opengemini_client/measurement.py:124-127 | " WITH " comes before an option exactly when no option came before it |
| Measurements.ConditionToString | opengemini_client/measurement.py:165-170 | "SHOW MEASUREMENTS", plus " WITH MEASUREMENT <op> <value>" only when an operator is set |
| Measurements.ConditionRoundTrip | opengemini_client/measurement.py:165-170 | the statement reads back as its operator and value, or as no operator |
| Measurements.TagsFieldsJoined | opengemini_client/measurement.py:96-110 | the tags/fields part is the tag items followed by the field items, all joined by commas |
| Measurements.IndexIgnoresOptions | opengemini_client/measurement.py:143-149 | with an index type set, the engine, shard, primary-key and sort-key options do not change the statement |
| Measurements.BareStatement | opengemini_client/measurement.py:151-152 | with no index and no option, the statement is the tags/fields part alone |
| Configs.Config.constructor | opengemini_client/client_impl.py:35 | a configuration holding the given values |
| Configs.CheckAuth | opengemini_client/client_impl.py:36-46 | no address, an empty password username or password, and an empty token raise, in that order; nothing is changed |
| Configs.CheckBatch | opengemini_client/client_impl.py:51-55 | a batch interval ≤ 0 and then a batch size ≤ 0 raise |
| Configs.CheckConfig | opengemini_client/client_impl.py:35-63 | the new configuration and the error match `Checked`, and on success the same object is returned |
| Configs.CheckedSettles | opengemini_client/client_impl.py:35-63 | `check_config` succeeds iff the addresses, the credentials of the chosen authentication and the batch sizes are usable; it then leaves TLS settings when TLS is on and positive timeouts |
| Configs.SettledFixed | opengemini_client/client_impl.py:48-61 | a configuration that already passes comes back unchanged |
| Configs.CheckedIdempotent | opengemini_client/client_impl.py:35-63 | running `check_config` on its own result changes nothing more and raises nothing |
| Configs.CheckedChanges | opengemini_client/client_impl.py:48-61 | a successful `check_config` changes only the TLS default and the two timeouts: missing or non-positive ones become 30 s and 10 s, positive ones are kept |
| Configs.CheckedFails | opengemini_client/client_impl.py:36-55 | a failed `check_config` leaves the configuration as it was, except that a batch error comes after the TLS default was filled in |

## Left out

- Floats: the IEEE-754 packing of `append_float` is an opaque 8-byte value. The text of a float in `write_fields` is a `formatFloat` parameter. The conversion of an `int` to a double for a float column is a `toDouble` parameter that may fail as `OverflowError` does.
- `round_datetime` and `generate_timestamp` (opengemini_client/models.py:121-133, 212-228) use float and datetime arithmetic. Timestamps are given as integers, and `Transform.Timestamp` takes 0 when a point has none, as the source does. The float of the nanosecond branch is taken as the double nearest that integer, not as `timestamp() * 10^9` rounded step by step in floating point.
- Models.ToString: writes the timestamp as the given integer. The nanosecond branch of `generate_timestamp`, which gives a float, is not modelled.
- BinaryEncoder.AppendInt64: requires an int64. numpy's own behaviour for wider Python ints is not modelled.
- BinaryEncoder.AppendUint16: requires 0 ≤ v < 2^16. The same holds for the uint32 encoders and the list elements, with their bounds; numpy's wrap-around or errors outside those ranges are not modelled.
- ColVals.ColVal.AppendInteger: requires `Len + BitmapOffset ≥ 0`, as do the other append methods. Python's behaviour for a negative bit index is not modelled.
- ColVals.ColVal.AppendInteger: also requires `v` to fit in int64. For a value outside that range `struct.pack('<q', v)` raises before anything changes; `Transform.ValueCall` models that call as `PackError`, leaving the column as it was.
- Transform.PointAdded: when a nanosecond point's float reaches a Float time column (one a field called `time` created), the append succeeds and the source takes the float into `min_time`/`max_time`; the model takes the integer. A Boolean time column cannot arise.
- Records.Record.Marshal: requires every field name, blob and list to fit its length prefix, and every codec size to fit the uint32 frame.
- Transform.PointAddedRows: assumes the point's tag names, field names and `time` are pairwise distinct. Python dictionaries guarantee this within tags and within fields, but not across them.
- Dictionaries (`tags`, `fields`, the transform's `columns` and `fills`) are sequences of entries in insertion order; `fills` is a map.
- RecordTransform columns are values, so the model does not capture that `convert_to_record` hands out the live ColVal objects, which later `add_point` calls would change. As in the source, there is no finalize state.
- A value whose kind does not match an existing column's type is appended as the column's append call would take it, or raises as that call raises; no schema policy is added.
- HTTP plumbing of opengemini_client/client_impl.py: everything except `check_config`, including sessions, gzip, auth headers, endpoint cycling and query JSON mapping. This is I/O.
- The gRPC write call and the generated protobuf stubs: transport.
- `AtomicInt` (locking), the data-only legacy modules and the test files are not part of this model.
- The `size_of_*` functions are plain constants and sums in `Size`. They are stated through the encoders' length contracts rather than by contracts of their own.
