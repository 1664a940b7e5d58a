/**
 * The byte sizes the codec reports for its primitive encodings
 * (opengemini_client/codec/size.py). Sizes of strings count characters,
 * as `len(s)` does on a Python `str`.
 */
module Size {
  import opened Wire

  function SizeOfInt16(): nat { 2 }
  function SizeOfInt32(): nat { 4 }
  function SizeOfInt64(): nat { 8 }
  function SizeOfUint8(): nat { 1 }
  function SizeOfUint16(): nat { 2 }
  function SizeOfUint32(): nat { 4 }
  function SizeOfUint64(): nat { 8 }
  function SizeOfFloat32(): nat { 4 }
  function SizeOfFloat64(): nat { 8 }
  function SizeOfBool(): nat { 1 }

  /** Characters plus the uint16 length prefix. */
  function SizeOfString(s: string): nat { |s| + SizeOfUint16() }

  /** Bytes plus the uint32 length prefix. */
  function SizeOfBytes(b: Bytes): nat { |b| + SizeOfUint32() }

  /** Four bytes per element plus the uint32 count prefix. */
  function SizeOfUint32List(v: seq<int>): nat { |v| * SizeOfUint32() + SizeOfUint32() }
}
