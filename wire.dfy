/**
 * Shared vocabulary of the binary record codec: bytes, results, decode
 * errors, fixed-width big- and little-endian words, Python's slicing of a
 * byte string, and the UTF-8 encoding that Python's `str.encode("utf-8")`
 * and strict `bytes.decode("utf-8")` perform.
 */
module Wire {

  /** One byte of a Python `bytes` object. */
  type Byte = x: int | 0 <= x < 0x100

  type Bytes = seq<Byte>

  /** The 8 bytes that `struct.pack('<d', v)` produces for a float `v`; the
      IEEE-754 packing itself is not modelled. */
  type Float64 = b: Bytes | |b| == 8 witness [0, 0, 0, 0, 0, 0, 0, 0]

  datatype Option<+T> = None | Some(value: T)

  datatype Result<+T, +E> = Ok(value: T) | Err(error: E)

  /** The Python exceptions a decoder can raise. */
  datatype DecodeError =
    | IndexError          // indexing past the end of a short slice
    | UnicodeDecodeError  // the slice is not valid UTF-8
    | OverflowError       // numpy.int64 refuses a word >= 2^63
    | StructError         // struct.unpack given a slice of the wrong size

  const TwoTo16: int := 0x1_0000
  const TwoTo32: int := 0x1_0000_0000
  const TwoTo62: int := 0x4000_0000_0000_0000
  const TwoTo63: int := 0x8000_0000_0000_0000
  const TwoTo64: int := 0x1_0000_0000_0000_0000

  predicate IsInt64(v: int) { -TwoTo63 <= v < TwoTo63 }

  predicate IsUint32(v: int) { 0 <= v < TwoTo32 }

  function Pow256(n: nat): (r: nat)
    ensures r >= 1
  {
    if n == 0 then 1 else 256 * Pow256(n - 1)
  }

  lemma Pow256Values()
    ensures Pow256(2) == TwoTo16 && Pow256(4) == TwoTo32 && Pow256(8) == TwoTo64
  {
    assert Pow256(4) == 256 * 256 * 256 * 256;
    assert Pow256(8) == Pow256(4) * 256 * 256 * 256 * 256;
  }

  /** The `width` low-order bytes of `u`, most significant first: what a
      numpy cast to a `width`-byte unsigned integer followed by shifts and
      `numpy.uint8` truncations writes. */
  function BigEndian(u: nat, width: nat): (r: Bytes)
    ensures |r| == width
  {
    if width == 0 then [] else BigEndian(u / 256, width - 1) + [u % 256]
  }

  /** The unsigned integer a big-endian byte string denotes. */
  function BigEndianValue(s: Bytes): nat
  {
    if s == [] then 0 else BigEndianValue(s[..|s| - 1]) * 256 + s[|s| - 1]
  }

  /** The two, four or eight bytes of `u` from index `at` on as one
      big-endian word, spelled out as the decoder's shifts and or's compute
      it (the shifted bytes never overlap, so or-ing them is adding them). */
  function Word16(u: Bytes, at: nat): nat
    requires at + 2 <= |u|
  {
    u[at] as int * 0x100 + u[at + 1]
  }

  function Word32(u: Bytes, at: nat): nat
    requires at + 4 <= |u|
  {
    u[at] as int * 0x100_0000 + u[at + 1] as int * 0x1_0000 + u[at + 2] as int * 0x100 + u[at + 3]
  }

  function Word64(u: Bytes, at: nat): nat
    requires at + 8 <= |u|
  {
    u[at] as int * 0x100_0000_0000_0000 + u[at + 1] as int * 0x1_0000_0000_0000
    + u[at + 2] as int * 0x100_0000_0000 + u[at + 3] as int * 0x1_0000_0000
    + u[at + 4] as int * 0x100_0000 + u[at + 5] as int * 0x1_0000 + u[at + 6] as int * 0x100 + u[at + 7]
  }

  /** The spelled-out words are the big-endian values of those bytes. */
  lemma WordsAreBigEndian(u: Bytes)
    ensures |u| == 2 ==> Word16(u, 0) == BigEndianValue(u)
    ensures |u| == 4 ==> Word32(u, 0) == BigEndianValue(u)
    ensures |u| == 8 ==> Word64(u, 0) == BigEndianValue(u)
  {
    if |u| == 2 || |u| == 4 || |u| == 8 {
      var k := |u|;
      assert BigEndianValue(u[..1]) == u[0] by {
        assert u[..1][..0] == [];
      }
      assert BigEndianValue(u[..2]) == u[0] as int * 0x100 + u[1] by {
        assert u[..2][..1] == u[..1];
      }
      if k >= 4 {
        assert BigEndianValue(u[..3]) == u[0] as int * 0x1_0000 + u[1] as int * 0x100 + u[2] by {
          assert u[..3][..2] == u[..2];
        }
        assert BigEndianValue(u[..4]) == Word32(u, 0) by {
          assert u[..4][..3] == u[..3];
        }
      }
      if k == 8 {
        assert BigEndianValue(u[..5]) == Word32(u, 0) * 0x100 + u[4] as int by {
          assert u[..5][..4] == u[..4];
        }
        assert BigEndianValue(u[..6]) == Word32(u, 0) * 0x1_0000 + u[4] as int * 0x100 + u[5] by {
          assert u[..6][..5] == u[..5];
        }
        assert BigEndianValue(u[..7]) == Word32(u, 0) * 0x100_0000 + u[4] as int * 0x1_0000 + u[5] as int * 0x100 + u[6] by {
          assert u[..7][..6] == u[..6];
        }
        assert BigEndianValue(u[..8]) == Word64(u, 0) by {
          assert u[..8][..7] == u[..7];
        }
      }
      assert u[..k] == u;
    }
  }

  /** A word read in place is the word of the bytes sliced out for it. */
  lemma WordsInPlace(buf: Bytes, at: nat)
    ensures at + 2 <= |buf| ==> Word16(buf, at) == Word16(buf[at..at + 2], 0)
    ensures at + 4 <= |buf| ==> Word32(buf, at) == Word32(buf[at..at + 4], 0)
    ensures at + 8 <= |buf| ==> Word64(buf, at) == Word64(buf[at..at + 8], 0)
  {
  }

  /** The `width` low-order bytes of `u`, least significant first (the
      `struct` module's '<' byte order). */
  function LittleEndian(u: nat, width: nat): (r: Bytes)
    ensures |r| == width
  {
    if width == 0 then [] else [u % 256] + LittleEndian(u / 256, width - 1)
  }

  function LittleEndianValue(s: Bytes): nat
  {
    if s == [] then 0 else s[0] + 256 * LittleEndianValue(s[1..])
  }

  lemma {:induction false} BigEndianRoundTrip(u: nat, width: nat)
    ensures BigEndianValue(BigEndian(u, width)) == u % Pow256(width)
  {
    if width > 0 {
      var s := BigEndian(u, width);
      assert s[..width - 1] == BigEndian(u / 256, width - 1);
      BigEndianRoundTrip(u / 256, width - 1);
      var p := Pow256(width - 1);
      DivModNested(u, p);
    }
  }

  lemma {:induction false} LittleEndianRoundTrip(u: nat, width: nat)
    ensures LittleEndianValue(LittleEndian(u, width)) == u % Pow256(width)
  {
    if width > 0 {
      var s := LittleEndian(u, width);
      assert s[1..] == LittleEndian(u / 256, width - 1);
      LittleEndianRoundTrip(u / 256, width - 1);
      DivModNested(u, Pow256(width - 1));
    }
  }

  /** `u mod 256p == (u / 256 mod p) * 256 + u mod 256`. */
  lemma DivModNested(u: nat, p: nat)
    requires p >= 1
    ensures u % (256 * p) == ((u / 256) % p) * 256 + u % 256
  {
    var q, r := u / 256, u % 256;
    var q2, r2 := q / p, q % p;
    assert q == q2 * p + r2;
    calc {
      u;
      q * 256 + r;
      (q2 * p + r2) * 256 + r;
      { MulAssoc(q2, p, 256); }
      q2 * (256 * p) + (r2 * 256 + r);
    }
    assert r2 <= p - 1;
    MulMono(r2, p - 1, 256);
    ModUnique(u, 256 * p, q2, r2 * 256 + r);
  }

  lemma MulAssoc(a: int, b: int, c: int)
    ensures (a * b) * c == a * (c * b)
  {
  }

  lemma MulMono(a: nat, b: nat, c: nat)
    requires a <= b
    ensures a * c <= b * c
  {
  }

  lemma ModUnique(u: nat, m: nat, a: nat, b: nat)
    requires m > 0 && u == a * m + b && b < m
    ensures u % m == b
  {
    var a', b' := u / m, u % m;
    assert a' * m + b' == a * m + b;
    if a' > a {
      MulMono(a + 1, a', m);
    } else if a' < a {
      MulMono(a' + 1, a, m);
    }
  }

  lemma {:induction false} BigEndianValueBound(s: Bytes)
    ensures BigEndianValue(s) < Pow256(|s|)
  {
    if s != [] {
      BigEndianValueBound(s[..|s| - 1]);
    }
  }

  lemma {:induction false} LittleEndianValueBound(s: Bytes)
    ensures LittleEndianValue(s) < Pow256(|s|)
  {
    if s != [] {
      LittleEndianValueBound(s[1..]);
    }
  }

  /** Reading back a big-endian word gives the bytes it came from. */
  lemma {:induction false} BigEndianOfValue(s: Bytes)
    ensures BigEndian(BigEndianValue(s), |s|) == s
  {
    if s != [] {
      var init := s[..|s| - 1];
      BigEndianValueBound(init);
      var v := BigEndianValue(s);
      assert v / 256 == BigEndianValue(init);
      assert v % 256 == s[|s| - 1];
      BigEndianOfValue(init);
      assert init + [s[|s| - 1]] == s;
    }
  }

  /** Python's `buf[lo:hi]` for non-negative bounds: both ends are clamped
      to the length, and a reversed range is empty. */
  function Slice(buf: Bytes, lo: nat, hi: nat): (r: Bytes)
    ensures lo + |r| <= |buf| || r == []
    ensures |r| <= hi - lo || r == []
    ensures hi <= |buf| && lo <= hi ==> r == buf[lo..hi]
  {
    if lo >= |buf| || hi <= lo then []
    else if hi <= |buf| then buf[lo..hi]
    else buf[lo..]
  }

  // ---------------------------------------------------------------------
  // UTF-8

  predicate IsAscii(s: string)
  {
    forall i :: 0 <= i < |s| ==> s[i] as int < 0x80
  }

  predicate IsContinuation(b: Byte) { 0x80 <= b <= 0xBF }

  /** The UTF-8 encoding of one Unicode scalar value. */
  function EncodeChar(c: char): (r: Bytes)
    ensures 1 <= |r| <= 4
    ensures |r| == 1 <==> c as int < 0x80
  {
    var n := c as int;
    if n < 0x80 then [n]
    else if n < 0x800 then [0xC0 + n / 64, 0x80 + n % 64]
    else if n < 0x1_0000 then [0xE0 + n / 4096, 0x80 + (n / 64) % 64, 0x80 + n % 64]
    else [0xF0 + n / 262144, 0x80 + (n / 4096) % 64, 0x80 + (n / 64) % 64, 0x80 + n % 64]
  }

  /** `s.encode("utf-8")`. */
  function Utf8Encode(s: string): (r: Bytes)
  {
    if s == [] then [] else EncodeChar(s[0]) + Utf8Encode(s[1..])
  }

  /** Decodes the character at the front of `b` under the well-formedness
      rules of Python's strict UTF-8 decoder (no overlong forms, no
      surrogates, nothing above U+10FFFF, no truncated sequence); yields the
      character and the number of bytes it took. */
  function DecodeChar(b: Bytes): (r: Option<(char, nat)>)
    requires |b| > 0
    ensures r.Some? ==> 1 <= r.value.1 <= |b| && r.value.1 <= 4
  {
    var b0: int := b[0];
    if b0 < 0x80 then Some((b0 as char, 1))
    else if 0xC2 <= b0 <= 0xDF then
      if |b| >= 2 && IsContinuation(b[1])
      then Some((CodePoint2(b0, b[1]) as char, 2))
      else None
    else if 0xE0 <= b0 <= 0xEF then
      var lo := if b0 == 0xE0 then 0xA0 else 0x80;
      var hi := if b0 == 0xED then 0x9F else 0xBF;
      if |b| >= 3 && lo <= b[1] <= hi && IsContinuation(b[2])
      then Some((CodePoint3(b0, b[1], b[2]) as char, 3))
      else None
    else if 0xF0 <= b0 <= 0xF4 then
      var lo := if b0 == 0xF0 then 0x90 else 0x80;
      var hi := if b0 == 0xF4 then 0x8F else 0xBF;
      if |b| >= 4 && lo <= b[1] <= hi && IsContinuation(b[2]) && IsContinuation(b[3])
      then Some((CodePoint4(b0, b[1], b[2], b[3]) as char, 4))
      else None
    else None
  }

  function CodePoint2(b0: int, b1: int): int { (b0 - 0xC0) * 64 + (b1 - 0x80) }

  function CodePoint3(b0: int, b1: int, b2: int): int
  {
    (b0 - 0xE0) * 4096 + (b1 - 0x80) * 64 + (b2 - 0x80)
  }

  function CodePoint4(b0: int, b1: int, b2: int, b3: int): int
  {
    (b0 - 0xF0) * 262144 + (b1 - 0x80) * 4096 + (b2 - 0x80) * 64 + (b3 - 0x80)
  }

  /** `b.decode("utf-8")`: None where Python raises UnicodeDecodeError. */
  function Utf8Decode(b: Bytes): Option<string>
    decreases |b|
  {
    if b == [] then Some([])
    else match DecodeChar(b)
      case None => None
      case Some((c, n)) =>
        match Utf8Decode(b[n..])
        case None => None
        case Some(rest) => Some([c] + rest)
  }

  // The digit arithmetic behind each encoding length, kept apart from the
  // decoder's case analysis.

  lemma TwoByteDigits(n: int)
    requires 0x80 <= n < 0x800
    ensures 0xC2 <= 0xC0 + n / 64 <= 0xDF
    ensures CodePoint2(0xC0 + n / 64, 0x80 + n % 64) == n
  {
  }

  lemma ThreeByteDigits(n: int)
    requires 0x800 <= n < 0x1_0000 && !(0xD800 <= n < 0xE000)
    ensures 0xE0 <= 0xE0 + n / 4096 <= 0xEF
    ensures n / 4096 == 0 ==> 0xA0 <= 0x80 + (n / 64) % 64
    ensures n / 4096 == 0xD ==> 0x80 + (n / 64) % 64 <= 0x9F
    ensures CodePoint3(0xE0 + n / 4096, 0x80 + (n / 64) % 64, 0x80 + n % 64) == n
  {
    assert n / 64 == (n / 4096) * 64 + (n / 64) % 64;
  }

  lemma FourByteDigits(n: int)
    requires 0x1_0000 <= n < 0x11_0000
    ensures 0xF0 <= 0xF0 + n / 262144 <= 0xF4
    ensures n / 262144 == 0 ==> 0x90 <= 0x80 + (n / 4096) % 64
    ensures n / 262144 == 4 ==> 0x80 + (n / 4096) % 64 <= 0x8F
    ensures CodePoint4(0xF0 + n / 262144, 0x80 + (n / 4096) % 64, 0x80 + (n / 64) % 64, 0x80 + n % 64) == n
  {
    assert n / 4096 == (n / 262144) * 64 + (n / 4096) % 64;
    assert n / 64 == (n / 4096) * 64 + (n / 64) % 64;
  }

  lemma DecodeEncodeChar(c: char, rest: Bytes)
    ensures DecodeChar(EncodeChar(c) + rest) == Some((c, |EncodeChar(c)|))
  {
    var n := c as int;
    var b := EncodeChar(c) + rest;
    if n < 0x80 {
    } else if n < 0x800 {
      TwoByteDigits(n);
      assert b[0] == 0xC0 + n / 64 && b[1] == 0x80 + n % 64;
    } else if n < 0x1_0000 {
      ThreeByteDigits(n);
      assert b[0] == 0xE0 + n / 4096 && b[1] == 0x80 + (n / 64) % 64 && b[2] == 0x80 + n % 64;
    } else {
      FourByteDigits(n);
      assert b[0] == 0xF0 + n / 262144 && b[1] == 0x80 + (n / 4096) % 64;
      assert b[2] == 0x80 + (n / 64) % 64 && b[3] == 0x80 + n % 64;
    }
  }

  /** Python's decoder inverts its encoder on every string. */
  lemma {:induction false} Utf8RoundTrip(s: string)
    ensures Utf8Decode(Utf8Encode(s)) == Some(s)
  {
    if s != [] {
      var e := EncodeChar(s[0]);
      var tail := Utf8Encode(s[1..]);
      DecodeEncodeChar(s[0], tail);
      assert (e + tail)[|e|..] == tail;
      Utf8RoundTrip(s[1..]);
      assert [s[0]] + s[1..] == s;
    }
  }

  lemma {:induction false} Utf8EncodeAppend(s: string, t: string)
    ensures Utf8Encode(s + t) == Utf8Encode(s) + Utf8Encode(t)
  {
    if s != [] {
      assert (s + t)[1..] == s[1..] + t;
      Utf8EncodeAppend(s[1..], t);
    } else {
      assert s + t == t;
    }
  }

  /** The encoded length equals the character count exactly for ASCII. */
  lemma {:induction false} Utf8Length(s: string)
    ensures |Utf8Encode(s)| >= |s|
    ensures |Utf8Encode(s)| == |s| <==> IsAscii(s)
  {
    if s != [] {
      Utf8Length(s[1..]);
      if IsAscii(s) {
        assert IsAscii(s[1..]) by {
          forall i | 0 <= i < |s[1..]| ensures s[1..][i] as int < 0x80 {
            assert s[1..][i] == s[i + 1];
          }
        }
      }
      if !IsAscii(s) && s[0] as int < 0x80 {
        var i :| 0 <= i < |s| && s[i] as int >= 0x80;
        assert s[1..][i - 1] == s[i];
      }
    }
  }

  /** ASCII text is encoded byte for character. */
  lemma {:induction false} Utf8Ascii(s: string)
    requires IsAscii(s)
    ensures |Utf8Encode(s)| == |s|
    ensures forall i :: 0 <= i < |s| ==> Utf8Encode(s)[i] == s[i] as int
  {
    if s != [] {
      assert IsAscii(s[1..]) by {
        forall i | 0 <= i < |s[1..]| ensures s[1..][i] as int < 0x80 {
          assert s[1..][i] == s[i + 1];
        }
      }
      Utf8Ascii(s[1..]);
      forall i | 1 <= i < |s| ensures Utf8Encode(s)[i] == s[i] as int {
        assert s[1..][i - 1] == s[i];
      }
    }
  }

  // Sequence facts used where the element type is too rich for the
  // solver to prove them cheaply in place.

  lemma SplitLast<T>(s: seq<T>)
    requires |s| > 0
    ensures s == s[..|s| - 1] + [s[|s| - 1]]
  {
  }

  lemma PrefixOfSnoc<T>(s: seq<T>, x: T)
    ensures (s + [x])[..|s|] == s && (s + [x])[|s|] == x
  {
  }

  lemma ConcatAssoc<T>(xs: seq<T>, ys: seq<T>, zs: seq<T>)
    ensures (xs + ys) + zs == xs + (ys + zs)
  {
  }

  lemma ConcatEmpty<T>(xs: seq<T>)
    ensures xs + [] == xs && [] + xs == xs
  {
  }

  lemma PrefixOfConcat<T>(xs: seq<T>, ys: seq<T>)
    ensures (xs + ys)[..|xs|] == xs
  {
  }

  lemma Regroup<T>(a: seq<T>, b: seq<T>, c: seq<T>, d: seq<T>)
    ensures a + b + c + d == (a + b) + (c + d)
  {
  }

  lemma InsertAt<T>(a: seq<T>, b: seq<T>, x: seq<T>, c: seq<T>, d: seq<T>)
    ensures a + (b + x) + c + d == (a + b) + x + (c + d)
  {
  }

  lemma HeadTail<T>(xs: seq<T>)
    requires xs != []
    ensures [xs[0]] + xs[1..] == xs
  {
  }

  lemma SnocAssoc<T>(xs: seq<T>, ys: seq<T>, x: T)
    ensures xs + (ys + [x]) == (xs + ys) + [x]
  {
  }
}
