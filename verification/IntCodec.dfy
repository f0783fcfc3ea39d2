/**
 The integer codecs of `ByteBufData`: `toBinary`/`toBinaryLE` cut a value into bytes,
 `readT`/`readTLE` add shifted bytes up again, in two's-complement arithmetic.
 Bytes are the unsigned numbers 0..255; `x & 0xff` makes `char` signedness irrelevant.
 */
module IntCodec {

  type Byte = x: int | 0 <= x < 256

  /** 256 to the k: one more byte of width. */
  function Pow256(k: nat): (p: nat)
    ensures p > 0
  {
    if k == 0 then 1 else 256 * Pow256(k - 1)
  }

  /** `v >> (8 * k)`: the arithmetic shift of a two's-complement number, one byte at a time. */
  function ShiftRight(v: int, k: nat): int
    decreases k
  {
    if k == 0 then v else ShiftRight(v / 256, k - 1)
  }

  /** Truncation to an unsigned integer of `width` bytes. */
  function ToUnsigned(v: int, width: nat): (r: nat)
    ensures r < Pow256(width)
  {
    v % Pow256(width)
  }

  /** Truncation to a two's-complement integer of `width` bytes. */
  function ToSigned(v: int, width: nat): int {
    var r := ToUnsigned(v, width);
    if 2 * r >= Pow256(width) then r - Pow256(width) else r
  }

  /** The number a byte string spells, most significant byte first. */
  function BigEndian(s: seq<Byte>): nat {
    if s == [] then 0 else 256 * BigEndian(s[..|s| - 1]) + s[|s| - 1]
  }

  /** The number a byte string spells, least significant byte first. */
  function LittleEndian(s: seq<Byte>): nat {
    if s == [] then 0 else s[0] + 256 * LittleEndian(s[1..])
  }

  /** The integer types the buffer stores: 1, 2 or 4 bytes wide, in either byte order. */
  datatype Kind = Kind(width: nat, signed: bool, big: bool)

  predicate Supported(kind: Kind) {
    kind.width == 1 || kind.width == 2 || kind.width == 4
  }

  /** The values the integer type can hold. */
  predicate Fits(kind: Kind, v: int) {
    var m: int := Pow256(kind.width);
    if kind.signed then -m <= 2 * v < m else 0 <= v < m
  }

  /** The bytes `toBinary` (big) or `toBinaryLE` produces. */
  function Encode(kind: Kind, v: int): (s: seq<Byte>)
    ensures |s| == kind.width
  {
    seq(kind.width, i requires 0 <= i < kind.width =>
      ShiftRight(v, if kind.big then kind.width - 1 - i else i) % 256)
  }

  /** The value of the stored bytes as the type `kind`. */
  function Decode(kind: Kind, s: seq<Byte>): int {
    var n := if kind.big then BigEndian(s) else LittleEndian(s);
    if kind.signed then ToSigned(n, kind.width) else ToUnsigned(n, kind.width)
  }

  // ----- arithmetic

  lemma ModUnique(v: int, m: nat, q: int, r: int)
    requires m > 0 && 0 <= r < m && v == m * q + r
    ensures v % m == r
  {
    var q', r' := v / m, v % m;
    assert v == m * q' + r' && 0 <= r' < m;
    assert m * (q - q') == r' - r;
    if q - q' >= 1 {
      assert false;
    } else if q' - q >= 1 {
      assert false;
    }
  }

  /** Cutting off the low byte commutes with truncation. */
  lemma ModStep(v: int, n: nat)
    ensures 256 * ((v / 256) % Pow256(n)) + v % 256 == v % Pow256(n + 1)
  {
    var m := Pow256(n);
    var q, s := (v / 256) / m, (v / 256) % m;
    assert v / 256 == m * q + s;
    assert v == 256 * (m * q + s) + v % 256;
    assert 256 * (m * q) == (256 * m) * q;
    ModUnique(v, 256 * m, q, 256 * s + v % 256);
  }

  // ----- the two byte orders

  /** The little-endian bytes spell the value modulo the width. */
  lemma {:induction false} LittleEndianEncodes(kind: Kind, v: int)
    requires !kind.big
    ensures LittleEndian(Encode(kind, v)) == ToUnsigned(v, kind.width)
    decreases kind.width
  {
    var s := Encode(kind, v);
    if kind.width > 0 {
      var rest := kind.(width := kind.width - 1);
      assert s[1..] == Encode(rest, v / 256);
      assert s[0] == v % 256;
      LittleEndianEncodes(rest, v / 256);
      ModStep(v, rest.width);
    }
  }

  /** The big-endian bytes spell the same number. */
  lemma {:induction false} BigEndianEncodes(kind: Kind, v: int)
    requires kind.big
    ensures BigEndian(Encode(kind, v)) == ToUnsigned(v, kind.width)
    decreases kind.width
  {
    var s := Encode(kind, v);
    if kind.width > 0 {
      var rest := kind.(width := kind.width - 1);
      assert s[..|s| - 1] == Encode(rest, v / 256);
      assert s[|s| - 1] == v % 256;
      BigEndianEncodes(rest, v / 256);
      ModStep(v, rest.width);
    }
  }

  /** Truncating a representable value, in either signedness, changes nothing. */
  lemma TruncationExact(kind: Kind, v: int)
    requires Fits(kind, v)
    ensures kind.signed ==> ToSigned(ToUnsigned(v, kind.width), kind.width) == v
    ensures !kind.signed ==> ToUnsigned(ToUnsigned(v, kind.width), kind.width) == v
  {
    var m := Pow256(kind.width);
    if v >= 0 {
      ModUnique(v, m, 0, v);
    } else {
      ModUnique(v, m, -1, v + m);
      ModUnique(v + m, m, 0, v + m);
    }
  }

  /** Decoding the bytes of a representable value gives the value back. */
  lemma DecodeEncode(kind: Kind, v: int)
    requires Fits(kind, v)
    ensures Decode(kind, Encode(kind, v)) == v
  {
    if kind.big { BigEndianEncodes(kind, v); } else { LittleEndianEncodes(kind, v); }
    TruncationExact(kind, v);
  }
}
