/** The hexadecimal text form of a byte string, as `ByteBuf::toHexString` and `ByteBuf::fromHex` define it. */
module HexCodec {
  import opened IntCodec

  /** `toHexLower`/`toHexUpper`: the digit of the low four bits of the argument taken as `uint32_t`. */
  function HexDigit(value: int, upper: bool): (c: char)
    ensures HexValue(c) == ToUnsigned(value, 4) % 16
    ensures !upper ==> !('A' <= c <= 'Z')
  {
    var nibble := ToUnsigned(value, 4) % 16;
    if nibble < 10 then ('0' as int + nibble) as char
    else ((if upper then 'A' else 'a') as int + nibble - 10) as char
  }

  /** The two digits of a byte; `ch` is a signed `char`, so `ch >> 4` may be negative. */
  function DigitPair(b: Byte, upper: bool): seq<char> {
    var ch := ToSigned(b, 1);
    [HexDigit(ch / 16, upper), HexDigit(ch % 16, upper)]
  }

  function HexText(s: seq<Byte>, upper: bool, fill: seq<char>): seq<char> {
    if s == [] then [] else HexText(s[..|s| - 1], upper, fill) + DigitPair(s[|s| - 1], upper) + fill
  }

  /** `fromHex` of one character: its digit value, or -1. */
  function HexValue(c: char): int {
    if '0' <= c <= '9' then c as int - '0' as int
    else if 'A' <= c <= 'F' then c as int - 'A' as int + 10
    else if 'a' <= c <= 'f' then c as int - 'a' as int + 10
    else -1
  }

  /** `ch |= (char)hi << 4; ch |= (char)lo;` from a zero `ch`: an invalid digit sets bits instead of failing. */
  function PairByte(hi: char, lo: char): Byte {
    var high := if HexValue(hi) < 0 then 0xf0 else 16 * HexValue(hi);
    if HexValue(lo) < 0 then 0xff else high + HexValue(lo)
  }

  /** The bytes of a text of even length. */
  function PairBytes(h: seq<char>): seq<Byte>
    requires |h| % 2 == 0
  {
    if h == [] then [] else PairBytes(h[..|h| - 2]) + [PairByte(h[|h| - 2], h[|h| - 1])]
  }

  function LowerCase(h: seq<char>): seq<char> {
    seq(|h|, i requires 0 <= i < |h| =>
      if 'A' <= h[i] <= 'Z' then (h[i] as int - 'A' as int + 'a' as int) as char else h[i])
  }

  predicate AllHex(h: seq<char>) {
    forall i | 0 <= i < |h| :: HexValue(h[i]) >= 0
  }

  lemma NibbleArithmetic(b: int, ch: int)
    requires 0 <= b < 256 && ch == if b >= 128 then b - 256 else b
    ensures (ch / 16) % 0x1_0000_0000 % 16 == b / 16
    ensures (ch % 16) % 0x1_0000_0000 % 16 == b % 16
  {}

  /** The sign of `char` never shows: the digits are those of the byte's two nibbles. */
  lemma DigitPairNibbles(b: Byte, upper: bool)
    ensures HexValue(DigitPair(b, upper)[0]) == b / 16 && HexValue(DigitPair(b, upper)[1]) == b % 16
    ensures !upper ==> forall i | 0 <= i < 2 :: !('A' <= DigitPair(b, upper)[i] <= 'Z')
  {
    var ch := ToSigned(b, 1);
    assert Pow256(4) == 0x1_0000_0000 by {
      assert Pow256(1) == 256;
      assert Pow256(2) == 0x1_0000;
      assert Pow256(3) == 0x100_0000;
    }
    NibbleArithmetic(b, ch) by {
      assert Pow256(1) == 256;
    }
  }

  /** Each digit gives its half of the byte; one that is no digit sets all the bits from the low one of its half up. */
  lemma PairNibbles(hi: char, lo: char)
    ensures PairByte(hi, lo) % 16 == if HexValue(lo) >= 0 then HexValue(lo) else 15
    ensures PairByte(hi, lo) / 16 == if HexValue(hi) >= 0 && HexValue(lo) >= 0 then HexValue(hi) else 15
  {}

  /** Reading the hexadecimal text of any bytes, in either case, gives the bytes back. */
  lemma {:induction false} BytesRoundTrip(s: seq<Byte>, upper: bool)
    ensures |HexText(s, upper, [])| == 2 * |s|
    ensures PairBytes(HexText(s, upper, [])) == s
  {
    if s != [] {
      var front := s[..|s| - 1];
      BytesRoundTrip(front, upper);
      DigitPairNibbles(s[|s| - 1], upper);
      var h := HexText(s, upper, []);
      assert h == HexText(front, upper, []) + DigitPair(s[|s| - 1], upper);
      assert h[..|h| - 2] == HexText(front, upper, []);
      assert s == front + [s[|s| - 1]];
    }
  }

  lemma LowerValue(c: char)
    ensures HexValue(LowerCase([c])[0]) == HexValue(c)
    ensures !('A' <= LowerCase([c])[0] <= 'Z')
  {}

  lemma SameDigit(c: char, d: char)
    requires !('A' <= c <= 'Z') && !('A' <= d <= 'Z') && HexValue(c) >= 0
    ensures c == d <==> HexValue(c) == HexValue(d)
  {}

  /** The digits of the byte read from a pair are that pair in lower case, exactly when both are hex digits. */
  lemma PairRoundTrip(hi: char, lo: char)
    ensures DigitPair(PairByte(hi, lo), false) == LowerCase([hi, lo]) <==> HexValue(hi) >= 0 && HexValue(lo) >= 0
  {
    var b := PairByte(hi, lo);
    var p := DigitPair(b, false);
    DigitPairNibbles(b, false);
    LowerValue(hi);
    LowerValue(lo);
    assert LowerCase([hi, lo]) == [LowerCase([hi])[0], LowerCase([lo])[0]];
    SameDigit(p[0], LowerCase([hi])[0]);
    SameDigit(p[1], LowerCase([lo])[0]);
  }

  lemma ConcatEqual(a: seq<char>, b: seq<char>, c: seq<char>, d: seq<char>)
    requires |a| == |c|
    ensures a + b == c + d <==> a == c && b == d
  {
    if a + b == c + d {
      assert (a + b)[..|a|] == a && (a + b)[|a|..] == b;
      assert (c + d)[..|a|] == c && (c + d)[|a|..] == d;
    }
  }

  lemma SplitLast(h: seq<char>)
    requires |h| >= 2
    ensures var front, hi, lo := h[..|h| - 2], h[|h| - 2], h[|h| - 1];
            && LowerCase(h) == LowerCase(front) + LowerCase([hi, lo])
            && (AllHex(h) <==> AllHex(front) && HexValue(hi) >= 0 && HexValue(lo) >= 0)
  {
    var front := h[..|h| - 2];
    assert forall i | 0 <= i < |front| :: h[i] == front[i];
  }

  /** Printing what was read gives the text in lower case, exactly when it consists of hex digits. */
  lemma {:induction false} TextRoundTrip(h: seq<char>)
    requires |h| % 2 == 0
    ensures |HexText(PairBytes(h), false, [])| == |h|
    ensures HexText(PairBytes(h), false, []) == LowerCase(h) <==> AllHex(h)
  {
    if h != [] {
      var front, hi, lo := h[..|h| - 2], h[|h| - 2], h[|h| - 1];
      TextRoundTrip(front);
      PairRoundTrip(hi, lo);
      SplitLast(h);
      var s, t, p := PairBytes(h), HexText(PairBytes(front), false, []), DigitPair(PairByte(hi, lo), false);
      assert s[..|s| - 1] == PairBytes(front);
      assert HexText(s, false, []) == t + p;
      ConcatEqual(t, p, LowerCase(front), LowerCase([hi, lo]));
    }
  }

  /** The text of bytes is the texts of the single ones, each followed by the fill. */
  lemma {:induction false} HexTextConcat(s: seq<Byte>, t: seq<Byte>, upper: bool, fill: seq<char>)
    ensures HexText(s + t, upper, fill) == HexText(s, upper, fill) + HexText(t, upper, fill)
  {
    if t == [] {
      assert s + t == s;
    } else {
      var front, b := t[..|t| - 1], t[|t| - 1];
      assert (s + t)[..|s + t| - 1] == s + front;
      HexTextConcat(s, front, upper, fill);
      var x, y, z := HexText(s, upper, fill), HexText(front, upper, fill), DigitPair(b, upper);
      hide HexText, DigitPair;
      assert ((x + y) + z) + fill == x + ((y + z) + fill);
    }
  }

  /** A byte is its two digits, the high one first, and the fill behind them. */
  lemma HexTextOne(b: Byte, upper: bool, fill: seq<char>)
    ensures var text := HexText([b], upper, fill);
            |text| == 2 + |fill| && text[2..] == fill && HexValue(text[0]) == b / 16 && HexValue(text[1]) == b % 16
  {
    assert [b][..0] == [] && HexText([], upper, fill) == [];
    assert HexText([b], upper, fill) == DigitPair(b, upper) + fill;
    DigitPairNibbles(b, upper);
    hide HexText, DigitPair;
  }

  /** The digits are those of the case that was asked for. */
  lemma {:induction false} HexTextCase(s: seq<Byte>, upper: bool)
    ensures forall i | 0 <= i < |HexText(s, upper, [])| ::
              var c := HexText(s, upper, [])[i]; '0' <= c <= '9' || (if upper then 'A' <= c <= 'F' else 'a' <= c <= 'f')
  {
    if s != [] {
      var front, pair := HexText(s[..|s| - 1], upper, []), DigitPair(s[|s| - 1], upper);
      HexTextCase(s[..|s| - 1], upper);
      assert HexText(s, upper, []) == front + pair + [];
      assert forall k | 0 <= k < 2 ::
               '0' <= pair[k] <= '9' || (if upper then 'A' <= pair[k] <= 'F' else 'a' <= pair[k] <= 'f');
      hide HexText, DigitPair;
    }
  }
}
