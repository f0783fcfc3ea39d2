/**
 `Utils::convert` and `Utils::convertHex`: printing an integer into a character buffer, least significant digit
 first, and reversing it in place.
 */
module NumberText {

  // ----- what number texts mean

  function DigitValue(c: char): int {
    if '0' <= c <= '9' then c as int - '0' as int
    else if 'A' <= c <= 'F' then c as int - 'A' as int + 10
    else -1
  }

  /** The two bases are literals, so that arithmetic over them stays linear. */
  function Times(hex: bool, n: int): int {
    if hex then 16 * n else 10 * n
  }

  function DivBase(hex: bool, n: nat): nat {
    if hex then n / 16 else n / 10
  }

  function ModBase(hex: bool, n: nat): (d: nat)
    ensures n == Times(hex, DivBase(hex, n)) + d && d < 16
  {
    if hex then n % 16 else n % 10
  }

  function ParseDigits(s: string, hex: bool): int {
    if s == "" then 0 else Times(hex, ParseDigits(s[..|s| - 1], hex)) + DigitValue(s[|s| - 1])
  }

  /** The value of a decimal text with an optional minus sign. */
  function ParseInt(s: string): int {
    if s != "" && s[0] == '-' then -ParseDigits(s[1..], false) else ParseDigits(s, false)
  }

  predicate IsDigit(c: char, hex: bool) {
    0 <= DigitValue(c) < Times(hex, 1)
  }

  /** Digits of the base only, at least one, and no superfluous leading zero. */
  predicate Canonical(s: string, hex: bool) {
    && s != ""
    && (forall i | 0 <= i < |s| :: IsDigit(s[i], hex))
    && (s[0] == '0' ==> |s| == 1)
  }

  predicate CanonicalInt(s: string) {
    if s != "" && s[0] == '-' then Canonical(s[1..], false) && s[1] != '0' else Canonical(s, false)
  }

  function Reverse(s: string): string {
    if s == "" then "" else Reverse(s[1..]) + [s[0]]
  }

  // ----- the printed digits

  function DigitChar(d: nat): (c: char)
    requires d < 16
    ensures DigitValue(c) == d
  {
    if d < 10 then ('0' as int + d) as char else ('A' as int + d - 10) as char
  }

  /** The digits the division loop produces, least significant first. */
  function DigitsBackward(n: nat, hex: bool): string {
    [DigitChar(ModBase(hex, n))] + if DivBase(hex, n) == 0 then "" else DigitsBackward(DivBase(hex, n), hex)
  }

  function NatText(n: nat, hex: bool): string {
    Reverse(DigitsBackward(n, hex))
  }

  function IntText(v: int): string {
    if v < 0 then "-" + NatText(-v, false) else NatText(v, false)
  }

  lemma NatTextStep(n: nat, hex: bool)
    ensures var q := DivBase(hex, n);
            NatText(n, hex) == (if q == 0 then "" else NatText(q, hex)) + [DigitChar(ModBase(hex, n))]
  {
    var d, q := DigitsBackward(n, hex), DivBase(hex, n);
    assert d[1..] == if q == 0 then "" else DigitsBackward(q, hex);
    assert Reverse(d) == Reverse(d[1..]) + [d[0]];
  }

  /** The text of a number parses back to it and has no superfluous zero. */
  lemma {:induction false} NatTextParses(n: nat, hex: bool)
    ensures ParseDigits(NatText(n, hex), hex) == n && Canonical(NatText(n, hex), hex)
    ensures n > 0 ==> NatText(n, hex)[0] != '0'
    decreases n
  {
    var q, d := DivBase(hex, n), DigitChar(ModBase(hex, n));
    NatTextStep(n, hex);
    assert IsDigit(d, hex);
    if q == 0 {
      assert NatText(n, hex) == [d];
      assert [d][..0] == "";
    } else {
      NatTextParses(q, hex);
      assert NatText(n, hex) == NatText(q, hex) + [d];
      assert (NatText(q, hex) + [d])[..|NatText(q, hex)|] == NatText(q, hex);
    }
  }

  /** Adding a digit at the end is undone by division. */
  lemma AppendedDigit(n: nat, d: nat, hex: bool)
    requires d < if hex then 16 else 10
    ensures DivBase(hex, Times(hex, n) + d) == n && ModBase(hex, Times(hex, n) + d) == d
  {}

  /** The last digit of a canonical numeral, and what is before it. */
  lemma LastDigit(s: string, hex: bool)
    requires Canonical(s, hex)
    ensures var t, d := s[..|s| - 1], DigitValue(s[|s| - 1]);
            && s == t + [s[|s| - 1]] && ParseDigits(s, hex) == Times(hex, ParseDigits(t, hex)) + d
            && 0 <= d < (if hex then 16 else 10) && DigitChar(d) == s[|s| - 1] && (s[|s| - 1] == '0' <==> d == 0)
            && (t != "" ==> Canonical(t, hex) && t[0] == s[0] != '0')
  {
    assert IsDigit(s[|s| - 1], hex);
  }

  /** It is the only canonical text with that value. */
  lemma {:induction false} CanonicalUnique(s: string, hex: bool)
    requires Canonical(s, hex)
    ensures ParseDigits(s, hex) >= 0 && NatText(ParseDigits(s, hex), hex) == s
    ensures s[0] != '0' ==> ParseDigits(s, hex) > 0
    decreases |s|
  {
    var t, d := s[..|s| - 1], DigitValue(s[|s| - 1]);
    LastDigit(s, hex);
    if t == "" {
      assert ParseDigits(t, hex) == 0;
      hide ParseDigits, NatText, DigitChar, Canonical;
      AppendedDigit(0, d, hex);
      NatTextStep(d, hex);
    } else {
      CanonicalUnique(t, hex);
      var n := ParseDigits(t, hex);
      hide ParseDigits, NatText, DigitChar, Canonical;
      AppendedDigit(n, d, hex);
      NatTextStep(Times(hex, n) + d, hex);
    }
  }

  function Power(hex: bool, k: nat): nat {
    if k == 0 then 1 else Times(hex, Power(hex, k - 1))
  }

  /** A number below the k-th power of the base has at most k digits. */
  lemma {:induction false} LengthBound(n: nat, hex: bool, k: nat)
    requires k > 0 && n < Power(hex, k)
    ensures |NatText(n, hex)| <= k
    decreases k
  {
    NatTextStep(n, hex);
    var q := DivBase(hex, n);
    assert q < Power(hex, k - 1);
    if q > 0 {
      assert Power(hex, 0) == 1;
      LengthBound(q, hex, k - 1);
    }
  }

  lemma TimesProduct(hex: bool, p: nat, r: nat)
    ensures Times(hex, p * r) == Times(hex, p) * r
  {
    assert 10 * (p * r) == (10 * p) * r && 16 * (p * r) == (16 * p) * r;
  }

  lemma {:induction false} PowerAdd(hex: bool, a: nat, b: nat)
    ensures Power(hex, a + b) == Power(hex, a) * Power(hex, b)
  {
    if a > 0 {
      PowerAdd(hex, a - 1, b);
      TimesProduct(hex, Power(hex, a - 1), Power(hex, b));
    }
  }

  function Abs(v: int): nat {
    if v < 0 then -v else v
  }

  const MIN_INT64: int := -0x8000_0000_0000_0000
  const MAX_UINT64: int := 0xffff_ffff_ffff_ffff

  lemma SixtyFourBits()
    ensures Power(false, 19) > -MIN_INT64 && Power(false, 20) > MAX_UINT64 && Power(true, 16) > MAX_UINT64
  {
    forall hex ensures Power(hex, 4) == (if hex then 0x1_0000 else 10000) && Power(hex, 3) == if hex then 0x1000 else 1000 {
      assert Power(hex, 0) == 1;
      assert Power(hex, 1) == if hex then 16 else 10;
      assert Power(hex, 2) == if hex then 0x100 else 100;
    }
    PowerAdd(false, 4, 4);
    PowerAdd(false, 8, 8);
    PowerAdd(false, 16, 3);
    PowerAdd(false, 16, 4);
    PowerAdd(true, 4, 4);
    PowerAdd(true, 8, 8);
  }

  lemma CanonicalLacksNul(s: string, hex: bool)
    requires Canonical(s, hex)
    ensures '\0' !in s && s[0] != '-'
  {
    assert !IsDigit('\0', hex) && !IsDigit('-', hex);
  }

  /** For every 64-bit value, signed or unsigned: the text parses to it, is canonical and has at most 20 characters. */
  lemma IntTextCorrect(v: int)
    requires MIN_INT64 <= v <= MAX_UINT64
    ensures ParseInt(IntText(v)) == v && CanonicalInt(IntText(v)) && |IntText(v)| <= 20 && '\0' !in IntText(v)
  {
    SixtyFourBits();
    NatTextParses(Abs(v), false);
    CanonicalLacksNul(NatText(Abs(v), false), false);
    LengthBound(Abs(v), false, if v < 0 then 19 else 20);
    hide NatText, Canonical, ParseDigits, Power;
    if v < 0 {
      assert IntText(v)[1..] == NatText(-v, false);
    }
  }

  /** And no other canonical text has that value. */
  lemma IntTextUnique(s: string)
    requires CanonicalInt(s)
    ensures IntText(ParseInt(s)) == s
  {
    if s[0] == '-' {
      CanonicalUnique(s[1..], false);
      assert s == "-" + s[1..];
    } else {
      CanonicalUnique(s, false);
    }
  }

  /** For every 64-bit address: at most 16 upper-case hexadecimal digits that parse to it. */
  lemma HexTextCorrect(n: nat)
    requires n <= MAX_UINT64
    ensures ParseDigits(NatText(n, true), true) == n && Canonical(NatText(n, true), true)
    ensures |NatText(n, true)| <= 16 && '\0' !in NatText(n, true)
  {
    SixtyFourBits();
    NatTextParses(n, true);
    LengthBound(n, true, 16);
    CanonicalLacksNul(NatText(n, true), true);
  }

  // ----- the printing methods

  /** C++ division and remainder by 10, which truncate toward zero. */
  function TruncatedDiv10(a: int): int {
    if a >= 0 then a / 10 else -(-a / 10)
  }

  function TruncatedMod10(a: int): int {
    a - 10 * TruncatedDiv10(a)
  }

  const DIGITS := "9876543210123456789"
  const DIGITS_HEX := "0123456789ABCDEF"

  /** `zero[lsd]`, where `zero` points at the 0 in the middle of the table and `lsd` may be negative. */
  function DecimalDigit(lsd: int): (c: char)
    requires -9 <= lsd <= 9
    ensures c == DigitChar(Abs(lsd))
  {
    DIGITS[9 + lsd]
  }

  /** `digitsHex[lsd]`. */
  function HexadecimalDigit(lsd: nat): (c: char)
    requires lsd < 16
    ensures c == DigitChar(lsd)
  {
    DIGITS_HEX[lsd]
  }

  /** `std::reverse(buf + lo, buf + hi)`. */
  method ReverseRange(buf: array<char>, lo: nat, hi: nat)
    requires lo <= hi <= buf.Length
    modifies buf
    ensures buf[lo..hi] == Reverse(old(buf[lo..hi]))
    ensures forall k | 0 <= k < lo || hi <= k < buf.Length :: buf[k] == old(buf[k])
  {
    ghost var was := buf[..];
    var first, last := lo, hi;
    while first < last
      invariant lo <= first <= last + 1 && last <= hi && first + last == lo + hi
      invariant forall k :: lo <= k < first ==> buf[k] == was[lo + hi - 1 - k]
      invariant forall k :: last <= k < hi ==> buf[k] == was[lo + hi - 1 - k]
      invariant forall k :: 0 <= k < lo || first <= k < last || hi <= k < buf.Length ==> buf[k] == was[k]
    {
      last := last - 1;
      buf[first], buf[last] := buf[last], buf[first];
      first := first + 1;
    }
    ReversedSlice(was, buf[..], lo, hi);
  }

  lemma ReversedSlice(was: seq<char>, now: seq<char>, lo: nat, hi: nat)
    requires lo <= hi <= |was| == |now|
    requires forall k :: lo <= k < hi ==> now[k] == was[lo + hi - 1 - k]
    ensures now[lo..hi] == Reverse(was[lo..hi])
  {
    ReverseAt(was[lo..hi], 0);
    forall k | 0 <= k < hi - lo ensures Reverse(was[lo..hi])[k] == now[lo..hi][k] {
      ReverseAt(was[lo..hi], k);
      assert now[lo + k] == was[lo + hi - 1 - (lo + k)];
    }
  }

  lemma {:induction false} ReverseAt(s: string, k: nat)
    ensures |Reverse(s)| == |s| && (k < |s| ==> Reverse(s)[k] == s[|s| - 1 - k])
  {
    if s != "" {
      ReverseAt(s[1..], if k < |s| - 1 then k else 0);
    }
  }

  /** `*p++ = c`, where the characters from `off` to `p` have been stored before. */
  method PutChar(buf: array<char>, off: nat, p: nat, c: char)
    requires off <= p < buf.Length
    modifies buf
    ensures buf[off..p + 1] == old(buf[off..p]) + [c]
    ensures forall k | 0 <= k < buf.Length && k != p :: buf[k] == old(buf[k])
  {
    buf[p] := c;
  }

  /** The buffer with a text and its terminating NUL stored at `off`, the rest unchanged. */
  ghost predicate Stored(was: seq<char>, now: seq<char>, off: nat, text: string) {
    && off + |text| < |was| == |now|
    && now[off..off + |text|] == text
    && now[off + |text|] == '\0'
    && forall k | 0 <= k < off || off + |text| < k < |was| :: now[k] == was[k]
  }

  /** Characters at or after the start of the text may have been overwritten before. */
  lemma StoredAfter(was: seq<char>, mid: seq<char>, now: seq<char>, off: nat, text: string)
    requires Stored(mid, now, off, text) && |was| == |mid|
    requires forall k | 0 <= k < off || off + |text| <= k < |was| :: mid[k] == was[k]
    ensures Stored(was, now, off, text)
  {}

  /** The tail of both printers: terminate the digits at `off..p` and reverse them. */
  method Finish(buf: array<char>, off: nat, p: nat, ghost backward: string)
    requires off <= p < buf.Length && buf[off..p] == backward
    modifies buf
    ensures Stored(old(buf[..]), buf[..], off, Reverse(backward)) && |Reverse(backward)| == p - off
  {
    buf[p] := '\0';
    assert buf[off..p] == backward;
    ReverseRange(buf, off, p);
    ReverseAt(backward, 0);
  }

  /** One round of the division loop moves one digit from what is left to what is written. */
  lemma DigitStep(n: nat, hex: bool, before: string, all: string)
    requires before + DigitsBackward(n, hex) == all
    ensures var q := DivBase(hex, n);
            (before + [DigitChar(ModBase(hex, n))]) + (if q == 0 then "" else DigitsBackward(q, hex)) == all
    ensures |before| < |all|
  {}

  lemma TruncatedParts(i: int)
    ensures Abs(TruncatedDiv10(i)) == DivBase(false, Abs(i)) && Abs(TruncatedMod10(i)) == ModBase(false, Abs(i))
  {}

  /** The loop of `convert`: the decimal digits of a number of either sign, least significant first. */
  method PutDecimalDigits(buf: array<char>, off: nat, value: int) returns (p: nat)
    requires off + |DigitsBackward(Abs(value), false)| <= buf.Length
    modifies buf
    ensures off <= p <= buf.Length && buf[off..p] == DigitsBackward(Abs(value), false)
    ensures forall k | 0 <= k < off || p <= k < buf.Length :: buf[k] == old(buf[k])
  {
    hide DigitsBackward, DigitChar, DecimalDigit;
    ghost var all := DigitsBackward(Abs(value), false);
    var i, more := value, true;
    p := off;
    while more
      invariant off <= p <= off + |all|
      invariant buf[off..p] + (if more then DigitsBackward(Abs(i), false) else "") == all
      invariant forall k | 0 <= k < off || p <= k < buf.Length :: buf[k] == old(buf[k])
      decreases more, Abs(i)
    {
      DigitStep(Abs(i), false, buf[off..p], all);
      TruncatedParts(i);
      var lsd := TruncatedMod10(i);
      i := TruncatedDiv10(i);
      PutChar(buf, off, p, DecimalDigit(lsd));
      p := p + 1;
      more := i != 0;
    }
  }

  /** The loop of `convertHex`. */
  method PutHexDigits(buf: array<char>, off: nat, value: nat) returns (p: nat)
    requires off + |DigitsBackward(value, true)| <= buf.Length
    modifies buf
    ensures off <= p <= buf.Length && buf[off..p] == DigitsBackward(value, true)
    ensures forall k | 0 <= k < off || p <= k < buf.Length :: buf[k] == old(buf[k])
  {
    hide DigitsBackward, DigitChar, HexadecimalDigit;
    ghost var all := DigitsBackward(value, true);
    var i, more := value, true;
    p := off;
    while more
      invariant off <= p <= off + |all|
      invariant buf[off..p] + (if more then DigitsBackward(i, true) else "") == all
      invariant forall k | 0 <= k < off || p <= k < buf.Length :: buf[k] == old(buf[k])
      decreases more, i
    {
      DigitStep(i, true, buf[off..p], all);
      var lsd := i % 16;
      i := i / 16;
      PutChar(buf, off, p, HexadecimalDigit(lsd));
      p := p + 1;
      more := i != 0;
    }
  }

  /** `convert`: prints `value` at `buf + off` and returns the length. */
  method Convert(buf: array<char>, off: nat, value: int) returns (len: nat)
    requires MIN_INT64 <= value <= MAX_UINT64 && off + 21 <= buf.Length
    modifies buf
    ensures len == |IntText(value)| && Stored(old(buf[..]), buf[..], off, IntText(value))
  {
    hide *;
    ghost var text := DigitsBackward(Abs(value), false) + if value < 0 then "-" else "";
    BackwardText(value);
    var p := PutDecimalDigits(buf, off, value);
    if value < 0 {
      PutChar(buf, off, p, '-');
      p := p + 1;
    }
    ghost var mid := buf[..];
    Finish(buf, off, p, text);
    StoredAfter(old(buf[..]), mid, buf[..], off, Reverse(text));
    len := p - off;
  }

  lemma BackwardText(value: int)
    requires MIN_INT64 <= value <= MAX_UINT64
    ensures var text := DigitsBackward(Abs(value), false) + if value < 0 then "-" else "";
            Reverse(text) == IntText(value) && |text| == |IntText(value)| <= 20
  {
    var digits := DigitsBackward(Abs(value), false);
    IntTextCorrect(value);
    ReverseSign(digits);
    ReverseAt(digits + if value < 0 then "-" else "", 0);
    assert digits + "" == digits;
  }

  lemma {:induction false} ReverseSign(s: string)
    ensures Reverse(s + "-") == "-" + Reverse(s)
  {
    if s != "" {
      assert (s + "-")[1..] == s[1..] + "-";
      ReverseSign(s[1..]);
    }
  }

  /** `convertHex`: the same for an address in base 16. */
  method ConvertHex(buf: array<char>, off: nat, value: nat) returns (len: nat)
    requires value <= MAX_UINT64 && off + 17 <= buf.Length
    modifies buf
    ensures len == |NatText(value, true)| && Stored(old(buf[..]), buf[..], off, NatText(value, true))
  {
    ghost var text := DigitsBackward(value, true);
    HexTextCorrect(value);
    ReverseAt(text, 0);
    assert Reverse(text) == NatText(value, true);
    hide *;
    var p := PutHexDigits(buf, off, value);
    ghost var mid := buf[..];
    Finish(buf, off, p, text);
    StoredAfter(old(buf[..]), mid, buf[..], off, NatText(value, true));
    len := p - off;
  }
}
