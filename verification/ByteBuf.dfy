/**
 `ByteBuf` and its `ByteBufData` as one class: the same fields, the same loops. Every method is
 proved to change the state as the corresponding function of `ByteData` says.
 */
module ByteBuf {
  import opened IntCodec
  import opened Prelude
  import opened ByteData
  import opened HexCodec

  /** What a typed read returns for what it fetched: nothing where the code throws. */
  function Delivered(kind: Kind, f: Fetch): Option<int> {
    match f
    case Got(bytes) => Some(Decode(kind, bytes))
    case Short => Some(0)
    case Thrown => None
  }

  class ByteBuf {
    var originData: seq<Byte>
    var readerIndex: Int32
    var writerIndex: Int32
    var markedReaderIndex: Int32
    var markedWriterIndex: Int32

    ghost function View(): Data
      reads this
    {
      Data(originData, readerIndex, writerIndex, markedReaderIndex, markedWriterIndex)
    }

    constructor ()
      ensures View() == EMPTY
    {
      originData, readerIndex, writerIndex, markedReaderIndex, markedWriterIndex := [], 0, 0, 0, 0;
    }

    /** A buffer over a copy of `data`, all of it readable. */
    constructor FromBytes(data: seq<Byte>)
      requires |data| <= INT32_MAX
      ensures View() == Data(data, 0, |data|, 0, 0) && Holds(View(), data)
    {
      originData, readerIndex, markedReaderIndex, markedWriterIndex := data, 0, 0, 0;
      writerIndex := |data|;
    }

    /** Copy construction copies the bytes, stale ones included, and all four indexes. */
    constructor Copy(other: ByteBuf)
      ensures View() == other.View()
    {
      originData, readerIndex, writerIndex := other.originData, other.readerIndex, other.writerIndex;
      markedReaderIndex, markedWriterIndex := other.markedReaderIndex, other.markedWriterIndex;
    }

    method Assign(other: ByteBuf)
      modifies this
      ensures View() == if other == this then old(View()) else ByteData.Assign(old(View()), other.View())
    {
      if other != this {
        originData := originData + other.originData;
        readerIndex, writerIndex := other.readerIndex, other.writerIndex;
        markedReaderIndex, markedWriterIndex := other.markedReaderIndex, other.markedWriterIndex;
      }
    }

    // ----- integers into bytes and back

    static method ToBinary(kind: Kind, value: int) returns (result: seq<Byte>)
      requires Supported(kind)
      ensures result == Encode(kind, value)
    {
      result := [];
      for index := 0 to kind.width
        invariant |result| == index
        invariant forall i | 0 <= i < index :: result[i] == Encode(kind, value)[i]
      {
        var shift := if kind.big then kind.width - index - 1 else index;
        result := result + [ShiftRight(value, shift) % 256];
      }
    }

    /** The loop of `getT`, `getTLE`, `readT` and `readTLE`, for the signed type of `width` bytes. */
    method AddBytes(index: nat, width: nat, big: bool) returns (value: int)
      requires index + width <= |originData| && Supported(Kind(width, true, big))
      ensures value == Decode(Kind(width, true, big), originData[index..index + width])
    {
      ghost var s := originData[index..index + width];
      value := 0;
      SmallUnsigned(0, width);
      assert PartialSum(s, 0, big) == 0;
      PartialSumFull(s, big);
      hide PartialSum, ToSigned, BigEndian, LittleEndian;
      for delta := 0 to width
        invariant value == ToSigned(PartialSum(s, delta, big), width)
      {
        var b := originData[delta + index];
        var term := b * Pow256(if big then width - delta - 1 else delta);
        assert b == s[delta];
        AddOneByte(s, delta, big);
        value := ToSigned(value + ToSigned(term, 4), width);
      }
    }

    /** `getT`/`getTLE`: 0 when too few bytes follow `index`; none where the code throws. */
    method GetT(index: Int32, width: nat, big: bool) returns (value: Option<int>)
      requires |originData| <= INT32_MAX && Supported(Kind(width, true, big))
      ensures value == Delivered(Kind(width, true, big), FetchAt(View(), index, width))
    {
      if (|originData| - AsSize(index)) % SIZE_MODULUS < width {
        return Some(0);
      }
      FetchThrows(View(), index, width);
      if AsSize(index) >= |originData| {
        return None;
      }
      FetchInBounds(View(), index, width);
      var v := AddBytes(index, width, big);
      value := Some(v);
    }

    /** `readT`/`readTLE`: the same at the read index, which moves on by `width`. */
    method ReadT(width: nat, big: bool) returns (value: Option<int>)
      requires |originData| <= INT32_MAX && Supported(Kind(width, true, big))
      modifies this`readerIndex
      ensures var (f, d) := ReadFixed(old(View()), width);
              View() == d && value == Delivered(Kind(width, true, big), f)
    {
      if (|originData| - AsSize(readerIndex)) % SIZE_MODULUS < width {
        return Some(0);
      }
      value := GetT(readerIndex, width, big);
      if value.Some? {
        FetchThrows(View(), readerIndex, width);
        readerIndex := readerIndex + width;
      }
    }

    /** `readChar`: the byte as a signed character. */
    method ReadChar() returns (value: Option<int>)
      requires |originData| <= INT32_MAX && CharRepresentable(View())
      modifies this`readerIndex
      ensures var (f, d) := ByteData.ReadChar(old(View()));
              View() == d && forall big :: value == Delivered(Kind(1, true, big), f)
    {
      if (|originData| - AsSize(readerIndex)) % SIZE_MODULUS < 1 {
        return Some(0);
      }
      FetchThrows(View(), readerIndex, 1);
      var at := readerIndex;
      readerIndex := readerIndex + 1;
      if AsSize(at) >= |originData| {
        return None;
      }
      FetchInBounds(old(View()), at, 1);
      ghost var s := originData[at..at + 1];
      assert BigEndian(s) == s[0] && LittleEndian(s) == s[0] by { assert s == [s[0]]; OneByte(s[0]); }
      value := Some(ToSigned(originData[at], 1));
    }

    /** The typed read wrappers: the unsigned ones convert the signed result. */
    method Read(kind: Kind) returns (value: Option<int>)
      requires |originData| <= INT32_MAX && Supported(kind) && (kind.width == 1 ==> CharRepresentable(View()))
      modifies this`readerIndex
      ensures var (f, d) := ReadTyped(old(View()), kind.width); View() == d && value == Delivered(kind, f)
      ensures InBounds(old(View())) ==>
                var (v, d) := ReadValue(old(View()), kind); value == Some(v) && View() == d
    {
      ghost var f := ReadTyped(View(), kind.width).0;
      var signedValue: Option<int>;
      if kind.width == 1 { signedValue := ReadChar(); } else { signedValue := ReadT(kind.width, kind.big); }
      assert signedValue == Delivered(Kind(kind.width, true, kind.big), f);
      value := if kind.signed || signedValue.None? then signedValue else Some(ToUnsigned(signedValue.value, kind.width));
      if f.Got? {
        UnsignedOfSigned(if kind.big then BigEndian(f.bytes) else LittleEndian(f.bytes), kind.width);
      } else {
        SmallUnsigned(0, kind.width);
      }
      if InBounds(old(View())) { ReadTypedInBounds(old(View()), kind.width); }
    }

    // ----- writes and bulk reads

    method SetData(index: Int32, data: seq<Byte>)
      requires |originData| + |data| <= INT32_MAX
      modifies this`originData
      ensures View() == ByteData.SetData(old(View()), index, data)
    {
      if AsSize(index) > |originData| {
        originData := originData + data;
      } else {
        originData := originData[..index] + data + originData[index..];
      }
    }

    method WriteData(data: seq<Byte>)
      requires |originData| + |data| <= INT32_MAX
      modifies this`originData, this`writerIndex
      ensures View() == ByteData.WriteData(old(View()), data)
    {
      if AsSize(writerIndex) > |originData| {
        originData := originData + data;
        writerIndex := |originData|;
      } else {
        originData := originData[..writerIndex] + data + originData[writerIndex..];
        writerIndex := writerIndex + |data|;
      }
    }

    /** The typed write wrappers. */
    method Write(kind: Kind, value: int)
      requires |originData| + kind.width <= INT32_MAX && Supported(kind)
      modifies this`originData, this`writerIndex
      ensures View() == WriteValue(old(View()), Item(kind, value))
    {
      var data := ToBinary(kind, value);
      WriteData(data);
    }

    method WriteZero(length: nat)
      requires |originData| + length <= INT32_MAX
      modifies this`originData, this`writerIndex
      ensures View() == ByteData.WriteData(old(View()), seq(length, _ => 0))
    {
      WriteData(seq(length, _ => 0));
    }

    /** `readBytes`: a new buffer with the bytes read; null where the code throws. */
    method ReadBytes(length: Int32) returns (result: ByteBuf?)
      requires |originData| <= INT32_MAX
      modifies this`readerIndex
      ensures View() == ByteData.ReadBytes(old(View()), length).1
      ensures var f := ByteData.ReadBytes(old(View()), length).0;
              if f.Got? then result != null && fresh(result) && Holds(result.View(), f.bytes) && result.originData == f.bytes
              else result == null
    {
      if AsSize(readerIndex) > |originData| {
        return null;
      }
      var left := |originData| - readerIndex;
      var n := if AsSize(length) < left then AsSize(length) else left;
      var data := originData[readerIndex..readerIndex + n];
      readerIndex := readerIndex + |data|;
      result := new ByteBuf.FromBytes(data);
    }

    // ----- indexes

    method ClearIndexes()
      modifies this`readerIndex, this`writerIndex
      ensures View() == Clear(old(View()))
    {
      readerIndex := 0;
      writerIndex := 0;
    }

    method SetIndexes(reader: Int32, writer: Int32)
      requires |originData| <= INT32_MAX
      modifies this`readerIndex, this`writerIndex
      ensures View() == SetIndex(old(View()), reader, writer)
    {
      if originData == [] {
        return;
      }
      readerIndex, writerIndex := reader, writer;
      if AsSize(readerIndex) >= |originData| {
        readerIndex := |originData| - 1;
      }
      if AsSize(writerIndex) > |originData| {
        writerIndex := |originData|;
      }
    }

    method MarkReaderIndex()
      modifies this`markedReaderIndex
      ensures View() == MarkReader(old(View()))
    {
      markedReaderIndex := readerIndex;
    }

    method MarkWriterIndex()
      modifies this`markedWriterIndex
      ensures View() == MarkWriter(old(View()))
    {
      markedWriterIndex := writerIndex;
    }

    method SetReaderIndex(index: Int32)
      modifies this`readerIndex
      ensures View() == SetReader(old(View()), index)
    {
      if index <= writerIndex {
        readerIndex := index;
      }
    }

    method ResetReaderIndex()
      modifies this`readerIndex
      ensures View() == ResetReader(old(View()))
    {
      readerIndex := markedReaderIndex;
    }

    method SetWriterIndex(index: Int32)
      modifies this`writerIndex
      ensures View() == SetWriter(old(View()), index)
    {
      if AsSize(index) < |originData| {
        writerIndex := index;
      }
    }

    method ResetWriterIndex()
      modifies this`writerIndex
      ensures View() == ResetWriter(old(View()))
    {
      writerIndex := markedWriterIndex;
    }

    method Skip(length: Int32)
      requires |originData| <= INT32_MAX && -0x8000_0000 <= readerIndex + length <= INT32_MAX
      modifies this`readerIndex
      ensures View() == SkipBytes(old(View()), length)
    {
      readerIndex := readerIndex + length;
      if AsSize(readerIndex) > |originData| {
        readerIndex := |originData|;
      }
    }

    /** The number of readable bytes. */
    method ReadableBytes() returns (n: int)
      ensures n == writerIndex - readerIndex
      ensures forall q | Holds(View(), q) :: n == |q|
    {
      n := writerIndex - readerIndex;
    }

    // ----- hexadecimal text

    /** The text of all stored bytes, readable or not, each followed by `fill`. */
    method ToHexString(upper: bool, fill: seq<char>) returns (result: seq<char>)
      ensures result == HexText(originData, upper, fill)
    {
      result := [];
      for i := 0 to |originData|
        invariant result == HexText(originData[..i], upper, fill)
      {
        assert originData[..i + 1][..i] == originData[..i];
        var ch := ToSigned(originData[i], 1);
        result := result + [HexDigit(ch / 16, upper)];
        result := result + [HexDigit(ch % 16, upper)];
        result := result + fill;
        assert result == HexText(originData[..i], upper, fill) + DigitPair(originData[i], upper) + fill;
      }
      assert originData[..|originData|] == originData;
    }

    /**
     The bytes a text spells, an odd last character being dropped. On an empty text the loop bound
     wraps around and the code terminates the program, here null.
     */
    static method FromHex(h: seq<char>) returns (data: ByteBuf?)
      requires |h| <= INT32_MAX
      ensures h == [] <==> data == null
      ensures h != [] ==> fresh(data) && data.View() == Data(PairBytes(h[..|h| - |h| % 2]), 0, |h| / 2, 0, 0)
    {
      if h == [] {
        return null;
      }
      data := new ByteBuf();
      var index := 0;
      while index < |h| - 1
        invariant 0 <= index <= |h| && index % 2 == 0 && fresh(data)
        invariant data.View() == Data(PairBytes(h[..index]), 0, index / 2, 0, 0) && |data.originData| == index / 2
      {
        var ch := PairByte(h[index], h[index + 1]);
        AppendByte(data.originData, ch);
        PairBytesStep(h, index);
        hide PairBytes, PairByte, WriteValue;
        data.Write(Kind(1, true, true), ch);
        index := index + 2;
      }
      assert index == |h| - |h| % 2;
    }
  }

  // ----- the hexadecimal loop

  lemma AppendByte(s: seq<Byte>, b: Byte)
    requires |s| < INT32_MAX
    ensures WriteValue(Data(s, 0, |s|, 0, 0), Item(Kind(1, true, true), b)) == Data(s + [b], 0, |s| + 1, 0, 0)
  {
    assert Encode(Kind(1, true, true), b) == [b];
    assert s[..|s|] + [b] + s[|s|..] == s + [b];
  }

  lemma PairBytesStep(h: seq<char>, n: nat)
    requires n + 2 <= |h| && n % 2 == 0
    ensures PairBytes(h[..n + 2]) == PairBytes(h[..n]) + [PairByte(h[n], h[n + 1])]
  {
    assert h[..n + 2][..n] == h[..n];
  }

  // ----- the accumulation loops

  /** What the loop has added up after `n` bytes. */
  ghost function PartialSum(s: seq<Byte>, n: nat, big: bool): nat
    requires n <= |s|
  {
    if big then BigEndian(s[..n]) * Pow256(|s| - n) else LittleEndian(s[..n])
  }

  lemma SmallUnsigned(v: nat, width: nat)
    requires v < Pow256(width)
    ensures ToUnsigned(v, width) == v
  {
    ModUnique(v, Pow256(width), 0, v);
  }

  lemma OneByte(b: Byte)
    ensures BigEndian([b]) == b && LittleEndian([b]) == b
  {
    assert [b][..0] == [] && [b][1..] == [];
  }

  lemma PartialSumStep(s: seq<Byte>, n: nat, big: bool)
    requires n < |s|
    ensures PartialSum(s, n + 1, big) == PartialSum(s, n, big) + s[n] * Pow256(if big then |s| - n - 1 else n)
  {
    assert s[..n + 1][..n] == s[..n];
    if big {
      var x, p := BigEndian(s[..n]), Pow256(|s| - n - 1);
      assert Pow256(|s| - n) == 256 * p;
      assert BigEndian(s[..n + 1]) == 256 * x + s[n];
      assert (256 * x + s[n]) * p == x * (256 * p) + s[n] * p;
    } else {
      assert s[..n + 1] == s[..n] + [s[n]];
      LittleEndianAppend(s[..n], s[n]);
    }
  }

  /** One round of the loop: the sum in the narrow type is that of the bytes so far. */
  lemma AddOneByte(s: seq<Byte>, n: nat, big: bool)
    requires n < |s| && Supported(Kind(|s|, true, big))
    ensures var term := s[n] * Pow256(if big then |s| - n - 1 else n);
            ToSigned(ToSigned(PartialSum(s, n, big), |s|) + ToSigned(term, 4), |s|) == ToSigned(PartialSum(s, n + 1, big), |s|)
  {
    PartialSumStep(s, n, big);
    hide PartialSum, ToSigned, Pow256;
    AddTruncated(PartialSum(s, n, big), s[n] * Pow256(if big then |s| - n - 1 else n), |s|);
  }

  lemma {:induction false} LittleEndianAppend(s: seq<Byte>, b: Byte)
    ensures LittleEndian(s + [b]) == LittleEndian(s) + b * Pow256(|s|)
  {
    if s == [] {
      OneByte(b);
    } else {
      assert (s + [b])[1..] == s[1..] + [b];
      LittleEndianAppend(s[1..], b);
      assert 256 * (b * Pow256(|s| - 1)) == b * (256 * Pow256(|s| - 1));
    }
  }

  lemma PartialSumFull(s: seq<Byte>, big: bool)
    ensures PartialSum(s, |s|, big) == if big then BigEndian(s) else LittleEndian(s)
  {
    assert s[..|s|] == s;
  }

  lemma SignedPeriodic(v: int, k: int, width: nat)
    ensures ToSigned(v + Pow256(width) * k, width) == ToSigned(v, width)
    ensures ToUnsigned(v + Pow256(width) * k, width) == ToUnsigned(v, width)
  {
    var m := Pow256(width);
    assert v + m * k == m * (v / m + k) + v % m;
    ModUnique(v + m * k, m, v / m + k, v % m);
  }

  lemma SignedCongruent(v: int, width: nat) returns (k: int)
    ensures ToSigned(v, width) == v + Pow256(width) * k
  {
    var m := Pow256(width);
    var q := v / m;
    assert v == m * q + v % m;
    k := if 2 * (v % m) >= m then -q - 1 else -q;
    assert m * (-q) == -(m * q) && m * (-q - 1) == -(m * q) - m;
  }

  /** A 32-bit word has the bytes of every narrower type as its low part. */
  lemma WordSplits(width: nat) returns (c: nat)
    requires width == 1 || width == 2 || width == 4
    ensures Pow256(4) == Pow256(width) * c
  {
    assert Pow256(1) == 256;
    assert Pow256(2) == 0x1_0000;
    assert Pow256(3) == 0x100_0000;
    c := Pow256(4 - width);
  }

  /** Truncating after every addition, and the shifted byte to 32 bits first, loses nothing more. */
  lemma AddTruncated(x: nat, term: nat, width: nat)
    requires width == 1 || width == 2 || width == 4
    ensures ToSigned(ToSigned(x, width) + ToSigned(term, 4), width) == ToSigned(x + term, width)
  {
    var k := SignedCongruent(x, width);
    var j := SignedCongruent(term, 4);
    var c := WordSplits(width);
    var m := Pow256(width);
    assert m * k + m * c * j == m * (k + c * j);
    SignedPeriodic(x + term, k + c * j, width);
  }

  lemma UnsignedOfSigned(n: nat, width: nat)
    ensures ToUnsigned(ToSigned(n, width), width) == ToUnsigned(n, width)
  {
    var k := SignedCongruent(n, width);
    SignedPeriodic(n, k, width);
  }
}
