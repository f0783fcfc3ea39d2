/**
 The log buffer: a fixed array that every `<<` appends one piece to, or drops it whole when it does not fit, and
 that is read back as a C string.
 */
module LogStream {
  import opened NumberText
  import opened Prelude

  const SMALL_BUFFER := 4000
  const MAX_NUMERIC_SIZE := 48

  // ----- the text a sequence of pieces leaves

  /** A piece of text: copied as it is, or formatted in place, for which a fixed reserve is demanded. */
  datatype Piece = Raw(text: string) | Formatted(text: string)

  predicate Fits(text: string, piece: Piece) {
    if piece.Raw? then SMALL_BUFFER - |text| > |piece.text| else SMALL_BUFFER - |text| >= MAX_NUMERIC_SIZE
  }

  function Extend(text: string, piece: Piece): string {
    if Fits(text, piece) then text + piece.text else text
  }

  function Logged(text: string, pieces: seq<Piece>): string
    decreases |pieces|
  {
    if pieces == [] then text else Logged(Extend(text, pieces[0]), pieces[1..])
  }

  /** The pieces that were stored, in order. */
  function Kept(text: string, pieces: seq<Piece>): seq<Piece>
    decreases |pieces|
  {
    if pieces == [] then []
    else (if Fits(text, pieces[0]) then [pieces[0]] else []) + Kept(Extend(text, pieces[0]), pieces[1..])
  }

  function Concat(pieces: seq<Piece>): string {
    if pieces == [] then "" else pieces[0].text + Concat(pieces[1..])
  }

  /** `pieces` in their order, some left out. */
  predicate Subsequence(some: seq<Piece>, pieces: seq<Piece>)
    decreases |pieces|
  {
    if some == [] then true
    else if pieces == [] then false
    else Subsequence(some, pieces[1..]) || (some[0] == pieces[0] && Subsequence(some[1..], pieces[1..]))
  }

  /** The formatted pieces stay below the reserve that is demanded for them. */
  predicate Formattable(pieces: seq<Piece>) {
    forall i | 0 <= i < |pieces| :: pieces[i].Formatted? ==> |pieces[i].text| < MAX_NUMERIC_SIZE
  }

  /** Every piece is stored whole or dropped whole, in order, and at least one character stays free. */
  lemma {:induction false} LoggedIsStored(text: string, pieces: seq<Piece>)
    requires |text| < SMALL_BUFFER && Formattable(pieces)
    ensures Logged(text, pieces) == text + Concat(Kept(text, pieces))
    ensures Subsequence(Kept(text, pieces), pieces)
    ensures |Logged(text, pieces)| < SMALL_BUFFER
    decreases |pieces|
  {
    if pieces == [] {
      assert text + Concat([]) == text;
    } else {
      var more := Extend(text, pieces[0]);
      LoggedIsStored(more, pieces[1..]);
      var rest := Kept(more, pieces[1..]);
      if Fits(text, pieces[0]) {
        var stored := [pieces[0]] + rest;
        assert stored[1..] == rest;
        assert more + Concat(rest) == text + (pieces[0].text + Concat(rest));
      } else {
        assert [] + rest == rest;
        SubsequenceSkip(rest, pieces);
      }
    }
  }

  /** The stored text has a NUL exactly when a stored piece has one. */
  lemma {:induction false} KeptNul(text: string, pieces: seq<Piece>)
    ensures '\0' in Logged(text, pieces) <==> '\0' in text || exists p | p in Kept(text, pieces) :: '\0' in p.text
    decreases |pieces|
  {
    if pieces != [] {
      var first, rest := pieces[0], Kept(Extend(text, pieces[0]), pieces[1..]);
      KeptNul(Extend(text, first), pieces[1..]);
      if Fits(text, first) {
        assert forall p :: p in Kept(text, pieces) <==> p == first || p in rest;
        assert '\0' in text + first.text <==> '\0' in text || '\0' in first.text;
      }
    }
  }

  lemma SubsequenceSkip(some: seq<Piece>, pieces: seq<Piece>)
    requires pieces != [] && Subsequence(some, pieces[1..])
    ensures Subsequence(some, pieces)
  {}

  /** One more piece after a run. */
  lemma {:induction false} LoggedMore(text: string, pieces: seq<Piece>, piece: Piece)
    ensures Logged(text, pieces + [piece]) == Logged(Logged(text, pieces), [piece])
    decreases |pieces|
  {
    if pieces == [] {
      assert pieces + [piece] == [piece];
    } else {
      assert (pieces + [piece])[0] == pieces[0] && (pieces + [piece])[1..] == pieces[1..] + [piece];
      LoggedMore(Extend(text, pieces[0]), pieces[1..], piece);
    }
  }

  /** A string is stored exactly when it leaves a byte free, a formatted piece exactly when 48 bytes are free before it. */
  lemma OneStored(text: string, piece: string)
    requires |text| < 4000
    ensures Logged(text, [Raw(piece)]) == text + piece <==> piece == "" || |text| + |piece| < 4000
    ensures Logged(text, [Formatted(piece)]) == text + piece <==> piece == "" || |text| + 48 <= 4000
    ensures Logged(text, [Raw(piece)]) == text || Logged(text, [Raw(piece)]) == text + piece
    ensures Logged(text, [Formatted(piece)]) == text || Logged(text, [Formatted(piece)]) == text + piece
  {
    OneLogged(text, Raw(piece));
    OneLogged(text, Formatted(piece));
    assert piece != "" ==> |text + piece| > |text|;
    assert text + "" == text;
  }

  lemma OneLogged(text: string, piece: Piece)
    ensures Logged(text, [piece]) == Extend(text, piece)
  {
    assert [piece][1..] == [];
    assert Logged(Extend(text, piece), []) == Extend(text, piece);
  }

  /** Within the capacity less the numeric reserve, everything is stored. */
  lemma {:induction false} AllStored(text: string, pieces: seq<Piece>)
    requires |text| + |Concat(pieces)| + 48 <= 4000
    ensures Logged(text, pieces) == text + Concat(pieces) && Kept(text, pieces) == pieces
    decreases |pieces|
  {
    if pieces == [] {
      assert text + Concat([]) == text;
    } else {
      var first, rest := pieces[0], pieces[1..];
      ConcatAssociative(text, first.text, Concat(rest));
      AllStored(text + first.text, rest);
      assert [first] + rest == pieces;
    }
  }

  // ----- reading the buffer as a C string

  function CString(data: seq<char>): string {
    if data == [] || data[0] == '\0' then "" else [data[0]] + CString(data[1..])
  }

  predicate Zeros(data: seq<char>, from: nat) {
    forall k | from <= k < |data| :: data[k] == '\0'
  }

  /** The C string in a buffer that holds a text and zeros is that text, exactly when the text has no NUL. */
  lemma {:induction false} CStringReads(data: seq<char>, n: nat)
    requires n < |data| && Zeros(data, n)
    ensures CString(data) == data[..n] <==> '\0' !in data[..n]
  {
    if n > 0 {
      var rest := data[1..];
      assert forall k | n - 1 <= k < |rest| :: rest[k] == data[k + 1];
      CStringReads(rest, n - 1);
      assert data[..n] == [data[0]] + rest[..n - 1];
      if data[0] != '\0' {
        assert CString(data)[0] == data[0] && CString(data)[1..] == CString(rest);
        assert data[..n][1..] == rest[..n - 1];
      }
    }
  }

  // ----- the buffer and the stream

  class StreamBuffer {
    const data: array<char>
    var cur: nat

    /** The storage is not initialised. */
    constructor ()
      ensures fresh(data) && data.Length == SMALL_BUFFER && cur == 0
    {
      data := new char[SMALL_BUFFER];
      cur := 0;
    }

    ghost function Text(): string
      reads this, data
      requires cur <= data.Length
    {
      data[..cur]
    }

    /** A text with room for one more character, and zeros behind it. */
    ghost predicate Clean()
      reads this, data
    {
      data.Length == SMALL_BUFFER && cur < SMALL_BUFFER && Zeros(data[..], cur)
    }

    method Bzero()
      requires data.Length == SMALL_BUFFER && cur < SMALL_BUFFER
      modifies data
      ensures Clean() && Text() == seq(cur, _ => '\0')
    {
      forall k | 0 <= k < data.Length {
        data[k] := '\0';
      }
    }

    method Avail() returns (n: int)
      ensures n == data.Length - cur
    {
      n := data.Length - cur;
    }

    method Append(s: string)
      requires Clean()
      modifies this, data
      ensures Clean() && Text() == Extend(old(Text()), Raw(s))
    {
      var avail := Avail();
      if avail > |s| {
        forall k | 0 <= k < |s| {
          data[cur + k] := s[k];
        }
        assert data[..cur + |s|] == old(Text()) + s;
        cur := cur + |s|;
      }
    }

    method Add(len: nat)
      modifies this`cur
      ensures cur == old(cur) + len
    {
      cur := cur + len;
    }
  }

  lemma AddsText(was: seq<char>, now: seq<char>, cur: nat, text: string)
    requires Stored(was, now, cur, text) && Zeros(was, cur)
    ensures now[..cur + |text|] == was[..cur] + text && Zeros(now, cur + |text|)
  {
    assert now[cur..cur + |text|] == text;
  }

  lemma PrefixStored(was: seq<char>, mid: seq<char>, now: seq<char>, cur: nat, text: string)
    requires |mid| == |was| >= cur + 2 && mid == was[cur := '0'][cur + 1 := 'x']
    requires Stored(mid, now, cur + 2, text)
    ensures Stored(was, now, cur, "0x" + text)
  {
    assert now[cur..cur + 2 + |text|] == [now[cur], now[cur + 1]] + now[cur + 2..cur + 2 + |text|];
  }

  /** An argument of `<<`; the text of a `double` is what `snprintf` renders with "%.12g". */
  datatype Arg = Bool(b: bool) | Int(v: int) | Pointer(p: nat) | Double(rendered: string)
               | Char(c: char) | NullCString | Str(s: string)

  predicate Printable(arg: Arg) {
    match arg
    case Int(v) => MIN_INT64 <= v <= MAX_UINT64
    case Pointer(p) => p <= MAX_UINT64
    case Double(rendered) => |rendered| < MAX_NUMERIC_SIZE
    case _ => true
  }

  /** The piece an argument stands for. */
  function PieceOf(arg: Arg): Piece {
    match arg
    case Bool(b) => Raw(if b then "1" else "0")
    case Int(v) => Formatted(IntText(v))
    case Pointer(p) => Formatted("0x" + NatText(p, true))
    case Double(rendered) => Formatted(rendered)
    case Char(c) => Raw([c])
    case NullCString => Raw("(null)")
    case Str(s) => Raw(s)
  }

  function PiecesOf(args: seq<Arg>): seq<Piece> {
    seq(|args|, i requires 0 <= i < |args| => PieceOf(args[i]))
  }

  class LogStream {
    const buffer: StreamBuffer

    constructor ()
      ensures fresh(buffer) && fresh(buffer.data) && buffer.data.Length == SMALL_BUFFER && buffer.cur == 0
    {
      buffer := new StreamBuffer();
    }

    method FormatInteger(v: int)
      requires buffer.Clean() && Printable(Int(v))
      modifies buffer, buffer.data
      ensures buffer.Clean() && buffer.Text() == Extend(old(buffer.Text()), PieceOf(Int(v)))
    {
      IntTextCorrect(v);
      hide IntText, CanonicalInt, ParseInt;
      var avail := buffer.Avail();
      if avail >= MAX_NUMERIC_SIZE {
        ghost var was := buffer.data[..];
        var len := Convert(buffer.data, buffer.cur, v);
        AddsText(was, buffer.data[..], buffer.cur, IntText(v));
        buffer.Add(len);
      }
    }

    method PutPointer(p: nat)
      requires buffer.Clean() && Printable(Pointer(p))
      modifies buffer, buffer.data
      ensures buffer.Clean() && buffer.Text() == Extend(old(buffer.Text()), PieceOf(Pointer(p)))
    {
      HexTextCorrect(p);
      hide NatText, Canonical, ParseDigits;
      var avail := buffer.Avail();
      if avail >= MAX_NUMERIC_SIZE {
        ghost var was := buffer.data[..];
        var cur := buffer.cur;
        buffer.data[cur] := '0';
        buffer.data[cur + 1] := 'x';
        ghost var mid := buffer.data[..];
        var len := ConvertHex(buffer.data, cur + 2, p);
        PrefixStored(was, mid, buffer.data[..], cur, NatText(p, true));
        AddsText(was, buffer.data[..], cur, "0x" + NatText(p, true));
        buffer.Add(len + 2);
      }
    }

    /** `snprintf(current(), kMaxNumericSize, "%.12g", v)`, its rendering given. */
    method PutDouble(rendered: string)
      requires buffer.Clean() && Printable(Double(rendered))
      modifies buffer, buffer.data
      ensures buffer.Clean() && buffer.Text() == Extend(old(buffer.Text()), PieceOf(Double(rendered)))
    {
      var avail := buffer.Avail();
      if avail >= MAX_NUMERIC_SIZE {
        ghost var was := buffer.data[..];
        var cur := buffer.cur;
        forall k | 0 <= k < |rendered| {
          buffer.data[cur + k] := rendered[k];
        }
        buffer.data[cur + |rendered|] := '\0';
        AddsText(was, buffer.data[..], cur, rendered);
        buffer.Add(|rendered|);
      }
    }

    /** The overloads of `<<`. */
    method Put(arg: Arg)
      requires buffer.Clean() && Printable(arg)
      modifies buffer, buffer.data
      ensures buffer.Clean() && buffer.Text() == Extend(old(buffer.Text()), PieceOf(arg))
    {
      match arg
      case Bool(b) => buffer.Append(if b then "1" else "0");
      case Int(v) => FormatInteger(v);
      case Pointer(p) => PutPointer(p);
      case Double(rendered) => PutDouble(rendered);
      case Char(c) => buffer.Append([c]);
      case NullCString => buffer.Append("(null)");
      case Str(s) => buffer.Append(s);
    }

    /** A whole log line on a fresh stream: zero the buffer, then `<<` after `<<`. */
    method Log(args: seq<Arg>)
      requires buffer.data.Length == SMALL_BUFFER && buffer.cur == 0
      requires forall i | 0 <= i < |args| :: Printable(args[i])
      modifies buffer, buffer.data
      ensures buffer.Clean() && buffer.Text() == Logged("", PiecesOf(args))
      ensures CString(buffer.data[..]) == Logged("", PiecesOf(args)) <==>
              forall p | p in Kept("", PiecesOf(args)) :: '\0' !in p.text
    {
      buffer.Bzero();
      var i := 0;
      while i < |args|
        invariant 0 <= i <= |args| && buffer.Clean()
        invariant Logged(buffer.Text(), PiecesOf(args)[i..]) == Logged("", PiecesOf(args))
      {
        Put(args[i]);
        assert PiecesOf(args)[i..][1..] == PiecesOf(args)[i + 1..];
        i := i + 1;
      }
      CStringReads(buffer.data[..], buffer.cur);
      KeptNul("", PiecesOf(args));
      assert buffer.data[..][..buffer.cur] == buffer.Text();
    }
  }

  /** So the log line is the stored arguments, whole and in order. */
  lemma LogLine(args: seq<Arg>)
    requires forall i | 0 <= i < |args| :: Printable(args[i])
    ensures var pieces := PiecesOf(args);
            && Logged("", pieces) == Concat(Kept("", pieces))
            && Subsequence(Kept("", pieces), pieces)
            && |Logged("", pieces)| < SMALL_BUFFER
  {
    var pieces := PiecesOf(args);
    forall i | 0 <= i < |pieces| ensures pieces[i].Formatted? ==> |pieces[i].text| < MAX_NUMERIC_SIZE {
      if args[i].Int? { IntTextCorrect(args[i].v); }
      if args[i].Pointer? { HexTextCorrect(args[i].p); }
    }
    LoggedIsStored("", pieces);
  }

  /** A log line whose texts leave the numeric reserve free is stored entirely. */
  lemma LineComplete(args: seq<Arg>)
    requires |Concat(PiecesOf(args))| + 48 <= 4000
    ensures Logged("", PiecesOf(args)) == Concat(PiecesOf(args))
  {
    AllStored("", PiecesOf(args));
    assert "" + Concat(PiecesOf(args)) == Concat(PiecesOf(args));
  }

  /** A truth value prints as the number 1 or 0 does, a null pointer to characters as six characters. */
  lemma PlainPieces(b: bool)
    ensures PieceOf(Bool(b)).text == IntText(if b then 1 else 0)
    ensures PieceOf(NullCString).text == ['(', 'n', 'u', 'l', 'l', ')']
  {
    var n := if b then 1 else 0;
    NatTextStep(n, false);
    assert IntText(n) == [DigitChar(n)];
  }
}
