/**
 The state of a `ByteBuf` as a value, every operation on it as a function of that state,
 and what holds over whole runs of operations.

 The four indexes are `int32_t` while `originData.length()` is a `size_t`, so the comparisons
 in the code convert a negative index to a huge number first; `AsSize` is that conversion.
 */
module ByteData {
  import opened IntCodec
  import opened Prelude

  type Int32 = x: int | -0x8000_0000 <= x < 0x8000_0000

  const INT32_MAX := 0x7fff_ffff
  const SIZE_MODULUS := 0x1_0000_0000_0000_0000

  /** The conversion `int32_t` to `size_t`. */
  function AsSize(i: Int32): nat {
    if i < 0 then i + SIZE_MODULUS else i
  }

  datatype Data = Data(origin: seq<Byte>, reader: Int32, writer: Int32, markedReader: Int32, markedWriter: Int32)

  const EMPTY := Data([], 0, 0, 0, 0)

  /** What a read delivers: bytes, nothing because too few are stored, or an out-of-range exception. */
  datatype Fetch = Got(bytes: seq<Byte>) | Short | Thrown

  // ----- the operations

  /** A write inserts at the write index, or appends when that index lies beyond the data. */
  function WriteData(d: Data, s: seq<Byte>): Data
    requires |d.origin| + |s| <= INT32_MAX
  {
    if AsSize(d.writer) > |d.origin| then
      d.(origin := d.origin + s, writer := |d.origin| + |s|)
    else
      d.(origin := d.origin[..d.writer] + s + d.origin[d.writer..], writer := d.writer + |s|)
  }

  function SetData(d: Data, index: Int32, s: seq<Byte>): Data
    requires |d.origin| <= INT32_MAX
  {
    if AsSize(index) > |d.origin| then d.(origin := d.origin + s)
    else d.(origin := d.origin[..index] + s + d.origin[index..])
  }

  /** `n` bytes from `index`; the length test is done in `size_t` arithmetic and may wrap around. */
  function FetchAt(d: Data, index: Int32, n: nat): Fetch {
    if (|d.origin| - AsSize(index)) % SIZE_MODULUS < n then Short
    else if 0 <= index && index + n <= |d.origin| then Got(d.origin[index..index + n])
    else Thrown
  }

  /** A typed read: consumes `n` bytes or leaves the index alone. */
  function ReadFixed(d: Data, n: nat): (Fetch, Data)
    requires n <= 8
  {
    var f := FetchAt(d, d.reader, n);
    (f, if f.Got? && d.reader + n <= INT32_MAX then d.(reader := d.reader + n) else d)
  }

  /** `readChar` moves the index on before it looks at the byte, and so even when that throws. */
  function ReadChar(d: Data): (Fetch, Data)
    requires CharRepresentable(d)
  {
    var f := FetchAt(d, d.reader, 1);
    (f, if f.Short? then d else d.(reader := d.reader + 1))
  }

  /** The index that `readChar` increments stays an `int32_t`. */
  predicate CharRepresentable(d: Data) {
    FetchAt(d, d.reader, 1).Short? || d.reader < INT32_MAX
  }

  /** The typed reads: `readChar` for one byte, `readT` and `readTLE` for more. */
  function ReadTyped(d: Data, n: nat): (Fetch, Data)
    requires n <= 8 && (n == 1 ==> CharRepresentable(d))
  {
    if n == 1 then ReadChar(d) else ReadFixed(d, n)
  }

  /** `readBytes`: at most `length` bytes of everything stored, a negative length meaning all of it. */
  function ReadBytes(d: Data, length: Int32): (Fetch, Data)
    requires |d.origin| <= INT32_MAX
  {
    if AsSize(d.reader) > |d.origin| then (Thrown, d)
    else
      var left := |d.origin| - d.reader;
      var n := if AsSize(length) < left then AsSize(length) else left;
      (Got(d.origin[d.reader..d.reader + n]), d.(reader := d.reader + n))
  }

  function Clear(d: Data): Data { d.(reader := 0, writer := 0) }

  function SetIndex(d: Data, reader: Int32, writer: Int32): Data
    requires |d.origin| <= INT32_MAX
  {
    if d.origin == [] then d
    else d.(reader := if AsSize(reader) >= |d.origin| then |d.origin| - 1 else reader,
            writer := if AsSize(writer) > |d.origin| then |d.origin| else writer)
  }

  function MarkReader(d: Data): Data { d.(markedReader := d.reader) }

  function MarkWriter(d: Data): Data { d.(markedWriter := d.writer) }

  function SetReader(d: Data, index: Int32): Data {
    if index <= d.writer then d.(reader := index) else d
  }

  function ResetReader(d: Data): Data { d.(reader := d.markedReader) }

  function SetWriter(d: Data, index: Int32): Data {
    if AsSize(index) < |d.origin| then d.(writer := index) else d
  }

  function ResetWriter(d: Data): Data { d.(writer := d.markedWriter) }

  function SkipBytes(d: Data, length: Int32): Data
    requires |d.origin| <= INT32_MAX
    requires -0x8000_0000 <= d.reader + length <= INT32_MAX
  {
    var r := d.reader + length;
    d.(reader := if AsSize(r) > |d.origin| then |d.origin| else r)
  }

  /** Copy assignment appends the other buffer's bytes and takes over its indexes. */
  function Assign(d: Data, other: Data): Data {
    other.(origin := d.origin + other.origin)
  }

  // ----- bounds over the whole machine

  /** All four indexes point into the stored bytes. */
  predicate InBounds(d: Data) {
    && |d.origin| <= INT32_MAX
    && 0 <= d.reader <= |d.origin| && 0 <= d.writer <= |d.origin|
    && 0 <= d.markedReader <= |d.origin| && 0 <= d.markedWriter <= |d.origin|
  }

  datatype Op =
    | WriteOp(s: seq<Byte>)
    | SetOp(index: Int32, s: seq<Byte>)
    | GetOp(index: Int32, n: nat)
    | ReadOp(n: nat)
    | ReadBytesOp(length: Int32)
    | ClearOp
    | SetIndexOp(newReader: Int32, newWriter: Int32)
    | MarkReaderOp
    | MarkWriterOp
    | SetReaderOp(newReader: Int32)
    | ResetReaderOp
    | SetWriterOp(newWriter: Int32)
    | ResetWriterOp
    | SkipOp(length: Int32)
    | AssignOp(other: Data)

  /** What the `int32_t` arithmetic demands: the sizes and sums stay representable. */
  predicate Representable(d: Data, op: Op) {
    match op
    case WriteOp(s) => |d.origin| + |s| <= INT32_MAX
    case SetOp(_, s) => |d.origin| + |s| <= INT32_MAX
    case GetOp(index, n) => 1 <= n <= 8
    case ReadOp(n) => 1 <= n <= 8 && (n == 1 ==> CharRepresentable(d))
    case SkipOp(length) => -0x8000_0000 <= d.reader + length <= INT32_MAX && |d.origin| <= INT32_MAX
    case AssignOp(other) => InBounds(other) && |d.origin| + |other.origin| <= INT32_MAX
    case _ => |d.origin| <= INT32_MAX
  }

  function Operate(d: Data, op: Op): (Fetch, Data)
    requires Representable(d, op)
  {
    match op
    case WriteOp(s) => (Short, WriteData(d, s))
    case SetOp(index, s) => (Short, SetData(d, index, s))
    case GetOp(index, n) => (FetchAt(d, index, n), d)
    case ReadOp(n) => ReadTyped(d, n)
    case ReadBytesOp(length) => ReadBytes(d, length)
    case ClearOp => (Short, Clear(d))
    case SetIndexOp(r, w) => (Short, SetIndex(d, r, w))
    case MarkReaderOp => (Short, MarkReader(d))
    case MarkWriterOp => (Short, MarkWriter(d))
    case SetReaderOp(i) => (Short, SetReader(d, i))
    case ResetReaderOp => (Short, ResetReader(d))
    case SetWriterOp(i) => (Short, SetWriter(d, i))
    case ResetWriterOp => (Short, ResetWriter(d))
    case SkipOp(length) => (Short, SkipBytes(d, length))
    case AssignOp(other) => (Short, Assign(d, other))
  }

  /** A typed read inside the bounds never throws: it delivers exactly when enough bytes are stored. */
  lemma FetchInBounds(d: Data, index: Int32, n: nat)
    requires |d.origin| <= INT32_MAX && 0 <= index <= |d.origin|
    ensures FetchAt(d, index, n) ==
            if index + n <= |d.origin| then Got(d.origin[index..index + n]) else Short
  {
    assert (|d.origin| - index) % SIZE_MODULUS == |d.origin| - index;
  }

  /** A typed get at any index throws exactly when the index lies past the stored bytes, or far enough before them. */
  lemma FetchThrows(d: Data, index: Int32, n: nat)
    requires |d.origin| <= INT32_MAX && 1 <= n <= 8
    ensures FetchAt(d, index, n).Thrown? <==> index > |d.origin| || (index < 0 && |d.origin| - index >= n)
  {
    var left := |d.origin| - index;
    if index > |d.origin| {
      assert (|d.origin| - AsSize(index)) % SIZE_MODULUS == SIZE_MODULUS + left;
    } else if index < 0 {
      WrapsOnce(left);
    } else {
      FetchInBounds(d, index, n);
    }
  }

  lemma WrapsOnce(left: nat)
    requires left < SIZE_MODULUS
    ensures (left - SIZE_MODULUS) % SIZE_MODULUS == left
  {}

  /** Inside the bounds the typed reads of one byte and of more are alike. */
  lemma ReadTypedInBounds(d: Data, n: nat)
    requires InBounds(d) && 1 <= n <= 8
    ensures CharRepresentable(d) && ReadTyped(d, n) == ReadFixed(d, n) && !ReadFixed(d, n).0.Thrown?
  {
    FetchInBounds(d, d.reader, n);
    FetchInBounds(d, d.reader, 1);
  }

  /** An operation keeps the indexes in bounds unless it is the read-index setter with a negative index. */
  lemma StepInBounds(d: Data, op: Op)
    requires InBounds(d) && Representable(d, op)
    ensures InBounds(Operate(d, op).1) <==> !(op.SetReaderOp? && op.newReader < 0)
    ensures (op.ReadOp? || op.ReadBytesOp?) ==> !Operate(d, op).0.Thrown?
    ensures op.GetOp? ==>
              (Operate(d, op).0.Thrown? <==> op.index > |d.origin| || (op.index < 0 && |d.origin| - op.index >= op.n))
  {
    if op.ReadOp? {
      FetchInBounds(d, d.reader, op.n);
      ReadTypedInBounds(d, op.n);
    }
    if op.GetOp? { FetchThrows(d, op.index, op.n); }
  }

  /** Inside the bounds `readBytes` never throws: it takes `length` bytes, or all that are left if there are fewer. */
  lemma ReadBytesDelivers(d: Data, length: Int32)
    requires InBounds(d)
    ensures var (f, d') := ReadBytes(d, length);
            && f.Got? && d' == d.(reader := d.reader + |f.bytes|) && InBounds(d')
            && f.bytes <= d.origin[d.reader..]
            && (if 0 <= length <= |d.origin| - d.reader then |f.bytes| == length else f.bytes == d.origin[d.reader..])
  {}

  /** Anywhere, `readBytes` throws exactly when the read index lies outside the stored bytes, and then does nothing. */
  lemma ReadBytesThrows(d: Data, length: Int32)
    requires |d.origin| <= INT32_MAX
    ensures ReadBytes(d, length).0.Thrown? <==> d.reader < 0 || d.reader > |d.origin|
    ensures ReadBytes(d, length).0.Thrown? ==> ReadBytes(d, length).1 == d
  {}

  /** `readChar` differs from the other typed reads exactly where it throws, outside the stored bytes. */
  lemma ReadCharExact(d: Data)
    requires |d.origin| <= INT32_MAX && CharRepresentable(d)
    ensures ReadChar(d).0 == ReadFixed(d, 1).0
    ensures ReadChar(d) == ReadFixed(d, 1) <==> 0 <= d.reader <= |d.origin|
  {
    FetchThrows(d, d.reader, 1);
    if 0 <= d.reader <= |d.origin| { FetchInBounds(d, d.reader, 1); }
  }

  predicate RunRepresentable(d: Data, ops: seq<Op>)
    decreases |ops|
  {
    ops != [] ==> Representable(d, ops[0]) && RunRepresentable(Operate(d, ops[0]).1, ops[1..])
  }

  /** Everything the reads of a run delivered, and the state the run leaves. */
  function Run(d: Data, ops: seq<Op>): (seq<Fetch>, Data)
    requires RunRepresentable(d, ops)
    decreases |ops|
  {
    if ops == [] then ([], d)
    else
      var (f, d') := Operate(d, ops[0]);
      var (fs, d'') := Run(d', ops[1..]);
      ([f] + fs, d'')
  }

  /** Over every run without a negative read-index setter: always in bounds, and no read throws. */
  lemma {:induction false} RunInBounds(d: Data, ops: seq<Op>)
    requires InBounds(d) && RunRepresentable(d, ops)
    requires forall op | op in ops :: op.SetReaderOp? ==> op.newReader >= 0
    ensures InBounds(Run(d, ops).1)
    ensures |Run(d, ops).0| == |ops|
    ensures forall i | 0 <= i < |ops| :: ops[i].ReadOp? || ops[i].ReadBytesOp? ==> !Run(d, ops).0[i].Thrown?
    decreases |ops|
  {
    if ops != [] {
      StepInBounds(d, ops[0]);
      RunInBounds(Operate(d, ops[0]).1, ops[1..]);
    }
  }

  // ----- single operations

  /** Wherever the write index is, a write puts its bytes right before the new one, and moves none of the others. */
  lemma WriteInserts(d: Data, s: seq<Byte>)
    requires |d.origin| + |s| <= INT32_MAX
    ensures var d' := WriteData(d, s);
            && d' == d.(origin := d'.origin, writer := d'.writer) && |s| <= d'.writer <= |d'.origin|
            && d'.writer == (if 0 <= d.writer <= |d.origin| then d.writer else |d.origin|) + |s|
            && d'.origin[d'.writer - |s|..d'.writer] == s
            && d'.origin[..d'.writer - |s|] + d'.origin[d'.writer..] == d.origin
  {
    var d' := WriteData(d, s);
    var at := d'.writer - |s|;
    assert d.origin == d.origin[..at] + d.origin[at..];
    assert d'.origin == d.origin[..at] + s + d.origin[at..];
  }

  /** Data set at an index inside the stored bytes stands there, between what was before and behind it. */
  lemma SetDataExact(d: Data, index: Int32, s: seq<Byte>)
    requires |d.origin| + |s| <= INT32_MAX
    ensures var o := SetData(d, index, s).origin;
            && SetData(d, index, s) == d.(origin := o) && |o| == |d.origin| + |s|
            && (0 <= index <= |d.origin| ==>
                  o[..index] == d.origin[..index] && o[index..index + |s|] == s && o[index + |s|..] == d.origin[index..])
            && (index < 0 || index > |d.origin| ==> o[..|d.origin|] == d.origin && o[|d.origin|..] == s)
  {}

  /** A value set at an index is what a typed get finds there. */
  lemma SetThenGet(d: Data, index: Int32, kind: Kind, v: int)
    requires |d.origin| + kind.width <= INT32_MAX && 0 <= index <= |d.origin| && Supported(kind) && Fits(kind, v)
    ensures FetchAt(SetData(d, index, Encode(kind, v)), index, kind.width) == Got(Encode(kind, v))
    ensures Decode(kind, Encode(kind, v)) == v
  {
    var d' := SetData(d, index, Encode(kind, v));
    SetDataExact(d, index, Encode(kind, v));
    FetchInBounds(d', index, kind.width);
    DecodeEncode(kind, v);
  }

  /** `setIndex` takes over what points into the data, and the nearest end for what does not. */
  lemma SetIndexExact(d: Data, reader: Int32, writer: Int32)
    requires |d.origin| <= INT32_MAX
    ensures var d' := SetIndex(d, reader, writer);
            if d.origin == [] then d' == d
            else
              && d' == d.(reader := d'.reader, writer := d'.writer)
              && d'.reader == (if 0 <= reader < |d.origin| then reader else |d.origin| - 1)
              && d'.writer == (if 0 <= writer <= |d.origin| then writer else |d.origin|)
  {}

  /** The setters of one index take over what the code lets through, and change nothing else. */
  lemma SettersExact(d: Data, index: Int32)
    requires |d.origin| <= INT32_MAX
    ensures SetWriter(d, index) == d.(writer := if 0 <= index < |d.origin| then index else d.writer)
    ensures SetReader(d, index) == d.(reader := if index <= d.writer then index else d.reader)
  {}

  /** Resetting goes back to the last mark, whatever was done since. */
  lemma {:induction false} MarksStay(d: Data, ops: seq<Op>)
    requires RunRepresentable(d, ops)
    ensures var v := Run(d, ops).1;
            && (MarkReaderOp !in ops && (forall op | op in ops :: !op.AssignOp?) ==> ResetReader(v).reader == d.markedReader)
            && (MarkWriterOp !in ops && (forall op | op in ops :: !op.AssignOp?) ==> ResetWriter(v).writer == d.markedWriter)
    decreases |ops|
  {
    if ops != [] {
      var op, d' := ops[0], Operate(d, ops[0]).1;
      assert op != MarkReaderOp && !op.AssignOp? ==> d'.markedReader == d.markedReader;
      assert op != MarkWriterOp && !op.AssignOp? ==> d'.markedWriter == d.markedWriter;
      MarksStay(d', ops[1..]);
      hide Operate;
    }
  }

  /** A mark is where the index was. */
  lemma MarkThenReset(d: Data, reader: Int32, writer: Int32)
    ensures ResetReader(MarkReader(d).(reader := reader)) == MarkReader(d)
    ensures ResetWriter(MarkWriter(d).(writer := writer)) == MarkWriter(d)
    ensures MarkReader(d).markedReader == d.reader && MarkWriter(d).markedWriter == d.writer
  {}

  /** Skipping is reading without looking at what is read. */
  lemma SkipIsRead(d: Data, length: Int32)
    requires InBounds(d) && length >= 0 && d.reader + length <= INT32_MAX
    ensures SkipBytes(d, length) == ReadBytes(d, length).1
  {}

  /** Assigning to an empty buffer copies; otherwise the old bytes stay in front, under the new indexes. */
  lemma AssignExact(d: Data, other: Data, q: seq<Byte>)
    requires Holds(other, q)
    ensures d.origin == [] ==> Assign(d, other) == other && Holds(Assign(d, other), q)
    ensures Assign(d, other) == other.(origin := d.origin + other.origin)
    ensures (d.origin + other.origin)[|d.origin| + other.reader..|d.origin| + other.writer] == q
  {
    var both, n := d.origin + other.origin, |d.origin|;
    assert d.origin == [] ==> both == other.origin;
    assert both[n..] == other.origin;
    assert both[n..][other.reader..other.writer] == both[n + other.reader..n + other.writer];
  }

  // ----- the buffer as a queue

  /** The readable bytes are exactly `q`, whatever stale bytes surround them. */
  predicate Holds(d: Data, q: seq<Byte>) {
    && InBounds(d)
    && d.reader <= d.writer
    && d.origin[d.reader..d.writer] == q
  }

  lemma WriteAppends(d: Data, q: seq<Byte>, s: seq<Byte>)
    requires Holds(d, q) && |d.origin| + |s| <= INT32_MAX
    ensures Holds(WriteData(d, s), q + s) && |WriteData(d, s).origin| == |d.origin| + |s|
  {
    var o := WriteData(d, s).origin;
    assert o[d.reader..d.writer + |s|] == d.origin[d.reader..d.writer] + s;
  }

  lemma SliceOfSlice(o: seq<Byte>, lo: nat, hi: nat, n: nat)
    requires lo + n <= hi <= |o|
    ensures o[lo..hi][..n] == o[lo..lo + n] && o[lo..hi][n..] == o[lo + n..hi]
  {}

  lemma ReadFixedTakes(d: Data, q: seq<Byte>, n: nat)
    requires Holds(d, q) && n <= |q| && n <= 8
    ensures ReadFixed(d, n).0 == Got(q[..n]) && Holds(ReadFixed(d, n).1, q[n..])
  {
    FetchInBounds(d, d.reader, n);
    SliceOfSlice(d.origin, d.reader, d.writer, n);
  }

  lemma ReadBytesTakes(d: Data, q: seq<Byte>, n: Int32)
    requires Holds(d, q) && 0 <= n <= |q|
    ensures ReadBytes(d, n).0 == Got(q[..n]) && Holds(ReadBytes(d, n).1, q[n..])
  {
    SliceOfSlice(d.origin, d.reader, d.writer, n);
  }

  datatype QueueOp = Put(s: seq<Byte>) | TakeFixed(n: nat) | TakeBytes(n: nat) | Wipe

  /** The bytes an operation writes. */
  function Input(op: QueueOp): seq<Byte> {
    if op.Put? then op.s else []
  }

  /** A read asks for no more than is readable; the typed reads take at most 8 bytes. */
  predicate CanTake(q: seq<Byte>, op: QueueOp) {
    && (op.TakeFixed? ==> op.n <= |q| && op.n <= 8)
    && (op.TakeBytes? ==> op.n <= |q|)
  }

  /** One operation on the abstract queue: what it returns, and the queue it leaves. */
  function QueueStep(q: seq<Byte>, op: QueueOp): (seq<seq<Byte>>, seq<Byte>)
    requires CanTake(q, op)
  {
    match op
    case Put(s) => ([], q + s)
    case Wipe => ([], [])
    case TakeFixed(n) => ([q[..n]], q[n..])
    case TakeBytes(n) => ([q[..n]], q[n..])
  }

  predicate Sized(d: Data, op: QueueOp) {
    && |d.origin| + |Input(op)| <= INT32_MAX
    && (op.TakeFixed? ==> op.n <= 8)
    && (op.TakeBytes? ==> op.n <= INT32_MAX)
  }

  /** One operation on the real buffer; an exception shows as no bytes. */
  function BufferStep(d: Data, op: QueueOp): (seq<seq<Byte>>, Data)
    requires Sized(d, op)
  {
    match op
    case Put(s) => ([], WriteData(d, s))
    case Wipe => ([], Clear(d))
    case TakeFixed(n) => var (f, d') := ReadFixed(d, n); ([if f.Got? then f.bytes else []], d')
    case TakeBytes(n) => var (f, d') := ReadBytes(d, n); ([if f.Got? then f.bytes else []], d')
  }

  predicate WithinReadable(q: seq<Byte>, ops: seq<QueueOp>)
    decreases |ops|
  {
    ops != [] ==> CanTake(q, ops[0]) && WithinReadable(QueueStep(q, ops[0]).1, ops[1..])
  }

  function RunQueue(q: seq<Byte>, ops: seq<QueueOp>): (seq<seq<Byte>>, seq<Byte>)
    requires WithinReadable(q, ops)
    decreases |ops|
  {
    if ops == [] then ([], q)
    else
      var (out, q') := QueueStep(q, ops[0]);
      var (outs, q'') := RunQueue(q', ops[1..]);
      (out + outs, q'')
  }

  /** The run on the real buffer, up to the first operation whose sizes are not representable. */
  function RunBuffer(d: Data, ops: seq<QueueOp>): (seq<seq<Byte>>, Data)
    decreases |ops|
  {
    if ops == [] || !Sized(d, ops[0]) then ([], d)
    else
      var (out, d') := BufferStep(d, ops[0]);
      var (outs, d'') := RunBuffer(d', ops[1..]);
      (out + outs, d'')
  }

  /** All bytes a run writes. */
  function Written(ops: seq<QueueOp>): seq<Byte> {
    if ops == [] then [] else Input(ops[0]) + Written(ops[1..])
  }

  lemma StepRefines(d: Data, q: seq<Byte>, op: QueueOp)
    requires Holds(d, q) && CanTake(q, op) && |d.origin| + |Input(op)| <= INT32_MAX
    ensures Sized(d, op) && BufferStep(d, op).0 == QueueStep(q, op).0
    ensures Holds(BufferStep(d, op).1, QueueStep(q, op).1)
    ensures |BufferStep(d, op).1.origin| == |d.origin| + |Input(op)|
  {
    match op
    case Put(s) => WriteAppends(d, q, s);
    case Wipe =>
    case TakeFixed(n) => ReadFixedTakes(d, q, n);
    case TakeBytes(n) => ReadBytesTakes(d, q, n);
  }

  /** A buffer behaves as the queue it holds, over any interleaving of writes, reads and `clear`. */
  lemma {:induction false} QueueRefinement(d: Data, q: seq<Byte>, ops: seq<QueueOp>)
    requires Holds(d, q) && WithinReadable(q, ops)
    requires |d.origin| + |Written(ops)| <= INT32_MAX
    ensures RunBuffer(d, ops).0 == RunQueue(q, ops).0
    ensures Holds(RunBuffer(d, ops).1, RunQueue(q, ops).1)
    decreases |ops|
  {
    if ops != [] {
      StepRefines(d, q, ops[0]);
      QueueRefinement(BufferStep(d, ops[0]).1, QueueStep(q, ops[0]).1, ops[1..]);
    }
  }

  /** One operation other than `clear` keeps what lies between the mark and the write index, plus what it writes. */
  lemma StepSinceMark(d: Data, q: seq<Byte>, op: QueueOp, h: seq<Byte>)
    requires Holds(d, q) && Holds(ResetReader(d), h) && d.markedReader <= d.reader
    requires op != Wipe && CanTake(q, op) && Sized(d, op)
    ensures var d' := BufferStep(d, op).1;
            Holds(ResetReader(d'), h + Input(op)) && d'.markedReader == d.markedReader <= d'.reader
  {
    match op
    case Put(s) => WriteAppends(ResetReader(d), h, s);
    case TakeFixed(n) => ReadFixedTakes(d, q, n); assert h + Input(op) == h;
    case TakeBytes(n) => ReadBytesTakes(d, q, n); assert h + Input(op) == h;
  }

  lemma {:induction false} SinceMark(d: Data, q: seq<Byte>, ops: seq<QueueOp>, h: seq<Byte>)
    requires Holds(d, q) && WithinReadable(q, ops) && Wipe !in ops
    requires |d.origin| + |Written(ops)| <= INT32_MAX
    requires Holds(ResetReader(d), h) && d.markedReader <= d.reader
    ensures Holds(ResetReader(RunBuffer(d, ops).1), h + Written(ops))
    decreases |ops|
  {
    if ops == [] {
      assert h + Written(ops) == h;
    } else {
      var op, rest := ops[0], ops[1..];
      StepRefines(d, q, op);
      StepSinceMark(d, q, op, h);
      SinceMark(BufferStep(d, op).1, QueueStep(q, op).1, rest, h + Input(op));
      ConcatAssociative(h, Input(op), Written(rest));
    }
  }

  /** Mark, then reads and writes, then reset: readable again is all from the mark plus all later writes. */
  lemma MarkReset(d: Data, q: seq<Byte>, ops: seq<QueueOp>)
    requires Holds(d, q) && WithinReadable(q, ops) && Wipe !in ops
    requires |d.origin| + |Written(ops)| <= INT32_MAX
    ensures Holds(ResetReader(RunBuffer(MarkReader(d), ops).1), q + Written(ops))
  {
    SinceMark(MarkReader(d), q, ops, q);
  }

  // ----- values in and out

  datatype Item = Item(kind: Kind, value: int)

  predicate Storable(item: Item) {
    Supported(item.kind) && Fits(item.kind, item.value)
  }

  function Encodings(items: seq<Item>): seq<Byte> {
    if items == [] then [] else Encode(items[0].kind, items[0].value) + Encodings(items[1..])
  }

  function Values(items: seq<Item>): seq<int> {
    if items == [] then [] else [items[0].value] + Values(items[1..])
  }

  function Kinds(items: seq<Item>): (kinds: seq<Kind>)
    ensures AllStorable(items) ==> AllSupported(kinds)
  {
    if items == [] then [] else [items[0].kind] + Kinds(items[1..])
  }

  predicate AllStorable(items: seq<Item>) {
    forall i | 0 <= i < |items| :: Storable(items[i])
  }

  predicate AllSupported(kinds: seq<Kind>) {
    forall i | 0 <= i < |kinds| :: Supported(kinds[i])
  }

  function WriteValue(d: Data, item: Item): Data
    requires |d.origin| + item.kind.width <= INT32_MAX
  {
    WriteData(d, Encode(item.kind, item.value))
  }

  /** A typed read: the decoded value, or 0 when too few bytes are stored. */
  function ReadValue(d: Data, kind: Kind): (int, Data)
    requires InBounds(d) && Supported(kind)
  {
    var (f, d') := ReadFixed(d, kind.width);
    (if f.Got? then Decode(kind, f.bytes) else 0, d')
  }

  function WriteAll(d: Data, items: seq<Item>): Data
    requires |d.origin| + |Encodings(items)| <= INT32_MAX
    decreases |items|
  {
    if items == [] then d else WriteAll(WriteValue(d, items[0]), items[1..])
  }

  function ReadAll(d: Data, kinds: seq<Kind>): (seq<int>, Data)
    requires InBounds(d) && AllSupported(kinds)
    decreases |kinds|
  {
    if kinds == [] then ([], d)
    else
      StepInBounds(d, ReadOp(kinds[0].width));
      var (v, d') := ReadValue(d, kinds[0]);
      var (vs, d'') := ReadAll(d', kinds[1..]);
      ([v] + vs, d'')
  }

  lemma {:induction false} WriteAllAppends(d: Data, q: seq<Byte>, items: seq<Item>)
    requires Holds(d, q) && |d.origin| + |Encodings(items)| <= INT32_MAX
    ensures Holds(WriteAll(d, items), q + Encodings(items))
    decreases |items|
  {
    if items == [] {
      assert q + Encodings(items) == q;
    } else {
      var e := Encode(items[0].kind, items[0].value);
      WriteAppends(d, q, e);
      WriteAllAppends(WriteValue(d, items[0]), q + e, items[1..]);
      ConcatAssociative(q, e, Encodings(items[1..]));
    }
  }

  lemma ReadValueDecodes(d: Data, item: Item, rest: seq<Byte>)
    requires Storable(item) && Holds(d, Encode(item.kind, item.value) + rest)
    ensures ReadValue(d, item.kind).0 == item.value && Holds(ReadValue(d, item.kind).1, rest)
  {
    var e := Encode(item.kind, item.value);
    assert (e + rest)[..|e|] == e && (e + rest)[|e|..] == rest;
    ReadFixedTakes(d, e + rest, |e|);
    DecodeEncode(item.kind, item.value);
  }

  lemma {:induction false} ReadAllDecodes(d: Data, items: seq<Item>, rest: seq<Byte>)
    requires AllStorable(items)
    requires Holds(d, Encodings(items) + rest)
    ensures ReadAll(d, Kinds(items)).0 == Values(items) && Holds(ReadAll(d, Kinds(items)).1, rest)
    decreases |items|
  {
    if items == [] {
      assert Encodings(items) + rest == rest;
    } else {
      var item, more := items[0], Encodings(items[1..]) + rest;
      assert Encodings(items) + rest == Encode(item.kind, item.value) + more;
      ReadValueDecodes(d, item, more);
      ReadAllDecodes(ReadValue(d, item.kind).1, items[1..], rest);
    }
  }

  /** Any list of values, each in its own width, signedness and byte order, survives the trip. */
  lemma SerializationRoundTrip(d: Data, items: seq<Item>)
    requires AllStorable(items)
    requires Holds(d, []) && |d.origin| + |Encodings(items)| <= INT32_MAX
    ensures InBounds(WriteAll(d, items))
    ensures ReadAll(WriteAll(d, items), Kinds(items)).0 == Values(items)
    ensures var end := ReadAll(WriteAll(d, items), Kinds(items)).1; end.reader == end.writer
  {
    WriteAllAppends(d, [], items);
    assert [] + Encodings(items) == Encodings(items) + [];
    ReadAllDecodes(WriteAll(d, items), items, []);
  }
}
