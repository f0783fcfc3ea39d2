/**
 A TCP connection as a value: its state, its two buffers and its event in the poller. The parts that concern only the
 state and the poller stand apart, because the life of a connection depends on nothing else.
 */
module ConnectionModel {
  import opened Prelude
  import opened IntCodec
  import opened ByteData
  import opened PollerModel

  datatype State = Disconnected | Connecting | Connected | Disconnecting

  datatype Connection = Connection(state: State, input: Data, output: Data)

  /** The mask of a connection's event. */
  function MaskOf<E(==)>(p: Poller<E>, e: E): Mask
    requires e in p.events
  {
    p.events[e].events
  }

  // ----- what the operations do to the state and the poller

  /** `send` makes the kernel report when the socket is writable. */
  function SendControl<E(==)>(s: State, p: Poller<E>, e: E): Poller<E>
    requires e in p.events
  {
    if s == Connected && Out !in MaskOf(p, e) then Apply(p, EnableWriting(e)) else p
  }

  /** The asserts `send` meets on its way. */
  predicate SendAsserts<E(==)>(s: State, p: Poller<E>, e: E)
    requires e in p.events
  {
    s == Connected && Out !in MaskOf(p, e) ==> Asserts(p, EnableWriting(e))
  }

  /** `handleWrite`: no more write reports once the buffer is `drained`. */
  function WriteControl<E(==)>(s: State, p: Poller<E>, e: E, drained: bool): Poller<E>
    requires e in p.events
  {
    if s == Connected && Out in MaskOf(p, e) && drained then Apply(p, DisableWriting(e)) else p
  }

  predicate WriteAsserts<E(==)>(s: State, p: Poller<E>, e: E, drained: bool)
    requires e in p.events
  {
    s == Connected && Out in MaskOf(p, e) && drained ==> Asserts(p, DisableWriting(e))
  }

  /** `connectFinished`, up to the user's callback. */
  function ConnectControl<E(==)>(s: State, p: Poller<E>, e: E): (State, Poller<E>)
    requires e in p.events
  {
    if s == Connecting then (Connected, Apply(p, EnableReading(e))) else (s, p)
  }

  predicate ConnectAsserts<E(==)>(s: State, p: Poller<E>, e: E)
    requires e in p.events
  {
    s == Connecting ==> Asserts(p, EnableReading(e))
  }

  /** The assert of `handleClose` on the state. */
  predicate MayClose(s: State) {
    s == Connected || s == Disconnecting
  }

  /** `handleClose`, up to the close callback. */
  function CloseControl<E(==)>(p: Poller<E>, e: E): (State, Poller<E>)
    requires e in p.events
  {
    (Disconnected, Apply(p, DisableAll(e)))
  }

  predicate CloseAsserts<E(==)>(s: State, p: Poller<E>, e: E)
    requires e in p.events
  {
    MayClose(s) && Asserts(p, DisableAll(e))
  }

  /** `disconnect`, which goes back to `Connecting` when it ends a connection that is up. */
  function DisconnectControl<E(==)>(s: State, p: Poller<E>, e: E): (State, Poller<E>)
    requires e in p.events
  {
    ApplyShape(p, DisableAll(e));
    (if s == Connected then Connecting else s,
     Apply(if s == Connected then Apply(p, DisableAll(e)) else p, Remove(e)))
  }

  /** The asserts `disconnect` meets on its way. */
  predicate DisconnectAsserts<E(==)>(s: State, p: Poller<E>, e: E)
    requires e in p.events
  {
    ApplyShape(p, DisableAll(e));
    if s == Connected then Asserts(p, DisableAll(e)) && Asserts(Apply(p, DisableAll(e)), Remove(e))
    else Asserts(p, Remove(e))
  }

  /** `connectFinished` only finishes a connection that is connecting, and has that one watched for reading. */
  lemma ConnectExact<E>(s: State, p: Poller<E>, e: E)
    requires Consistent(p) && e in p.events && ConnectAsserts(s, p, e)
    ensures var (s', p') := ConnectControl(s, p, e);
            && (s' == Connected <==> s == Connecting || s == Connected)
            && e in p'.events && MaskOf(p', e) == MaskOf(p, e) + (if s == Connecting then {In, Pri} else {})
            && (s == Connecting ==> p.events[e].fd in p'.kernel && p'.kernel[p.events[e].fd] == Interest(MaskOf(p', e), e))
            && (s != Connecting ==> s' == s && p' == p)
  {
    if s == Connecting {
      ApplyConsistent(p, EnableReading(e));
      ApplyShape(p, EnableReading(e));
      assert Agrees(p, e) && Agrees(Apply(p, EnableReading(e)), e);
    }
  }

  /** `handleClose` needs a connection that is up or on its way down; no watched event of one is watched after it. */
  lemma CloseUnwatches<E>(s: State, p: Poller<E>, e: E)
    requires Consistent(p) && e in p.events && p.events[e].index == Added
    ensures CloseAsserts(s, p, e) <==> s != Disconnected && s != Connecting
    ensures CloseAsserts(s, p, e) ==>
              var (s', p') := CloseControl(p, e);
              var fd := p.events[e].fd;
              s' == Disconnected && fd !in p'.kernel && fd in p'.fdMap && p'.fdMap[fd] == e
  {
    AssertsExact(p, DisableAll(e));
    if CloseAsserts(s, p, e) {
      ApplyConsistent(p, DisableAll(e));
      assert Agrees(p, e) && Agrees(Apply(p, DisableAll(e)), e);
    }
  }

  /** `disconnect` needs a registered event, with an empty mask unless the connection is up; it leaves no record of it. */
  lemma DisconnectUnregisters<E>(s: State, p: Poller<E>, e: E)
    requires Consistent(p) && e in p.events
    ensures DisconnectAsserts(s, p, e) <==>
              if s == Connected then p.events[e].index != New || p.events[e].fd !in p.fdMap
              else p.events[e].index != New && MaskOf(p, e) == {}
    ensures DisconnectAsserts(s, p, e) ==>
              var (s', p') := DisconnectControl(s, p, e);
              var fd := p.events[e].fd;
              && s' == (if s == Connected then Connecting else s) && Consistent(p') && p'.refused == p.refused
              && fd !in p'.fdMap && fd !in p'.kernel && e in p'.events && p'.events[e].index == New && MaskOf(p', e) == {}
  {
    AssertsExact(p, DisableAll(e));
    var disabled := if s == Connected then Apply(p, DisableAll(e)) else p;
    ApplyShape(p, DisableAll(e));
    if s == Connected && Asserts(p, DisableAll(e)) { DisableRegisters(p, e); }
    if s != Connected || Asserts(p, DisableAll(e)) {
      AssertsExact(disabled, Remove(e));
      if Asserts(disabled, Remove(e)) { RemoveForgets(disabled, e); }
    }
  }

  lemma DisableRegisters<E>(p: Poller<E>, e: E)
    requires Consistent(p) && e in p.events && Asserts(p, DisableAll(e))
    ensures var q := Apply(p, DisableAll(e));
            && Consistent(q) && q.refused == p.refused && e in q.events
            && q.events[e].index != New && q.events[e].events == NONE && q.events[e].fd == p.events[e].fd
  {
    ApplyConsistent(p, DisableAll(e));
    ApplyShape(p, DisableAll(e));
  }

  lemma RemoveForgets<E>(p: Poller<E>, e: E)
    requires Consistent(p) && e in p.events && Asserts(p, Remove(e))
    ensures var q, fd := Apply(p, Remove(e)), p.events[e].fd;
            && Consistent(q) && q.refused == p.refused && fd !in q.fdMap && fd !in q.kernel
            && e in q.events && q.events[e].index == New && q.events[e].events == NONE
  {
    ApplyConsistent(p, Remove(e));
    assert Agrees(p, e);
    if p.events[e].fd in p.kernel { assert Agrees(p, p.kernel[p.events[e].fd].ptr); }
  }

  // ----- what the operations do to the outgoing stream

  /** A connection's outgoing bytes: all accepted ones, those handed to the socket, and those pending in the buffer. */
  datatype Stream = Stream(sent: seq<Byte>, wire: seq<Byte>, pending: seq<Byte>)

  const SILENT := Stream([], [], [])

  /** `send` */
  function SendStream(s: State, t: Stream, message: seq<Byte>): Stream {
    if s == Connected then t.(sent := t.sent + message, pending := t.pending + message) else t
  }

  /** `handleWrite`, when the event is `writing` or not. */
  function WriteStream(s: State, writing: bool, t: Stream): Stream {
    if s != Connected then t.(pending := [])
    else if writing then t.(wire := t.wire + t.pending, pending := [])
    else t
  }

  // ----- the operations with their buffers

  /** `send(const void*, int)` */
  function Send<E(==)>(c: Connection, p: Poller<E>, e: E, message: seq<Byte>): (Connection, Poller<E>)
    requires e in p.events && |c.output.origin| + |message| <= INT32_MAX
  {
    (if c.state == Connected then c.(output := WriteData(c.output, message)) else c, SendControl(c.state, p, e))
  }

  /** Whether `handleWrite` hands a buffer to the socket. */
  predicate Writes<E(==)>(c: Connection, p: Poller<E>, e: E)
    requires e in p.events
  {
    c.state == Connected && Out in MaskOf(p, e)
  }

  /** `handleWrite`: all readable bytes go to the socket; when not connected, pending bytes are dropped. */
  function HandleWrite<E(==)>(c: Connection, p: Poller<E>, e: E): (seq<Byte>, Connection, Poller<E>)
    requires e in p.events && InBounds(c.output)
  {
    if Writes(c, p, e) then
      var (f, output) := ReadBytes(c.output, c.output.writer - c.output.reader);
      (if f.Got? then f.bytes else [], c.(output := output),
       WriteControl(c.state, p, e, output.writer - output.reader == 0))
    else if c.state == Connected then ([], c, p)
    else ([], c.(output := Clear(c.output)), p)
  }

  /** The buffer, the event and the stream move together when a message is sent. */
  lemma SendStreams<E>(c: Connection, p: Poller<E>, e: E, t: Stream, message: seq<Byte>)
    requires e in p.events && Holds(c.output, t.pending) && |c.output.origin| + |message| <= INT32_MAX
    ensures var (c', p') := Send(c, p, e, message);
            Holds(c'.output, SendStream(c.state, t, message).pending) && p' == SendControl(c.state, p, e)
  {
    hide Apply;
    WriteAppends(c.output, t.pending, message);
  }

  /** A writable callback hands over all that is pending, so it always leaves the buffer drained. */
  lemma WriteStreams<E>(c: Connection, p: Poller<E>, e: E, t: Stream)
    requires e in p.events && Holds(c.output, t.pending)
    ensures var (handed, c', p') := HandleWrite(c, p, e);
            var t' := WriteStream(c.state, Out in MaskOf(p, e), t);
            && Holds(c'.output, t'.pending) && t'.wire == t.wire + handed
            && p' == WriteControl(c.state, p, e, t'.pending == [])
  {
    hide Apply;
    assert c.output.writer - c.output.reader == |t.pending|;
    if c.state == Connected {
      DrainTakesAll(c.output, t.pending);
      hide ByteData.ReadBytes, Holds;
      assert t.wire + [] == t.wire;
    } else {
      assert t.wire + [] == t.wire;
    }
  }

  /** It hands over what is pending if it is up and was watched for that, and drops it if it is not up. */
  lemma WriteDrains<E>(c: Connection, p: Poller<E>, e: E, pending: seq<Byte>)
    requires e in p.events && Holds(c.output, pending)
    ensures var (handed, c', p') := HandleWrite(c, p, e);
            && handed == (if c.state == Connected && Out in MaskOf(p, e) then pending else [])
            && Holds(c'.output, if c.state == Connected && Out !in MaskOf(p, e) then pending else [])
            && c'.state == c.state
  {
    hide Apply;
    if Writes(c, p, e) { DrainTakesAll(c.output, pending); }
  }

  lemma DrainTakesAll(d: Data, pending: seq<Byte>)
    requires Holds(d, pending)
    ensures var (f, d') := ReadBytes(d, |pending|); f == Got(pending) && Holds(d', []) && d'.writer == d'.reader
  {
    ReadBytesTakes(d, pending, |pending|);
    assert pending[..|pending|] == pending && pending[|pending|..] == [];
  }

  /** `handleRead` after a successful `recv`, up to the callback: the bytes are written into the input buffer. */
  function Receive(c: Connection, chunk: seq<Byte>): Connection
    requires |c.input.origin| + |chunk| <= INT32_MAX
  {
    c.(input := WriteData(c.input, chunk))
  }

  /** What the receive callback finds at the pointer it is handed, over the length it is handed. */
  function Seen(c: Connection): seq<Byte>
    requires InBounds(c.input) && c.input.reader <= c.input.writer
  {
    c.input.origin[..c.input.writer - c.input.reader]
  }

  /** After the callback the input buffer is cleared, which leaves the bytes where they are. */
  function AfterReceive(c: Connection): Connection {
    c.(input := Clear(c.input))
  }

  // ----- the outgoing stream

  datatype Traffic = SendOp(message: seq<Byte>) | WritableOp

  function AllSent(ops: seq<Traffic>): seq<Byte> {
    if ops == [] then [] else (if ops[0].SendOp? then ops[0].message else []) + AllSent(ops[1..])
  }

  /** A connected connection with `pending` bytes, which are never stranded: the kernel watches for writability. */
  ghost predicate Flowing<E>(c: Connection, p: Poller<E>, e: E, pending: seq<Byte>) {
    && c.state == Connected && Consistent(p) && e in p.events
    && p.events[e].index == Added && READ <= MaskOf(p, e)
    && Holds(c.output, pending)
    && (pending != [] ==> Out in MaskOf(p, e))
  }

  /** A connection that finishes connecting starts with an empty outgoing stream. */
  lemma ConnectFlows<E>(c: Connection, p: Poller<E>, e: E)
    requires c.state == Connecting && Holds(c.output, []) && Consistent(p) && e in p.events
    requires p.events[e].index == New && p.events[e].fd !in p.fdMap
    ensures var (s, p') := ConnectControl(c.state, p, e); Flowing(c.(state := s), p', e, [])
  {
    ApplyConsistent(p, EnableReading(e));
    assert Agrees(p, e);
  }

  /** Pending bytes are never stranded, in the kernel's own terms. */
  lemma NotStranded<E>(c: Connection, p: Poller<E>, e: E, pending: seq<Byte>)
    requires Flowing(c, p, e, pending) && pending != []
    ensures var fd := p.events[e].fd; fd in p.kernel && p.kernel[fd].ptr == e && Out in p.kernel[fd].mask
  {
    assert Agrees(p, e);
  }

  /** One operation: what it hands to the socket, and the state it leaves. */
  function TrafficStep<E(==)>(c: Connection, p: Poller<E>, e: E, op: Traffic): (seq<Byte>, Connection, Poller<E>)
    requires e in p.events && InBounds(c.output)
    requires op.SendOp? ==> |c.output.origin| + |op.message| <= INT32_MAX
  {
    match op
    case SendOp(message) => var (c', p') := Send(c, p, e, message); ([], c', p')
    case WritableOp => HandleWrite(c, p, e)
  }

  /** A call on an added event whose mask stays or becomes non-empty leaves it added, with the new mask. */
  lemma StaysAdded<E>(p: Poller<E>, call: Call<E>)
    requires Consistent(p) && call.e in p.events && p.events[call.e].index == Added && !call.Remove?
    requires NewMask(call, MaskOf(p, call.e)) != NONE
    ensures var q := Apply(p, call);
            && Consistent(q) && q.refused == p.refused && call.e in q.events
            && q.events[call.e].index == Added && MaskOf(q, call.e) == NewMask(call, MaskOf(p, call.e))
  {
    assert Agrees(p, call.e);
    ApplyConsistent(p, call);
  }

  /** One step of the stream: what was handed over plus what is pending grows by what was sent. */
  lemma TrafficStepFlows<E>(c: Connection, p: Poller<E>, e: E, op: Traffic, pending: seq<Byte>)
    requires Flowing(c, p, e, pending)
    requires |c.output.origin| + |AllSent([op])| <= INT32_MAX
    ensures var (handed, c', p') := TrafficStep(c, p, e, op);
            && (op.WritableOp? ==> Flowing(c', p', e, []) && handed == pending)
            && (op.SendOp? ==> Flowing(c', p', e, pending + op.message) && handed == [])
            && |c'.output.origin| == |c.output.origin| + |AllSent([op])|
  {
    hide Apply, Consistent, Agrees;
    match op
    case SendOp(message) =>
      WriteAppends(c.output, pending, message);
      if Out !in MaskOf(p, e) {
        assert In in NewMask(EnableWriting(e), MaskOf(p, e));
        StaysAdded(p, EnableWriting(e));
      }
    case WritableOp =>
      ReadBytesTakes(c.output, pending, |pending|);
      if Writes(c, p, e) {
        assert pending[..|pending|] == pending && pending[|pending|..] == [];
        assert In in NewMask(DisableWriting(e), MaskOf(p, e));
        StaysAdded(p, DisableWriting(e));
      }
  }

  predicate TrafficSized(c: Connection, ops: seq<Traffic>) {
    |c.output.origin| + |AllSent(ops)| <= INT32_MAX
  }

  /** A run of sends and writable callbacks: everything handed to the socket, and what is left. */
  ghost function Transmit<E>(c: Connection, p: Poller<E>, e: E, ops: seq<Traffic>,
                             pending: seq<Byte>): (seq<Byte>, Connection, Poller<E>)
    requires Flowing(c, p, e, pending) && TrafficSized(c, ops)
    decreases |ops|
  {
    if ops == [] then ([], c, p)
    else
      assert AllSent([ops[0]]) == if ops[0].SendOp? then ops[0].message else [];
      TrafficStepFlows(c, p, e, ops[0], pending);
      var (handed, c', p') := TrafficStep(c, p, e, ops[0]);
      var (wire, c'', p'') := Transmit(c', p', e, ops[1..], if ops[0].SendOp? then pending + ops[0].message else []);
      (handed + wire, c'', p'')
  }

  /**
   While connected, over any interleaving of sends and writable callbacks: the bytes handed to the socket followed by
   those still pending are the bytes that were sent, in order, and none are lost, repeated or stranded.
   */
  lemma {:induction false} OutgoingStream<E>(c: Connection, p: Poller<E>, e: E, ops: seq<Traffic>, pending: seq<Byte>)
    returns (left: seq<Byte>)
    requires Flowing(c, p, e, pending) && TrafficSized(c, ops)
    ensures var (wire, c', p') := Transmit(c, p, e, ops, pending);
            Flowing(c', p', e, left) && wire + left == pending + AllSent(ops)
    decreases |ops|
  {
    if ops == [] {
      left := pending;
      assert [] + left == pending + AllSent(ops);
    } else {
      var op, rest := ops[0], AllSent(ops[1..]);
      assert AllSent([op]) == if op.SendOp? then op.message else [];
      TrafficStepFlows(c, p, e, op, pending);
      var (handed, c', p') := TrafficStep(c, p, e, op);
      var more := if op.SendOp? then pending + op.message else [];
      left := OutgoingStream(c', p', e, ops[1..], more);
      var wire := Transmit(c', p', e, ops[1..], more).0;
      ConcatAssociative(handed, wire, left);
      if op.SendOp? {
        ConcatAssociative(pending, op.message, rest);
      } else {
        assert more + rest == rest && AllSent(ops) == rest;
      }
    }
  }

  // ----- the incoming stream

  /** Between receives the input buffer is cleared, whatever bytes earlier chunks left in it. */
  predicate Idle(c: Connection) {
    InBounds(c.input) && c.input.reader == c.input.writer == 0
  }

  /** The callback sees exactly the bytes and the length of its own `recv`, and its replies do not disturb them. */
  lemma ReceiveSees(c: Connection, chunk: seq<Byte>)
    requires Idle(c) && |c.input.origin| + |chunk| <= INT32_MAX
    ensures var c' := Receive(c, chunk);
            && Holds(c'.input, chunk) && Seen(c') == chunk && Idle(AfterReceive(c'))
            && c'.input.origin == chunk + c.input.origin && c'.output == c.output
  {
    WriteAppends(c.input, [], chunk);
    var o := Receive(c, chunk).input.origin;
    assert o[..|chunk|] == chunk;
  }

  datatype Arrival = Arrival(chunk: seq<Byte>, replies: seq<seq<Byte>>)

  function ArrivedBytes(arrivals: seq<Arrival>): nat {
    if arrivals == [] then 0 else |arrivals[0].chunk| + ArrivedBytes(arrivals[1..])
  }

  function ReplyBytes(replies: seq<seq<Byte>>): nat {
    if replies == [] then 0 else |replies[0]| + ReplyBytes(replies[1..])
  }

  function RepliedBytes(arrivals: seq<Arrival>): nat {
    if arrivals == [] then 0 else ReplyBytes(arrivals[0].replies) + RepliedBytes(arrivals[1..])
  }

  /** The sends a callback of the user makes. */
  function SendAll<E(==)>(c: Connection, p: Poller<E>, e: E, messages: seq<seq<Byte>>): (r: (Connection, Poller<E>))
    requires e in p.events && |c.output.origin| + ReplyBytes(messages) <= INT32_MAX
    ensures e in r.1.events && r.0.input == c.input && r.0.state == c.state
    ensures |r.0.output.origin| <= |c.output.origin| + ReplyBytes(messages)
    decreases |messages|
  {
    if messages == [] then (c, p)
    else
      ApplyShape(p, EnableWriting(e));
      var (c', p') := Send(c, p, e, messages[0]);
      SendAll(c', p', e, messages[1..])
  }

  /** A connection that is not up drops what a callback sends. */
  lemma {:induction false} DownDropsAll<E>(c: Connection, p: Poller<E>, e: E, messages: seq<seq<Byte>>)
    requires e in p.events && |c.output.origin| + ReplyBytes(messages) <= INT32_MAX && c.state != Connected
    ensures SendAll(c, p, e, messages) == (c, p)
    decreases |messages|
  {
    if messages != [] { DownDropsAll(c, p, e, messages[1..]); }
  }

  /** A run of successful receives: what each callback saw. */
  function ReceiveAll<E(==)>(c: Connection, p: Poller<E>, e: E, arrivals: seq<Arrival>): seq<seq<Byte>>
    requires e in p.events && Idle(c)
    requires |c.input.origin| + ArrivedBytes(arrivals) <= INT32_MAX
    requires |c.output.origin| + RepliedBytes(arrivals) <= INT32_MAX
    decreases |arrivals|
  {
    if arrivals == [] then []
    else
      ReceiveSees(c, arrivals[0].chunk);
      var received := Receive(c, arrivals[0].chunk);
      var (replied, p') := SendAll(received, p, e, arrivals[0].replies);
      [Seen(received)] + ReceiveAll(AfterReceive(replied), p', e, arrivals[1..])
  }

  lemma {:induction false} IncomingStream<E>(c: Connection, p: Poller<E>, e: E, arrivals: seq<Arrival>)
    requires e in p.events && Idle(c)
    requires |c.input.origin| + ArrivedBytes(arrivals) <= INT32_MAX
    requires |c.output.origin| + RepliedBytes(arrivals) <= INT32_MAX
    ensures var seen := ReceiveAll(c, p, e, arrivals);
            |seen| == |arrivals| && forall i | 0 <= i < |arrivals| :: seen[i] == arrivals[i].chunk
    decreases |arrivals|
  {
    if arrivals != [] {
      ReceiveSees(c, arrivals[0].chunk);
      var received := Receive(c, arrivals[0].chunk);
      var (replied, p') := SendAll(received, p, e, arrivals[0].replies);
      IncomingStream(AfterReceive(replied), p', e, arrivals[1..]);
    }
  }
}
