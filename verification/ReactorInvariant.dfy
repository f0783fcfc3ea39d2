/**
 The invariant of the loop with its servers and connections, and that each step keeps it. Each operation is described by
 what it does to every part of the state; the parts of the invariant are then kept one by one.
 */
module ReactorInvariant {
  import opened IntCodec
  import opened PollerModel
  import C = ConnectionModel
  import opened ReactorModel

  // ----- the invariant

  /** What was accepted is handed over or pending, and what is pending is not stranded: the event asks for write reports. */
  predicate Streaming(t: C.Stream, mask: Mask) {
    t.wire + t.pending == t.sent && (t.pending != [] ==> Out in mask)
  }

  /** A connected connection is registered for reading and owned by its server; a closed one waits for its `disconnect`. */
  predicate ConnOk(r: Reactor, c: nat)
    requires c in r.conns
  {
    && c < r.nextId && ConnEv(c) in r.poller.events && r.conns[c].server in r.servers
    && var ev, server := r.poller.events[ConnEv(c)], r.servers[r.conns[c].server];
       match r.conns[c].state
       case Connected =>
         && ev.index == Added && READ <= ev.events && Streaming(r.conns[c].out, ev.events)
         && server.name in server.connections && server.connections[server.name] == c
       case Disconnected =>
         && ev.events == NONE && ev.index == (if Disconnect(c) in r.tasks then Deleted else New)
         && r.conns[c].out.wire <= r.conns[c].out.sent
       case _ => false
  }

  /** A server has at most one connection, and it is up. */
  predicate ServerOk(r: Reactor, s: nat)
    requires s in r.servers
  {
    var server := r.servers[s];
    && AcceptorEv(s) in r.poller.events
    && server.connections.Keys <= {server.name}
    && (server.name in server.connections ==> Up(r, server.connections[server.name], s))
  }

  predicate Up(r: Reactor, c: nat, s: nat) {
    c in r.conns && r.conns[c].server == s && r.conns[c].state == C.Connected
  }

  predicate Connected(r: Reactor, c: nat) {
    c in r.conns && r.conns[c].state == C.Connected
  }

  /** A closed connection whose `disconnect` has run exists only as long as user code keeps it. */
  predicate Kept(r: Reactor, c: nat) {
    Connected(r, c) || Disconnect(c) in r.tasks || c in r.held
  }

  predicate Owned(r: Reactor, e: Ev) {
    match e
    case AcceptorEv(s) => s in r.servers
    case ConnEv(c) => c in r.conns
  }

  /** An event that may be dispatched: it is alive, and its connection is up. */
  predicate Dispatchable(r: Reactor, e: Ev) {
    && e in r.poller.events
    && match e
       case AcceptorEv(s) => s in r.servers
       case ConnEv(c) => Connected(r, c)
  }

  predicate Closed(r: Reactor, c: nat) {
    c < r.nextId && !Connected(r, c)
  }

  /** What the code asks epoll to watch for, and what epoll can report of that. */
  predicate MasksOk(ev: Event) {
    ev.events <= READ + WRITE && ev.revents <= READ + WRITE + {Err, Hup}
  }

  ghost predicate PollerOk(p: Poller<Ev>) {
    && Consistent(p) && p.refused == 0
    && (forall e | e in p.events :: MasksOk(p.events[e]))
    && (forall e, f | e in p.events && f in p.events && e != f :: p.events[e].fd != p.events[f].fd)
  }

  ghost predicate OwnersOk(r: Reactor) {
    && (forall e | e in r.poller.events :: Owned(r, e))
    && r.held <= r.conns.Keys
  }

  ghost predicate ActiveOk(r: Reactor) {
    && (forall i | 0 <= i < |r.active| :: Dispatchable(r, r.active[i]))
    && (forall i, j | 0 <= i < j < |r.active| :: r.active[i] != r.active[j])
  }

  /** Every closed connection gets exactly one `disconnect`. */
  ghost predicate OnceEach(r: Reactor) {
    forall c: nat :: multiset(r.posted)[Disconnect(c)] == if Closed(r, c) then 1 else 0
  }

  /** Tasks run in the order they were queued, and a queued `disconnect` is that of a closed connection. */
  ghost predicate TasksOk(r: Reactor) {
    && r.ran + r.tasks == r.posted && OnceEach(r)
    && forall c: nat | Disconnect(c) in r.tasks :: c in r.conns && r.conns[c].state == C.Disconnected
  }

  ghost predicate ConnsOk(r: Reactor) {
    forall c | c in r.conns :: ConnOk(r, c)
  }

  ghost predicate ServersOk(r: Reactor) {
    forall s | s in r.servers :: ServerOk(r, s)
  }

  ghost predicate KeptBut(r: Reactor, x: set<nat>) {
    forall c | c in r.conns && c !in x :: Kept(r, c)
  }

  /** The invariant, but for connections nothing refers to any more. */
  ghost predicate Sound(r: Reactor) {
    PollerOk(r.poller) && OwnersOk(r) && ActiveOk(r) && TasksOk(r) && ConnsOk(r) && ServersOk(r)
  }

  ghost predicate Inv(r: Reactor) {
    Sound(r) && KeptBut(r, {})
  }

  // ----- frames

  /** What `ConnOk` reads of a connection is the same in both states. */
  predicate SameConn(r: Reactor, r': Reactor, c: nat) {
    && c in r.conns && c in r'.conns && r'.conns[c] == r.conns[c]
    && ConnEv(c) in r.poller.events && ConnEv(c) in r'.poller.events
    && r'.poller.events[ConnEv(c)].index == r.poller.events[ConnEv(c)].index
    && r'.poller.events[ConnEv(c)].events == r.poller.events[ConnEv(c)].events
    && r.conns[c].server in r.servers && r.conns[c].server in r'.servers
    && (r.conns[c].state == C.Connected ==> r'.servers[r.conns[c].server] == r.servers[r.conns[c].server])
    && (Disconnect(c) in r'.tasks <==> Disconnect(c) in r.tasks)
  }

  lemma ConnFrame(r: Reactor, r': Reactor, c: nat)
    requires SameConn(r, r', c) && ConnOk(r, c) && r.nextId <= r'.nextId
    ensures ConnOk(r', c)
  {}

  lemma ConnsFrame(r: Reactor, r': Reactor)
    requires ConnsOk(r) && r.nextId <= r'.nextId
    requires forall c | c in r'.conns :: SameConn(r, r', c) || ConnOk(r', c)
    ensures ConnsOk(r')
  {
    hide SameConn, ConnOk;
    forall c | c in r'.conns ensures ConnOk(r', c) {
      if SameConn(r, r', c) {
        assert c in r.conns by { InBoth(r, r', c); }
        ConnFrame(r, r', c);
      }
    }
  }

  lemma InBoth(r: Reactor, r': Reactor, c: nat)
    requires SameConn(r, r', c)
    ensures c in r.conns && c in r'.conns
  {}

  /** Connections that are up in one state are the same in the other. */
  ghost predicate UpKept(r: Reactor, r': Reactor) {
    forall c | Connected(r, c) :: Connected(r', c) && r'.conns[c].server == r.conns[c].server
  }

  ghost predicate EventsKept(r: Reactor, r': Reactor) {
    forall e | Dispatchable(r, e) || (e.AcceptorEv? && e in r.poller.events) :: e in r'.poller.events
  }

  lemma ServersFrame(r: Reactor, r': Reactor)
    requires ServersOk(r) && r'.servers == r.servers && UpKept(r, r') && EventsKept(r, r')
    ensures ServersOk(r')
  {
    forall s | s in r'.servers ensures ServerOk(r', s) {
      assert ServerOk(r, s);
      if r.servers[s].name in r.servers[s].connections { assert Connected(r, r.servers[s].connections[r.servers[s].name]); }
    }
  }

  lemma ActiveFrame(r: Reactor, r': Reactor)
    requires ActiveOk(r) && r'.active == r.active && r.servers.Keys <= r'.servers.Keys && UpKept(r, r') && EventsKept(r, r')
    ensures ActiveOk(r')
  {
    forall i | 0 <= i < |r.active| ensures Dispatchable(r', r'.active[i]) { assert Dispatchable(r, r.active[i]); }
  }

  lemma TasksFrame(r: Reactor, r': Reactor)
    requires TasksOk(r) && r'.ran == r.ran && r'.tasks == r.tasks && r'.posted == r.posted && r'.nextId == r.nextId
    requires UpKept(r, r') && UpKept(r', r)
    requires forall c: nat | Disconnect(c) in r.tasks && c in r.conns ::
               c in r'.conns && r'.conns[c].state == r.conns[c].state
    ensures TasksOk(r')
  {
    forall c: nat ensures Closed(r', c) == Closed(r, c) {}
  }

  /** What the invariant says of one connection. */
  lemma ConnFacts(r: Reactor, c: nat)
    requires ConnsOk(r) && c in r.conns
    ensures ConnOk(r, c) && ConnEv(c) in r.poller.events
    ensures r.conns[c].state == C.Connected || r.conns[c].state == C.Disconnected
  {}

  // ----- changes of the poller alone

  lemma PollerFrame(r: Reactor, q: Poller<Ev>)
    requires Sound(r) && PollerOk(q) && q.events.Keys == r.poller.events.Keys
    requires forall c | c in r.conns :: SameConn(r, r.(poller := q), c) || ConnOk(r.(poller := q), c)
    ensures Sound(r.(poller := q))
    ensures Inv(r) ==> Inv(r.(poller := q))
  {
    var r' := r.(poller := q);
    hide PollerOk, ConnOk, SameConn, ServerOk;
    assert OwnersOk(r') by { forall e | e in q.events ensures Owned(r', e) { assert Owned(r, e); } }
    assert KeptBut(r, {}) ==> KeptBut(r', {}) by {
      if KeptBut(r, {}) { forall c | c in r'.conns ensures Kept(r', c) { assert Kept(r, c); } }
    }
    hide ActiveOk, OwnersOk, ServersOk, KeptBut, TasksOk, ConnsOk;
    ConnsFrame(r, r');
    ServersFrame(r, r');
    ActiveFrame(r, r');
    TasksFrame(r, r');
  }

  /** A change of one event leaves the others, and the distinctness of descriptors. */
  lemma PollerOkChange(p: Poller<Ev>, q: Poller<Ev>, e: Ev, mask: Mask)
    requires PollerOk(p) && e in p.events && mask <= READ + WRITE
    requires ChangesOnly(p, q, e, mask) && Consistent(q) && q.refused == p.refused
    ensures PollerOk(q) && q.events.Keys == p.events.Keys
    ensures q.events[e].events == mask && q.events[e].fd == p.events[e].fd
    ensures forall f | f in q.events && f != e :: q.events[f] == p.events[f]
  {
    assert q.events == p.events[e := q.events[e]];
    assert q.events[e].fd == p.events[e].fd;
  }

  lemma NewMaskOk(p: Poller<Ev>, call: Call<Ev>)
    requires PollerOk(p) && call.e in p.events
    ensures NewMask(call, p.events[call.e].events) <= READ + WRITE
  {
    assert MasksOk(p.events[call.e]);
  }

  lemma MaskCallPoller(p: Poller<Ev>, call: Call<Ev>)
    requires PollerOk(p) && call.e in p.events && p.events[call.e].index == Added && READ <= p.events[call.e].events
    requires call.EnableWriting? || call.DisableWriting?
    ensures Asserts(p, call)
    ensures var q := Apply(p, call);
            && PollerOk(q) && q.events.Keys == p.events.Keys
            && q.events[call.e].index == Added && READ <= q.events[call.e].events
            && q.events[call.e].events == NewMask(call, p.events[call.e].events)
            && forall f | f in q.events && f != call.e :: q.events[f] == p.events[f]
  {
    assert Agrees(p, call.e);
    assert In in NewMask(call, p.events[call.e].events);
    NewMaskOk(p, call);
    C.StaysAdded(p, call);
    ApplyShape(p, call);
    hide Apply, Consistent, ChangesOnly, Asserts;
    PollerOkChange(p, Apply(p, call), call.e, NewMask(call, p.events[call.e].events));
  }

  /** Connections that are up stay as they are, and queued tasks stay queued. */
  ghost predicate Keeps(r: Reactor, r': Reactor) {
    UpKept(r, r') && r.tasks <= r'.tasks && r'.ran == r.ran && r'.active == r.active && r'.phase == r.phase
  }

  /** The state with another poller state, and another outgoing stream of one connection. */
  ghost function Restreamed(r: Reactor, q: Poller<Ev>, c: nat, out: C.Stream): Reactor
    requires c in r.conns
  {
    r.(poller := q, conns := r.conns[c := r.conns[c].(out := out)])
  }

  lemma RestreamedKeeps(r: Reactor, q: Poller<Ev>, c: nat, out: C.Stream)
    requires c in r.conns && q.events.Keys == r.poller.events.Keys && OwnersOk(r) && KeptBut(r, {})
    ensures var r' := Restreamed(r, q, c, out);
            UpKept(r, r') && UpKept(r', r) && EventsKept(r, r') && OwnersOk(r') && KeptBut(r', {}) && Keeps(r, r')
  {
    var r' := Restreamed(r, q, c, out);
    forall e | e in q.events ensures Owned(r', e) { assert Owned(r, e); }
    forall d | d in r'.conns ensures Kept(r', d) { assert Kept(r, d); }
  }

  lemma RestreamedConns(r: Reactor, q: Poller<Ev>, c: nat, out: C.Stream)
    requires ConnsOk(r) && c in r.conns && ConnOk(Restreamed(r, q, c, out), c)
    requires q.events.Keys == r.poller.events.Keys
    requires forall f | f in q.events && f != ConnEv(c) :: q.events[f] == r.poller.events[f]
    ensures ConnsOk(Restreamed(r, q, c, out))
  {
    var r' := Restreamed(r, q, c, out);
    forall d | d in r'.conns ensures SameConn(r, r', d) || ConnOk(r', d) { ConnFacts(r, d); }
    hide ConnsOk, ConnOk, SameConn;
    ConnsFrame(r, r');
  }

  /** A change of one connection's stream and event, which suit each other afterwards. */
  lemma RestreamedInv(r: Reactor, q: Poller<Ev>, c: nat, out: C.Stream)
    requires Inv(r) && c in r.conns && PollerOk(q) && q.events.Keys == r.poller.events.Keys
    requires forall f | f in q.events && f != ConnEv(c) :: q.events[f] == r.poller.events[f]
    requires ConnOk(Restreamed(r, q, c, out), c)
    ensures Inv(Restreamed(r, q, c, out)) && Keeps(r, Restreamed(r, q, c, out))
  {
    var r' := Restreamed(r, q, c, out);
    hide PollerOk, OwnersOk, ActiveOk, TasksOk, ConnsOk, ServersOk, KeptBut, UpKept, EventsKept, ConnOk, Keeps;
    RestreamedKeeps(r, q, c, out);
    RestreamedConns(r, q, c, out);
    RestreamedTasks(r, q, c, out);
    assert r'.servers == r.servers && r'.active == r.active && r'.poller == q;
    hide Restreamed;
    ServersFrame(r, r');
    ActiveFrame(r, r');
  }

  lemma RestreamedTasks(r: Reactor, q: Poller<Ev>, c: nat, out: C.Stream)
    requires c in r.conns && TasksOk(r)
    ensures TasksOk(Restreamed(r, q, c, out))
  {
    TasksFrame(r, Restreamed(r, q, c, out));
  }

  /** Sending: no assert fails, the bytes become pending, and the kernel watches for writability. */
  lemma SendInv(r: Reactor, c: nat, message: seq<Byte>)
    requires Inv(r) && c in r.conns
    ensures var o := SendMessage(r, c, message); o.Ok? && Inv(o.value) && Keeps(r, o.value)
    ensures var v := SendMessage(r, c, message).value;
            && c in v.conns && v.conns == r.conns[c := r.conns[c].(out := v.conns[c].out)]
            && v.conns[c].out == (if Connected(r, c)
                                  then r.conns[c].out.(sent := r.conns[c].out.sent + message,
                                                       pending := r.conns[c].out.pending + message)
                                  else r.conns[c].out)
            && (Connected(r, c) ==> ConnEv(c) in v.poller.events && Out in v.poller.events[ConnEv(c)].events)
  {
    hide Apply, PollerOk, Asserts, OwnersOk, ActiveOk, TasksOk, ServersOk, KeptBut;
    ConnFacts(r, c);
    hide ConnsOk;
    var e, conn := ConnEv(c), r.conns[c];
    if conn.state == C.Connected && Out !in C.MaskOf(r.poller, e) { MaskCallPoller(r.poller, EnableWriting(e)); }
    var q, out := C.SendControl(conn.state, r.poller, e), C.SendStream(conn.state, conn.out, message);
    SentStreams(conn.state, conn.out, message);
    assert ConnOk(Restreamed(r, q, c, out), c);
    hide ConnOk, Inv;
    RestreamedInv(r, q, c, out);
  }

  lemma SentStreams(s: C.State, t: C.Stream, message: seq<Byte>)
    ensures t.wire + t.pending == t.sent ==>
            var t' := C.SendStream(s, t, message); t'.wire + t'.pending == t'.sent
  {
    assert (t.wire + t.pending) + message == t.wire + (t.pending + message);
  }

  /** A writable callback, also right after a close: no assert fails, and all that was pending is handed over. */
  lemma HandleWriteInv(r: Reactor, c: nat)
    requires Inv(r) && c in r.conns
    ensures var o := ReactorModel.HandleWrite(r, c); o.Ok? && Inv(o.value) && Keeps(r, o.value)
  {
    hide Apply, PollerOk, Asserts, OwnersOk, ActiveOk, TasksOk, ServersOk, KeptBut;
    ConnFacts(r, c);
    hide ConnsOk;
    var e, conn := ConnEv(c), r.conns[c];
    var writing := Out in C.MaskOf(r.poller, e);
    if conn.state == C.Connected && writing { MaskCallPoller(r.poller, DisableWriting(e)); }
    var out := C.WriteStream(conn.state, writing, conn.out);
    var q := C.WriteControl(conn.state, r.poller, e, out.pending == []);
    WrittenStreams(conn.out);
    assert ConnOk(Restreamed(r, q, c, out), c);
    hide ConnOk, Inv;
    RestreamedInv(r, q, c, out);
  }

  lemma WrittenStreams(t: C.Stream)
    ensures (t.wire + t.pending) + [] == t.wire + t.pending
  {}

  /** A server's acceptor starts to be watched. */
  lemma ListenPoller(p: Poller<Ev>, e: Ev)
    requires PollerOk(p) && e in p.events && p.events[e].index == New
    ensures Asserts(p, EnableReading(e))
    ensures var q := Apply(p, EnableReading(e));
            && PollerOk(q) && q.events.Keys == p.events.Keys
            && q.events[e].index == Added && q.events[e].events == p.events[e].events + READ
            && forall f | f in q.events && f != e :: q.events[f] == p.events[f]
  {
    var call := EnableReading(e);
    assert Agrees(p, e);
    assert p.events[e].fd !in p.fdMap;
    assert Apply(p, call).events[e].index == Added;
    NewMaskOk(p, call);
    ApplyShape(p, call);
    ApplyConsistent(p, call);
    hide Apply, Consistent, ChangesOnly, Asserts;
    PollerOkChange(p, Apply(p, call), e, NewMask(call, p.events[e].events));
  }

  lemma ListenInv(r: Reactor, s: nat)
    requires Inv(r) && s in r.servers && AcceptorEv(s) in r.poller.events && r.poller.events[AcceptorEv(s)].index == New
    ensures Asserts(r.poller, EnableReading(AcceptorEv(s)))
    ensures Inv(r.(poller := Apply(r.poller, EnableReading(AcceptorEv(s)))))
  {
    hide Apply, PollerOk, Asserts, OwnersOk, ActiveOk, TasksOk, ServersOk, KeptBut;
    ListenPoller(r.poller, AcceptorEv(s));
    var q := Apply(r.poller, EnableReading(AcceptorEv(s)));
    forall d | d in r.conns ensures SameConn(r, r.(poller := q), d) { ConnFacts(r, d); }
    hide ConnsOk, ConnOk, SameConn;
    PollerFrame(r, q);
  }

  // ----- collecting and user code

  /** Freeing an event that is not registered disturbs no record. */
  lemma FreePoller(p: Poller<Ev>, e: Ev)
    requires PollerOk(p) && e in p.events && p.events[e].index == New
    ensures p.events[e].fd !in p.kernel && p.events[e].fd !in p.fdMap
    ensures PollerOk(p.(events := p.events - {e}))
  {
    var fd := p.events[e].fd;
    var q := p.(events := p.events - {e});
    assert Agrees(p, e);
    forall f | f in q.events ensures Agrees(q, f) { assert Agrees(p, f); }
    forall g | g in p.fdMap ensures p.fdMap[g] != e { assert p.events[p.fdMap[g]].fd == g; }
    forall g | g in p.kernel ensures p.kernel[g].ptr != e { assert p.events[p.kernel[g].ptr].fd == g; }
  }

  /** In a sound state, whatever refers to a connection keeps it. */
  lemma ReferencedKept(r: Reactor, c: nat)
    requires Sound(r) && c in r.conns
    ensures Referenced(r, c) <==> Kept(r, c)
  {
    hide PollerOk, OwnersOk, ActiveOk, TasksOk;
    ConnFacts(r, c);
    if r.conns[c].state == C.Connected {
      var server := r.servers[r.conns[c].server];
      assert server.connections[server.name] in server.connections.Values;
    } else {
      forall s | s in r.servers ensures c !in r.servers[s].connections.Values { assert ServerOk(r, s); }
    }
  }

  /** The state once connection `c` and its event are gone. */
  ghost function Freed(r: Reactor, c: nat): Reactor {
    r.(conns := r.conns - {c}, poller := r.poller.(events := r.poller.events - {ConnEv(c)}))
  }

  lemma FreedKeeps(r: Reactor, c: nat)
    requires !Connected(r, c)
    ensures UpKept(r, Freed(r, c)) && UpKept(Freed(r, c), r) && EventsKept(r, Freed(r, c))
  {}

  lemma FreedConns(r: Reactor, c: nat)
    requires ConnsOk(r)
    ensures ConnsOk(Freed(r, c))
  {
    forall d | d in Freed(r, c).conns ensures SameConn(r, Freed(r, c), d) { ConnFacts(r, d); }
    hide ConnsOk, ConnOk, SameConn;
    ConnsFrame(r, Freed(r, c));
  }

  lemma FreedOwners(r: Reactor, c: nat)
    requires OwnersOk(r) && c !in r.held && KeptBut(r, {c})
    ensures OwnersOk(Freed(r, c)) && KeptBut(Freed(r, c), {})
  {
    forall e | e in Freed(r, c).poller.events ensures Owned(Freed(r, c), e) { assert Owned(r, e); }
    forall d | d in Freed(r, c).conns ensures Kept(Freed(r, c), d) { assert Kept(r, d); }
  }

  lemma CollectFree(r: Reactor, c: nat)
    requires Sound(r) && c in r.conns && !Kept(r, c) && KeptBut(r, {c})
    ensures Inv(Freed(r, c)) && UpKept(r, Freed(r, c))
    ensures ConnEv(c) in r.poller.events && r.poller.events[ConnEv(c)].fd !in r.poller.kernel
  {
    ConnFacts(r, c);
    FreePoller(r.poller, ConnEv(c));
    hide PollerOk, OwnersOk, ActiveOk, TasksOk, ConnsOk, ServersOk, KeptBut, UpKept, EventsKept;
    FreedKeeps(r, c);
    FreedConns(r, c);
    FreedOwners(r, c);
    ServersFrame(r, Freed(r, c));
    ActiveFrame(r, Freed(r, c));
    TasksFrame(r, Freed(r, c));
  }

  /** When nothing refers to a closed connection any more, its release restores the invariant. */
  lemma CollectInv(r: Reactor, c: nat)
    requires Sound(r) && KeptBut(r, {c})
    ensures Inv(Collect(r, c)) && Keeps(r, Collect(r, c))
    ensures c in r.conns && Kept(r, c) ==> Collect(r, c) == r
  {
    hide Sound, Referenced, Kept, KeptBut;
    if c in r.conns {
      ReferencedKept(r, c);
      if Kept(r, c) {
        AllKept(r, c);
        assert Collect(r, c) == r;
      } else {
        CollectFree(r, c);
        assert r.poller.kernel - {r.poller.events[ConnEv(c)].fd} == r.poller.kernel;
      }
    } else {
      AllKept(r, c);
    }
  }

  lemma AllKept(r: Reactor, c: nat)
    requires KeptBut(r, {c}) && (c in r.conns ==> Kept(r, c))
    ensures KeptBut(r, {})
  {}

  lemma HeldSound(r: Reactor, held: set<nat>)
    requires Sound(r) && held <= r.conns.Keys
    ensures Sound(r.(held := held))
  {
    var r' := r.(held := held);
    assert OwnersOk(r') by { forall e | e in r'.poller.events ensures Owned(r', e) { assert Owned(r, e); } }
    hide PollerOk, OwnersOk, ActiveOk, TasksOk, ServersOk;
    forall d | d in r'.conns ensures SameConn(r, r', d) { ConnFacts(r, d); }
    hide ConnsOk, ConnOk, SameConn;
    ConnsFrame(r, r');
    ServersFrame(r, r');
    ActiveFrame(r, r');
    TasksFrame(r, r');
  }

  lemma RetainInv(r: Reactor, c: nat)
    requires Inv(r) && c in r.conns
    ensures Inv(r.(held := r.held + {c}))
  {
    assert r.held + {c} <= r.conns.Keys;
    HeldSound(r, r.held + {c});
    hide Sound;
    forall d | d in r.conns ensures Kept(r.(held := r.held + {c}), d) { assert Kept(r, d); }
  }

  lemma LetGoInv(r: Reactor, c: nat)
    requires Inv(r)
    ensures var r' := Collect(r.(held := r.held - {c}), c); Inv(r') && Keeps(r, r')
  {
    var r' := r.(held := r.held - {c});
    assert r.held - {c} <= r.conns.Keys && UpKept(r, r');
    LetGoKept(r, c);
    hide Collect, KeptBut;
    HeldSound(r, r.held - {c});
    hide Sound, UpKept;
    CollectInv(r', c);
    KeepsAfter(r, r', Collect(r', c));
  }

  lemma LetGoKept(r: Reactor, c: nat)
    requires KeptBut(r, {})
    ensures KeptBut(r.(held := r.held - {c}), {c})
  {
    var r' := r.(held := r.held - {c});
    forall d | d in r'.conns && d != c ensures Kept(r', d) { assert Kept(r, d); }
  }

  lemma KeepsAfter(r: Reactor, r': Reactor, r'': Reactor)
    requires UpKept(r, r') && r'.tasks == r.tasks && r'.ran == r.ran && r'.active == r.active && r'.phase == r.phase
    requires Keeps(r', r'')
    ensures Keeps(r, r'')
  {}

  lemma PostTasks(r: Reactor)
    requires TasksOk(r)
    ensures TasksOk(Post(r, UserTask))
  {
    var r' := Post(r, UserTask);
    forall c: nat ensures Closed(r', c) == Closed(r, c) {}
    assert r'.ran + r'.tasks == (r.ran + r.tasks) + [UserTask];
  }

  lemma PostInv(r: Reactor)
    requires Inv(r)
    ensures Inv(Post(r, UserTask)) && Keeps(r, Post(r, UserTask))
  {
    var r' := Post(r, UserTask);
    PostTasks(r);
    assert forall c: nat :: Disconnect(c) in r'.tasks <==> Disconnect(c) in r.tasks;
    hide Inv, TasksOk;
    QueueInv(r, r');
  }

  /** The queue changes, but not in its `disconnect`s. */
  ghost predicate SameQueued(r: Reactor, r': Reactor) {
    && r' == r.(tasks := r'.tasks, posted := r'.posted, ran := r'.ran)
    && forall c: nat :: Disconnect(c) in r'.tasks <==> Disconnect(c) in r.tasks
  }

  lemma QueueOwners(r: Reactor, r': Reactor)
    requires SameQueued(r, r') && OwnersOk(r) && KeptBut(r, {})
    ensures OwnersOk(r') && KeptBut(r', {}) && UpKept(r, r') && EventsKept(r, r')
  {
    forall e | e in r'.poller.events ensures Owned(r', e) { assert Owned(r, e); }
    forall d | d in r'.conns ensures Kept(r', d) { assert Kept(r, d); }
  }

  lemma QueueConns(r: Reactor, r': Reactor)
    requires SameQueued(r, r') && ConnsOk(r)
    ensures ConnsOk(r')
  {
    forall d | d in r'.conns ensures SameConn(r, r', d) { ConnFacts(r, d); }
    hide ConnsOk, ConnOk, SameConn;
    ConnsFrame(r, r');
  }

  lemma QueueInv(r: Reactor, r': Reactor)
    requires Inv(r) && SameQueued(r, r') && TasksOk(r')
    ensures Inv(r')
  {
    hide PollerOk, OwnersOk, ActiveOk, TasksOk, ConnsOk, ServersOk, KeptBut, UpKept, EventsKept;
    QueueOwners(r, r');
    QueueConns(r, r');
    ServersFrame(r, r');
    ActiveFrame(r, r');
  }

  /** Nothing user code does, short of calling `disconnect`, breaks the invariant. */
  lemma ActInv(r: Reactor, act: UserAct)
    requires Inv(r)
    ensures !Act(r, act).Fault?
    ensures Act(r, act).Ok? ==> Inv(Act(r, act).value) && Keeps(r, Act(r, act).value)
  {
    hide Inv, SendMessage, Collect, Post;
    match act
    case SendTo(c, message) => if c in r.conns { SendInv(r, c, message); }
    case Retain(c) => if c in r.conns { RetainInv(r, c); }
    case LetGo(c) => LetGoInv(r, c);
    case PostTask => PostInv(r);
  }

  lemma {:induction false} ActAllInv(r: Reactor, acts: seq<UserAct>)
    requires Inv(r)
    ensures !ActAll(r, acts).Fault?
    ensures ActAll(r, acts).Ok? ==> Inv(ActAll(r, acts).value) && Keeps(r, ActAll(r, acts).value)
    decreases |acts|
  {
    hide Inv, Act;
    if acts != [] {
      ActInv(r, acts[0]);
      if Act(r, acts[0]).Ok? { ActAllInv(Act(r, acts[0]).value, acts[1..]); }
    }
  }

  // ----- closing

  /** The state once connection `c` is closed, unwatched and forgotten by its server, with its `disconnect` queued. */
  ghost function ClosedState(r: Reactor, c: nat): Reactor
    requires c in r.conns && ConnEv(c) in r.poller.events && r.conns[c].server in r.servers
  {
    var s, server := r.conns[c].server, r.servers[r.conns[c].server];
    Post(SetState(r, c, C.Disconnected).(
         poller := Apply(r.poller, DisableAll(ConnEv(c))),
         servers := r.servers[s := server.(connections := server.connections - {server.name})]), Disconnect(c))
  }

  lemma ClosePoller(p: Poller<Ev>, e: Ev)
    requires PollerOk(p) && e in p.events && p.events[e].index == Added
    ensures Asserts(p, DisableAll(e))
    ensures var q := Apply(p, DisableAll(e));
            && PollerOk(q) && q.events.Keys == p.events.Keys
            && q.events[e].index == Deleted && q.events[e].events == NONE && q.events[e].fd !in q.kernel
            && forall f | f in q.events && f != e :: q.events[f] == p.events[f]
  {
    var call := DisableAll(e);
    assert Agrees(p, e);
    assert Apply(p, call).events[e].index == Deleted && p.events[e].fd !in Apply(p, call).kernel;
    ApplyShape(p, call);
    ApplyConsistent(p, call);
    hide Apply, Consistent, ChangesOnly, Asserts;
    PollerOkChange(p, Apply(p, call), e, NONE);
  }

  lemma OnlyConnection(r: Reactor, c: nat)
    requires ConnsOk(r) && ServersOk(r) && Connected(r, c)
    ensures ConnEv(c) in r.poller.events && r.poller.events[ConnEv(c)].index == Added && r.conns[c].server in r.servers
    ensures var server := r.servers[r.conns[c].server]; server.connections == map[server.name := c]
  {
    ConnFacts(r, c);
    assert ServerOk(r, r.conns[c].server);
  }

  /** What closing does to each part of the state. */
  ghost predicate Closes(r: Reactor, r': Reactor, c: nat) {
    && Connected(r, c) && r.conns[c].server in r.servers
    && r'.poller.events.Keys == r.poller.events.Keys && ConnEv(c) in r.poller.events
    && r'.poller.events[ConnEv(c)].index == Deleted && r'.poller.events[ConnEv(c)].events == NONE
    && (forall f | f in r.poller.events && f != ConnEv(c) :: r'.poller.events[f] == r.poller.events[f])
    && r'.conns == r.conns[c := r.conns[c].(state := C.Disconnected)]
    && r'.servers == r.servers[r.conns[c].server := Server(r.servers[r.conns[c].server].name, map[])]
    && r'.tasks == r.tasks + [Disconnect(c)] && r'.posted == r.posted + [Disconnect(c)]
    && r'.ran == r.ran && r'.active == r.active && r'.held == r.held && r'.nextId == r.nextId && r'.phase == r.phase
  }

  lemma ClosedCloses(r: Reactor, c: nat)
    requires PollerOk(r.poller) && ConnsOk(r) && ServersOk(r) && Connected(r, c)
    ensures ConnEv(c) in r.poller.events && r.conns[c].server in r.servers
    ensures Asserts(r.poller, DisableAll(ConnEv(c)))
    ensures Closes(r, ClosedState(r, c), c) && PollerOk(ClosedState(r, c).poller)
  {
    hide PollerOk, Apply, Asserts;
    OnlyConnection(r, c);
    hide ConnsOk, ServersOk;
    ClosePoller(r.poller, ConnEv(c));
  }

  lemma ClosedConn(r: Reactor, r': Reactor, c: nat, d: nat)
    requires Closes(r, r', c) && d in r'.conns && ConnsOk(r)
    ensures SameConn(r, r', d) || ConnOk(r', d)
  {
    ConnFacts(r, c);
    ConnFacts(r, d);
    assert Disconnect(d) in r'.tasks <==> Disconnect(d) in r.tasks || d == c;
    if d == c { assert ConnOk(r', c); } else { assert SameConn(r, r', d); }
  }

  lemma ClosedConns(r: Reactor, r': Reactor, c: nat)
    requires Closes(r, r', c) && ConnsOk(r)
    ensures ConnsOk(r')
  {
    hide SameConn, ConnOk, Connected;
    forall d | d in r'.conns ensures SameConn(r, r', d) || ConnOk(r', d) { ClosedConn(r, r', c, d); }
    ConnsFrame(r, r');
  }

  lemma ClosedServers(r: Reactor, r': Reactor, c: nat)
    requires Closes(r, r', c) && ServersOk(r) && OwnersOk(r)
    ensures ServersOk(r') && OwnersOk(r')
  {
    forall s | s in r'.servers ensures ServerOk(r', s) { assert ServerOk(r, s); }
    forall e | e in r'.poller.events ensures Owned(r', e) { assert Owned(r, e); }
  }

  lemma ClosedActive(r: Reactor, r': Reactor, c: nat)
    requires Closes(r, r', c) && ActiveOk(r) && KeptBut(r, {}) && ConnEv(c) !in r.active
    ensures ActiveOk(r') && KeptBut(r', {})
  {
    forall i | 0 <= i < |r'.active| ensures Dispatchable(r', r'.active[i]) { assert Dispatchable(r, r.active[i]); }
    forall d | d in r'.conns ensures Kept(r', d) { assert Kept(r, d); }
  }

  lemma ClosedTasks(r: Reactor, r': Reactor, c: nat)
    requires Closes(r, r', c) && TasksOk(r) && c < r.nextId
    ensures TasksOk(r')
  {
    NowClosed(r, r', c);
    ClosedOnce(r, r', c);
    assert r'.conns[c].state == C.Disconnected && (forall d | d in r.conns && d != c :: r'.conns[d] == r.conns[d]);
    hide Closes, OnceEach, Connected;
    assert r'.ran + r'.tasks == (r.ran + r.tasks) + [Disconnect(c)];
  }

  lemma ClosedOnce(r: Reactor, r': Reactor, c: nat)
    requires OnceEach(r) && r'.posted == r.posted + [Disconnect(c)] && !Closed(r, c)
    requires forall d: nat :: Closed(r', d) <==> Closed(r, d) || d == c
    ensures OnceEach(r')
  {
    hide Closed;
    CountOneMore(r.posted, Disconnect(c));
  }

  lemma NowClosed(r: Reactor, r': Reactor, c: nat)
    requires Closes(r, r', c) && c < r.nextId
    ensures r'.conns.Keys == r.conns.Keys && r'.ran == r.ran
    ensures r'.tasks == r.tasks + [Disconnect(c)] && r'.posted == r.posted + [Disconnect(c)]
    ensures forall d: nat :: Closed(r', d) <==> Closed(r, d) || d == c
    ensures forall d: nat :: Disconnect(d) in r'.tasks <==> Disconnect(d) in r.tasks || d == c
  {}

  lemma CountOneMore(posted: seq<Task>, task: Task)
    ensures forall t :: multiset(posted + [task])[t] == multiset(posted)[t] + if t == task then 1 else 0
  {}

  lemma ClosedInv(r: Reactor, c: nat)
    requires Inv(r) && Connected(r, c) && ConnEv(c) !in r.active
    ensures ConnEv(c) in r.poller.events && r.conns[c].server in r.servers
    ensures Asserts(r.poller, DisableAll(ConnEv(c)))
    ensures Closes(r, ClosedState(r, c), c) && Inv(ClosedState(r, c))
    ensures r.servers[r.conns[c].server].connections == map[r.servers[r.conns[c].server].name := c]
  {
    OnlyConnection(r, c);
    ConnFacts(r, c);
    hide PollerOk, OwnersOk, ActiveOk, TasksOk, KeptBut, Apply, Asserts, ConnsOk, ServersOk, ClosedState, Closes;
    ClosedCloses(r, c);
    var r' := ClosedState(r, c);
    ClosedConns(r, r', c);
    ClosedServers(r, r', c);
    ClosedActive(r, r', c);
    ClosedTasks(r, r', c);
  }

  /** `handleClose` is the close proper, then user code; the stack's own pointer is never the last. */
  lemma HandleCloseIs(r: Reactor, c: nat, acts: seq<UserAct>)
    requires c in r.conns && r.conns[c].state == C.Connected && r.conns[c].server in r.servers
    requires ConnEv(c) in r.poller.events && Asserts(r.poller, DisableAll(ConnEv(c)))
    requires r.servers[r.conns[c].server].connections == map[r.servers[r.conns[c].server].name := c]
    ensures HandleClose(r, c, acts) ==
            match ActAll(ClosedState(r, c), acts)
            case Ok(r') => Ok(Collect(r', c))
            case Fault => Fault
            case Impossible => Impossible
  {
    hide Inv, Apply, Asserts, Collect, ActAll, Post;
    assert C.CloseAsserts(r.conns[c].state, r.poller, ConnEv(c));
  }

  /** A connection closes: it is down, and its `disconnect` is queued. */
  lemma HandleCloseInv(r: Reactor, c: nat, acts: seq<UserAct>)
    requires Inv(r) && Connected(r, c) && ConnEv(c) !in r.active
    ensures !HandleClose(r, c, acts).Fault?
    ensures HandleClose(r, c, acts).Ok? ==>
            var r' := HandleClose(r, c, acts).value;
            && Inv(r') && r'.active == r.active && r'.phase == r.phase && r.tasks <= r'.tasks && r'.ran == r.ran
            && Disconnect(c) in r'.tasks && c in r'.conns && !Connected(r', c)
  {
    ClosedInv(r, c);
    HandleCloseIs(r, c, acts);
    var closed := ClosedState(r, c);
    hide Inv, ClosedState, HandleClose, ActAll, Collect, Connected;
    ActAllInv(closed, acts);
    if ActAll(closed, acts).Ok? {
      var r' := ActAll(closed, acts).value;
      QueuedDisconnect(r', c);
      CollectInv(r', c);
    }
  }

  lemma QueuedDisconnect(r: Reactor, c: nat)
    requires Inv(r) && Disconnect(c) in r.tasks
    ensures c in r.conns && !Connected(r, c) && Kept(r, c) && Sound(r) && KeptBut(r, {c})
  {
    hide PollerOk, OwnersOk, ActiveOk, ConnsOk, ServersOk;
  }

  /** A second close, when the connection is down already, fails the assert on the state. */
  lemma SecondCloseFaults(r: Reactor, c: nat, acts: seq<UserAct>)
    requires c in r.conns && ConnsOk(r) && !Connected(r, c)
    ensures HandleClose(r, c, acts).Fault?
  {
    ConnFacts(r, c);
  }

  // ----- dispatching to a connection

  /** Later in the same dispatch or task: what was queued still is, nothing has been dispatched or run in between. */
  predicate Advances(r: Reactor, r': Reactor) {
    r.tasks <= r'.tasks && r'.ran == r.ran && r'.active == r.active && r'.phase == r.phase
  }

  /** The connection being dispatched: still up, or closed during this very dispatch. */
  predicate Anchored(r: Reactor, c: nat) {
    ConnEv(c) !in r.active && (Connected(r, c) || Disconnect(c) in r.tasks)
  }

  lemma AnchoredAlive(r: Reactor, c: nat)
    requires Inv(r) && Anchored(r, c)
    ensures c in r.conns && ConnEv(c) in r.poller.events && ConnsOk(r)
  {
    hide PollerOk, OwnersOk, ActiveOk, ServersOk;
    ConnFacts(r, c);
  }

  lemma AnchoredStays(r: Reactor, r': Reactor, c: nat)
    requires Anchored(r, c) && Keeps(r, r')
    ensures Anchored(r', c) && Advances(r, r')
  {}

  lemma KeepsAdvances(r: Reactor, r': Reactor)
    requires Keeps(r, r')
    ensures Advances(r, r')
  {}

  /** Reading faults exactly when it finds the end of a stream that is closed already. */
  lemma HandleReadInv(r: Reactor, c: nat, recv: Recv, acts: seq<UserAct>)
    requires Inv(r) && Anchored(r, c)
    ensures var o := HandleRead(r, c, recv, acts);
            && (recv == Eof && !Connected(r, c) ==> o.Fault?)
            && (o.Fault? ==> recv == Eof && !Connected(r, c))
            && (o.Ok? ==> Inv(o.value) && Anchored(o.value, c) && Advances(r, o.value))
  {
    AnchoredAlive(r, c);
    hide Inv, HandleClose, ActAll;
    match recv
    case Data =>
      ActAllInv(r, acts);
      hide Anchored, Keeps, Advances;
      if ActAll(r, acts).Ok? { AnchoredStays(r, ActAll(r, acts).value, c); }
    case Eof =>
      if Connected(r, c) { HandleCloseInv(r, c, acts); } else { SecondCloseFaults(r, c, acts); }
    case Failed =>
  }

  /** The dispatch of a connection's event keeps the invariant, and faults exactly when it would close twice. */
  lemma DispatchConnInv(r: Reactor, c: nat, revents: Mask, env: Env)
    requires Inv(r) && Connected(r, c) && ConnEv(c) !in r.active && RdHup !in revents
    ensures var o := DispatchConn(r, c, revents, env);
            && (ClosesTwice(revents, env.recv) ==> !o.Ok?)
            && (o.Fault? ==> ClosesTwice(revents, env.recv))
            && (o.Ok? ==> Inv(o.value) && Advances(r, o.value))
  {
    hide Inv, HandleClose, HandleRead, ReactorModel.HandleWrite, Connected;
    if HangsUp(revents) { HandleCloseInv(r, c, env.closeActs); }
    var o := if HangsUp(revents) then HandleClose(r, c, env.closeActs) else Ok(r);
    if o.Ok? {
      var closed := o.value;
      if Reads(revents) { HandleReadInv(closed, c, env.recv, env.readActs); }
      var o' := if Reads(revents) then HandleRead(closed, c, env.recv, env.readActs) else Ok(closed);
      if o'.Ok? && Out in revents {
        AnchoredAlive(o'.value, c);
        HandleWriteInv(o'.value, c);
        hide Keeps;
        KeepsAdvances(o'.value, ReactorModel.HandleWrite(o'.value, c).value);
      }
    }
  }

  // ----- the dispatch, callback by callback

  /** What a connection has set for each callback; its error callback only logs. */
  function Callback(r: Reactor, c: nat, callback: PollerModel.Callback, env: Env): Outcome<Reactor> {
    match callback
    case CloseCallback => HandleClose(r, c, env.closeActs)
    case ErrorCallback => Ok(r)
    case ReadCallback => HandleRead(r, c, env.recv, env.readActs)
    case WriteCallback => ReactorModel.HandleWrite(r, c)
  }

  function PerformCallbacks(r: Reactor, c: nat, callbacks: seq<PollerModel.Callback>, env: Env): Outcome<Reactor>
    decreases |callbacks|
  {
    if callbacks == [] then Ok(r)
    else
      var r' :- Callback(r, c, callbacks[0], env);
      PerformCallbacks(r', c, callbacks[1..], env)
  }

  lemma {:induction false} PerformConcat(r: Reactor, c: nat, a: seq<PollerModel.Callback>,
                                         b: seq<PollerModel.Callback>, env: Env)
    ensures PerformCallbacks(r, c, a + b, env) ==
            match PerformCallbacks(r, c, a, env)
            case Ok(r') => PerformCallbacks(r', c, b, env)
            case Fault => Fault
            case Impossible => Impossible
    decreases |a|
  {
    hide Callback;
    if a == [] {
      assert a + b == b;
    } else {
      assert (a + b)[0] == a[0] && (a + b)[1..] == a[1..] + b;
      if Callback(r, c, a[0], env).Ok? { PerformConcat(Callback(r, c, a[0], env).value, c, a[1..], b, env); }
    }
  }

  lemma PerformOne(r: Reactor, c: nat, callback: PollerModel.Callback, env: Env)
    ensures PerformCallbacks(r, c, [], env) == Ok(r)
    ensures PerformCallbacks(r, c, [callback], env) == Callback(r, c, callback, env)
  {
    hide Callback;
    assert [callback][1..] == [];
    if Callback(r, c, callback, env).Ok? {
      assert PerformCallbacks(Callback(r, c, callback, env).value, c, [], env) == Callback(r, c, callback, env);
    }
  }

  /** The dispatch of the loop is the callbacks of the event, one by one, whatever is reported. */
  lemma DispatchIsCallbacks(r: Reactor, c: nat, revents: Mask, env: Env)
    ensures DispatchConn(r, c, revents, env) == PerformCallbacks(r, c, Callbacks(revents), env)
  {
    var close := if Hup in revents && In !in revents then [CloseCallback] else [];
    var error := if Err in revents then [ErrorCallback] else [];
    var read := if In in revents || Pri in revents || RdHup in revents then [ReadCallback] else [];
    var write := if Out in revents then [WriteCallback] else [];
    assert Callbacks(revents) == ((close + error) + read) + write;
    hide HandleClose, HandleRead, ReactorModel.HandleWrite, PerformCallbacks;
    PerformConcat(r, c, (close + error) + read, write, env);
    PerformConcat(r, c, close + error, read, env);
    PerformConcat(r, c, close, error, env);
    PerformOne(r, c, CloseCallback, env);
    var closed := PerformCallbacks(r, c, close, env);
    if closed.Ok? {
      PerformOne(closed.value, c, ErrorCallback, env);
      PerformOne(closed.value, c, ReadCallback, env);
      var readDone := PerformCallbacks(closed.value, c, read, env);
      if readDone.Ok? { PerformOne(readDone.value, c, WriteCallback, env); }
    }
  }

  /** An acceptor has set only the read callback. */
  lemma AcceptorIsCallback(r: Reactor, s: nat, revents: Mask, env: Env)
    ensures DispatchAcceptor(r, s, revents, env) ==
            if ReadCallback in Callbacks(revents) && env.accepted != [] then NewConnection(r, s, env.accepted[0], env.readActs)
            else Ok(r)
  {
    hide NewConnection;
    CallbacksExact(revents);
  }

  // ----- accepting

  lemma NewEventPoller(p: Poller<Ev>, e: Ev, ev: Event)
    requires PollerOk(p) && e !in p.events && ev.index == New && MasksOk(ev)
    requires forall f | f in p.events :: p.events[f].fd != ev.fd
    ensures PollerOk(p.(events := p.events[e := ev]))
  {
    var q := p.(events := p.events[e := ev]);
    assert ev.fd !in p.fdMap && ev.fd !in p.kernel;
    forall f | f in q.events ensures Agrees(q, f) { if f != e { assert Agrees(p, f); } }
  }

  /** The state once connection `id` is accepted and up. */
  ghost function OpenState(r: Reactor, s: nat, fd: int): Reactor
    requires s in r.servers
  {
    var id, server := r.nextId, r.servers[s];
    var events := r.poller.events[ConnEv(id) := Event(fd, New, NONE, NONE, false, false)];
    r.(conns := r.conns[id := Conn(s, C.Connected, C.SILENT)], nextId := id + 1,
       poller := Apply(r.poller.(events := events), EnableReading(ConnEv(id))),
       servers := r.servers[s := server.(connections := server.connections[server.name := id])])
  }

  /** What accepting does to each part of the state, when the server has no connection. */
  ghost predicate Opens(r: Reactor, r': Reactor, s: nat) {
    var id := r.nextId;
    && s in r.servers && r.servers[s].connections == map[]
    && ConnEv(id) !in r.poller.events && id !in r.conns
    && r'.poller.events.Keys == r.poller.events.Keys + {ConnEv(id)}
    && r'.poller.events[ConnEv(id)].index == Added && READ <= r'.poller.events[ConnEv(id)].events
    && (forall f | f in r.poller.events :: r'.poller.events[f] == r.poller.events[f])
    && r'.conns == r.conns[id := Conn(s, C.Connected, C.SILENT)] && r'.nextId == id + 1
    && r'.servers == r.servers[s := Server(r.servers[s].name, map[r.servers[s].name := id])]
    && r'.tasks == r.tasks && r'.posted == r.posted
    && r'.ran == r.ran && r'.active == r.active && r'.held == r.held && r'.phase == r.phase
  }

  lemma NewIdFree(r: Reactor)
    requires ConnsOk(r) && OwnersOk(r)
    ensures r.nextId !in r.conns && ConnEv(r.nextId) !in r.poller.events
  {
    if r.nextId in r.conns { ConnFacts(r, r.nextId); }
    assert ConnEv(r.nextId) in r.poller.events ==> Owned(r, ConnEv(r.nextId));
  }

  lemma OpenStateOpens(r: Reactor, s: nat, fd: int)
    requires PollerOk(r.poller) && ConnsOk(r) && OwnersOk(r) && ServersOk(r)
    requires s in r.servers && r.servers[s].name !in r.servers[s].connections
    requires forall e | e in r.poller.events :: r.poller.events[e].fd != fd
    ensures Opens(r, OpenState(r, s, fd), s) && PollerOk(OpenState(r, s, fd).poller)
    ensures var events := r.poller.events[ConnEv(r.nextId) := Event(fd, New, NONE, NONE, false, false)];
            Asserts(r.poller.(events := events), EnableReading(ConnEv(r.nextId)))
  {
    NewIdFree(r);
    assert ServerOk(r, s);
    assert r.servers[s].connections == map[];
    hide PollerOk, ConnsOk, OwnersOk, ServersOk, Apply, Asserts;
    OpenPoller(r.poller, ConnEv(r.nextId), fd);
  }

  lemma OpenPoller(p: Poller<Ev>, e: Ev, fd: int)
    requires PollerOk(p) && e !in p.events && forall f | f in p.events :: p.events[f].fd != fd
    ensures var added := p.(events := p.events[e := Event(fd, New, NONE, NONE, false, false)]);
            var q := Apply(added, EnableReading(e));
            && Asserts(added, EnableReading(e)) && PollerOk(q) && q.events.Keys == p.events.Keys + {e}
            && q.events[e].index == Added && READ <= q.events[e].events
            && forall f | f in p.events :: q.events[f] == p.events[f]
  {
    hide PollerOk, Apply, Asserts;
    var ev := Event(fd, New, NONE, NONE, false, false);
    NewEventPoller(p, e, ev);
    ListenPoller(p.(events := p.events[e := ev]), e);
  }

  lemma OpenedConns(r: Reactor, r': Reactor, s: nat)
    requires Opens(r, r', s) && ConnsOk(r)
    ensures ConnsOk(r')
  {
    forall d | d in r'.conns ensures SameConn(r, r', d) || ConnOk(r', d) {
      OpenedConn(r, r', s, d);
    }
    hide ConnsOk, SameConn, ConnOk;
    ConnsFrame(r, r');
  }

  lemma OpenedConn(r: Reactor, r': Reactor, s: nat, d: nat)
    requires Opens(r, r', s) && ConnsOk(r) && d in r'.conns
    ensures SameConn(r, r', d) || ConnOk(r', d)
  {
    if d in r.conns { ConnFacts(r, d); assert SameConn(r, r', d); } else { assert ConnOk(r', d); }
  }

  lemma OpenedServers(r: Reactor, r': Reactor, s: nat)
    requires Opens(r, r', s) && ServersOk(r) && OwnersOk(r) && ActiveOk(r) && KeptBut(r, {})
    ensures ServersOk(r') && OwnersOk(r') && ActiveOk(r') && KeptBut(r', {})
  {
    forall t | t in r'.servers ensures ServerOk(r', t) { assert ServerOk(r, t); }
    forall e | e in r'.poller.events ensures Owned(r', e) { assert e in r.poller.events ==> Owned(r, e); }
    forall i | 0 <= i < |r'.active| ensures Dispatchable(r', r'.active[i]) { assert Dispatchable(r, r.active[i]); }
    forall d | d in r'.conns ensures Kept(r', d) { assert d in r.conns ==> Kept(r, d); }
  }

  lemma OpenedTasks(r: Reactor, r': Reactor, s: nat)
    requires Opens(r, r', s) && TasksOk(r)
    ensures TasksOk(r')
  {
    forall d: nat ensures Closed(r', d) == Closed(r, d) {}
  }

  lemma OpenInv(r: Reactor, s: nat, fd: int)
    requires Inv(r) && s in r.servers && r.servers[s].name !in r.servers[s].connections
    requires forall e | e in r.poller.events :: r.poller.events[e].fd != fd
    ensures Inv(OpenState(r, s, fd)) && Opens(r, OpenState(r, s, fd), s)
    ensures var events := r.poller.events[ConnEv(r.nextId) := Event(fd, New, NONE, NONE, false, false)];
            Asserts(r.poller.(events := events), EnableReading(ConnEv(r.nextId)))
  {
    hide PollerOk, OwnersOk, ActiveOk, TasksOk, KeptBut, Apply, Asserts, ConnsOk, ServersOk, OpenState, Opens;
    OpenStateOpens(r, s, fd);
    var r' := OpenState(r, s, fd);
    OpenedConns(r, r', s);
    OpenedServers(r, r', s);
    OpenedTasks(r, r', s);
  }

  /** Accepting with the name free is the opening proper, then user code. */
  lemma NewConnectionIs(r: Reactor, s: nat, fd: int, acts: seq<UserAct>)
    requires s in r.servers && r.servers[s].name !in r.servers[s].connections && fd > 0
    requires forall e | e in r.poller.events :: r.poller.events[e].fd != fd
    requires var events := r.poller.events[ConnEv(r.nextId) := Event(fd, New, NONE, NONE, false, false)];
             Asserts(r.poller.(events := events), EnableReading(ConnEv(r.nextId)))
    ensures NewConnection(r, s, fd, acts) ==
            match ActAll(OpenState(r, s, fd), acts)
            case Ok(r') => Ok(Collect(r', r.nextId))
            case Fault => Fault
            case Impossible => Impossible
  {
    hide Apply, Asserts, Collect, ActAll;
    var id := r.nextId;
    assert r.conns[id := Conn(s, C.Connecting, C.SILENT)][id := Conn(s, C.Connected, C.SILENT)]
           == r.conns[id := Conn(s, C.Connected, C.SILENT)];
  }

  /** A server without a connection accepts one: the asserts on the descriptor hold, whatever its earlier use. */
  lemma NewConnectionInv(r: Reactor, s: nat, fd: int, acts: seq<UserAct>)
    requires Inv(r) && s in r.servers && r.servers[s].name !in r.servers[s].connections
    ensures var o := NewConnection(r, s, fd, acts); !o.Fault? && (o.Ok? ==> Inv(o.value) && Advances(r, o.value))
  {
    if fd > 0 && forall e | e in r.poller.events :: r.poller.events[e].fd != fd {
      OpenInv(r, s, fd);
      NewConnectionIs(r, s, fd, acts);
      var up, id := OpenState(r, s, fd), r.nextId;
      assert Connected(up, id) && Advances(r, up);
      hide Inv, Opens, OpenState, NewConnection, ActAll, Collect;
      ActAllInv(up, acts);
      if ActAll(up, acts).Ok? {
        var r' := ActAll(up, acts).value;
        assert Connected(r', id);
        InvParts(r', id);
        CollectInv(r', id);
      }
    }
  }

  lemma InvParts(r: Reactor, c: nat)
    requires Inv(r)
    ensures Sound(r) && KeptBut(r, {c})
  {}

  // ----- the deferred disconnect

  /** What the queued `disconnect`, once run and popped, does to each part of the state. */
  ghost predicate Retires(r: Reactor, r': Reactor, c: nat) {
    && r.tasks != [] && r.tasks[0] == Disconnect(c)
    && r'.poller.events.Keys == r.poller.events.Keys && ConnEv(c) in r.poller.events
    && r'.poller.events[ConnEv(c)] == r.poller.events[ConnEv(c)].(index := New)
    && (forall f | f in r.poller.events && f != ConnEv(c) :: r'.poller.events[f] == r.poller.events[f])
    && r'.tasks == r.tasks[1..] && r'.ran == r.ran + [Disconnect(c)] && r'.posted == r.posted
    && r'.conns == r.conns && r'.servers == r.servers
    && r'.active == r.active && r'.held == r.held && r'.nextId == r.nextId && r'.phase == r.phase
  }

  lemma RemovePoller(p: Poller<Ev>, e: Ev)
    requires PollerOk(p) && e in p.events && p.events[e].index == Deleted && p.events[e].events == NONE
    ensures Asserts(p, Remove(e))
    ensures var q := Apply(p, Remove(e));
            && PollerOk(q) && q.events.Keys == p.events.Keys
            && q.events[e] == p.events[e].(index := New)
            && forall f | f in q.events && f != e :: q.events[f] == p.events[f]
  {
    var call := Remove(e);
    assert Agrees(p, e);
    assert Apply(p, call).events[e] == p.events[e].(index := New);
    ApplyShape(p, call);
    ApplyConsistent(p, call);
    hide Apply, Consistent, ChangesOnly, Asserts;
    PollerOkChange(p, Apply(p, call), e, NONE);
  }

  /** A task is queued once: after the front one, there is no other `disconnect` of the same connection. */
  lemma FrontOnce(r: Reactor, c: nat)
    requires TasksOk(r) && r.tasks != [] && r.tasks[0] == Disconnect(c)
    ensures Disconnect(c) !in r.tasks[1..]
  {
    var front, rest := [Disconnect(c)], r.tasks[1..];
    assert r.posted == r.ran + (front + rest) by { assert r.tasks == front + rest; }
    assert multiset(r.posted) == multiset(r.ran) + (multiset(front) + multiset(rest));
    assert multiset(r.posted)[Disconnect(c)] <= 1;
    assert multiset(front)[Disconnect(c)] == 1;
    assert multiset(rest)[Disconnect(c)] == 0;
  }

  /** The state once the front `disconnect` has run and is popped. */
  ghost function RetiredState(r: Reactor, c: nat): Reactor
    requires r.tasks != [] && ConnEv(c) in r.poller.events
  {
    r.(poller := Apply(r.poller, Remove(ConnEv(c))), tasks := r.tasks[1..], ran := r.ran + [r.tasks[0]])
  }

  lemma FrontDisconnect(r: Reactor, c: nat)
    requires ConnsOk(r) && TasksOk(r) && r.tasks != [] && r.tasks[0] == Disconnect(c)
    ensures c in r.conns && r.conns[c].state == C.Disconnected && ConnEv(c) in r.poller.events
    ensures r.poller.events[ConnEv(c)].index == Deleted && r.poller.events[ConnEv(c)].events == NONE
  {
    assert Disconnect(c) in r.tasks;
    ConnFacts(r, c);
  }

  lemma RetiredConns(r: Reactor, r': Reactor, c: nat)
    requires Retires(r, r', c) && ConnsOk(r) && TasksOk(r)
    ensures ConnsOk(r')
  {
    FrontOnce(r, c);
    FrontDisconnect(r, c);
    assert forall d: nat | d != c :: Disconnect(d) in r'.tasks <==> Disconnect(d) in r.tasks;
    hide TasksOk;
    forall d | d in r'.conns ensures SameConn(r, r', d) || ConnOk(r', d) {
      ConnFacts(r, d);
      if d == c { assert ConnOk(r', d); } else { assert SameConn(r, r', d); }
    }
    hide ConnsOk, SameConn, ConnOk;
    ConnsFrame(r, r');
  }

  lemma RetiredRest(r: Reactor, r': Reactor, c: nat)
    requires Retires(r, r', c) && ServersOk(r) && OwnersOk(r) && ActiveOk(r) && KeptBut(r, {})
    ensures ServersOk(r') && OwnersOk(r') && ActiveOk(r') && KeptBut(r', {c})
  {
    forall e | e in r'.poller.events ensures Owned(r', e) { assert Owned(r, e); }
    forall d | d in r'.conns && d != c ensures Kept(r', d) { assert Kept(r, d); }
    hide ServersOk, OwnersOk, ActiveOk, KeptBut;
    ServersFrame(r, r');
    ActiveFrame(r, r');
  }

  lemma PoppedTasks(r: Reactor, r': Reactor)
    requires TasksOk(r) && r.tasks != [] && r'.conns == r.conns && r'.nextId == r.nextId
    requires r'.tasks == r.tasks[1..] && r'.ran == r.ran + [r.tasks[0]] && r'.posted == r.posted
    ensures TasksOk(r')
  {
    assert forall d: nat :: Closed(r', d) == Closed(r, d);
    hide Closed, Connected;
    assert r'.ran + r'.tasks == r.ran + r.tasks;
  }

  /** The front `disconnect` runs: its asserts hold, the descriptor leaves the map, then the connection may be released. */
  lemma RetireInv(r: Reactor, c: nat)
    requires Inv(r) && r.tasks != [] && r.tasks[0] == Disconnect(c)
    ensures c in r.conns && r.conns[c].state == C.Disconnected && ConnEv(c) in r.poller.events
    ensures Asserts(r.poller, Remove(ConnEv(c))) && Retires(r, RetiredState(r, c), c)
    ensures Inv(Collect(RetiredState(r, c), c)) && Keeps(RetiredState(r, c), Collect(RetiredState(r, c), c))
  {
    hide PollerOk, OwnersOk, ActiveOk, TasksOk, KeptBut, Apply, Asserts, ConnsOk, ServersOk, Collect, Keeps;
    FrontDisconnect(r, c);
    RemovePoller(r.poller, ConnEv(c));
    var r' := RetiredState(r, c);
    assert Retires(r, r', c);
    hide Retires, RetiredState;
    RetiredConns(r, r', c);
    RetiredRest(r, r', c);
    RetiresParts(r, r', c);
    PoppedTasks(r, r');
    CollectInv(r', c);
  }

  lemma RetiresParts(r: Reactor, r': Reactor, c: nat)
    requires Retires(r, r', c)
    ensures r'.conns == r.conns && r'.nextId == r.nextId
    ensures r'.tasks == r.tasks[1..] && r'.ran == r.ran + [r.tasks[0]] && r'.posted == r.posted
  {}

  lemma RunFrontDisconnectIs(r: Reactor, c: nat, acts: seq<UserAct>)
    requires r.tasks != [] && r.tasks[0] == Disconnect(c)
    requires c in r.conns && r.conns[c].state == C.Disconnected && ConnEv(c) in r.poller.events
    requires Asserts(r.poller, Remove(ConnEv(c)))
    ensures RunFront(r, acts) == Ok(Collect(RetiredState(r, c), c))
  {
    hide Apply, Asserts, Collect;
    assert r.conns[c := r.conns[c].(state := C.Disconnected)] == r.conns;
  }

  lemma PopUserInv(r: Reactor)
    requires Inv(r) && r.tasks != [] && r.tasks[0] == UserTask
    ensures Inv(r.(tasks := r.tasks[1..], ran := r.ran + [UserTask]))
  {
    var r' := r.(tasks := r.tasks[1..], ran := r.ran + [UserTask]);
    PoppedTasks(r, r');
    assert r.tasks == [UserTask] + r'.tasks;
    assert forall c: nat :: Disconnect(c) in r'.tasks <==> Disconnect(c) in r.tasks;
    hide Inv, TasksOk;
    QueueInv(r, r');
  }

  /** What a task leaves: it has run, it and only it is popped, and what it posted is behind. */
  predicate Ran(r: Reactor, r': Reactor) {
    && r.tasks != [] && r.tasks[1..] <= r'.tasks && r'.ran == r.ran + [r.tasks[0]]
    && r'.active == r.active && r'.phase == r.phase
  }

  lemma RunFrontInv(r: Reactor, acts: seq<UserAct>)
    requires Inv(r) && r.tasks != []
    ensures !RunFront(r, acts).Fault?
    ensures RunFront(r, acts).Ok? ==> Inv(RunFront(r, acts).value) && Ran(r, RunFront(r, acts).value)
  {
    match r.tasks[0]
    case Disconnect(c) =>
      hide Inv, Collect, Asserts, Apply;
      RetireInv(r, c);
      RunFrontDisconnectIs(r, c, acts);
      hide RunFront;
    case UserTask =>
      hide Inv, ActAll;
      ActAllInv(r, acts);
      if ActAll(r, acts).Ok? {
        var done := ActAll(r, acts).value;
        assert done.tasks[0] == r.tasks[0] && r.tasks[1..] <= done.tasks[1..];
        PopUserInv(done);
      }
  }

  // ----- polling

  /** Only what the kernel reported about the events differs. */
  ghost predicate ReportsOnly(p: Poller<Ev>, q: Poller<Ev>) {
    && q == p.(events := q.events) && q.events.Keys == p.events.Keys
    && forall e | e in p.events :: q.events[e] == p.events[e].(revents := q.events[e].revents)
  }

  lemma ReportsOk(p: Poller<Ev>, q: Poller<Ev>)
    requires PollerOk(p) && ReportsOnly(p, q) && forall e | e in q.events :: MasksOk(q.events[e])
    ensures PollerOk(q)
  {
    forall e | e in q.events ensures Agrees(q, e) { assert Agrees(p, e); }
  }

  lemma ReportAllReports(p: Poller<Ev>, reported: seq<(Ev, Mask)>)
    requires forall i | 0 <= i < |reported| :: reported[i].0 in p.events
    requires forall i, j | 0 <= i < j < |reported| :: reported[i].0 != reported[j].0
    ensures ReportsOnly(p, ReportAll(p, reported))
  {
    ReportsArrive(p, reported);
    var q := ReportAll(p, reported);
    hide ReportAll;
    forall e | e in p.events ensures q.events[e] == p.events[e].(revents := q.events[e].revents) {
      if i :| 0 <= i < |reported| && reported[i].0 == e { assert q.events[reported[i].0].revents == reported[i].1; }
    }
  }

  /** Every report is within what the code asks for, and errors and hang-ups. */
  lemma ReportedMasks(p: Poller<Ev>, reported: seq<(Ev, Mask)>)
    requires PollerOk(p) && Reportable(p, reported)
    requires forall i | 0 <= i < |reported| :: reported[i].0 in p.events
    ensures forall e | e in ReportAll(p, reported).events :: MasksOk(ReportAll(p, reported).events[e])
  {
    ReportsArrive(p, reported);
    hide ReportAll;
    forall e | e in p.events ensures MasksOk(ReportAll(p, reported).events[e]) {
      assert MasksOk(p.events[e]);
      if i :| 0 <= i < |reported| && reported[i].0 == e {
        WatchedMask(p, e, reported[i].1);
        assert ReportAll(p, reported).events[reported[i].0] == p.events[e].(revents := reported[i].1);
      }
    }
  }

  lemma WatchedMask(p: Poller<Ev>, e: Ev, mask: Mask)
    requires PollerOk(p) && MayReport(p, e, mask)
    ensures e in p.events && mask <= READ + WRITE + {Err, Hup}
  {
    assert Agrees(p, e) && MasksOk(p.events[e]);
  }

  /** What the kernel watches is alive and up. */
  lemma WatchedIsDispatchable(r: Reactor, e: Ev, mask: Mask)
    requires PollerOk(r.poller) && OwnersOk(r) && ConnsOk(r) && MayReport(r.poller, e, mask)
    ensures Dispatchable(r, e)
  {
    assert Agrees(r.poller, e) && Owned(r, e);
    if e.ConnEv? { ConnFacts(r, e.conn); }
  }

  lemma ReportedDispatchable(r: Reactor, reported: seq<(Ev, Mask)>)
    requires PollerOk(r.poller) && OwnersOk(r) && ConnsOk(r) && Reportable(r.poller, reported)
    ensures forall i | 0 <= i < |reported| :: reported[i].0 in r.poller.events && Dispatchable(r, reported[i].0)
  {
    hide PollerOk, OwnersOk, ConnsOk, MayReport;
    forall i | 0 <= i < |reported| ensures Dispatchable(r, reported[i].0) {
      WatchedIsDispatchable(r, reported[i].0, reported[i].1);
    }
  }

  lemma PollActive(r: Reactor, r': Reactor, reported: seq<(Ev, Mask)>)
    requires forall i | 0 <= i < |reported| :: Dispatchable(r, reported[i].0)
    requires forall i, j | 0 <= i < j < |reported| :: reported[i].0 != reported[j].0
    requires r'.active == Pointers(reported) && r'.conns == r.conns && r'.servers == r.servers
    requires r'.poller.events.Keys == r.poller.events.Keys
    ensures ActiveOk(r')
  {
    forall i | 0 <= i < |r'.active| ensures Dispatchable(r', r'.active[i]) { assert Dispatchable(r, reported[i].0); }
  }

  /** Neither what is reported nor the phase matters to the invariant, beyond the list of active events. */
  lemma LoopFrame(r: Reactor, r': Reactor)
    requires Inv(r) && r' == r.(poller := r'.poller, active := r'.active, phase := r'.phase)
    requires ReportsOnly(r.poller, r'.poller) && ActiveOk(r') && PollerOk(r'.poller)
    ensures Inv(r')
  {
    hide PollerOk, ActiveOk, TasksOk, ServersOk;
    assert OwnersOk(r') by { forall e | e in r'.poller.events ensures Owned(r', e) { assert Owned(r, e); } }
    assert KeptBut(r', {}) by { forall d | d in r'.conns ensures Kept(r', d) { assert Kept(r, d); } }
    forall d | d in r'.conns ensures SameConn(r, r', d) { ConnFacts(r, d); }
    hide OwnersOk, KeptBut, ConnsOk, ConnOk, SameConn;
    ConnsFrame(r, r');
    ServersFrame(r, r');
    TasksFrame(r, r');
  }

  lemma PollInv(r: Reactor, reported: seq<(Ev, Mask)>)
    requires Inv(r) && Reportable(r.poller, reported)
    ensures forall i | 0 <= i < |reported| :: reported[i].0 in r.poller.events
    ensures Inv(r.(poller := ReportAll(r.poller, reported), active := Pointers(reported), phase := Tasking))
  {
    hide PollerOk, OwnersOk, ActiveOk, TasksOk, ServersOk, ConnsOk, KeptBut, ReportAll;
    ReportedDispatchable(r, reported);
    ReportAllReports(r.poller, reported);
    ReportedMasks(r.poller, reported);
    ReportsOk(r.poller, ReportAll(r.poller, reported));
    var r' := r.(poller := ReportAll(r.poller, reported), active := Pointers(reported), phase := Tasking);
    hide Pointers, Dispatchable;
    PollActive(r, r', reported);
    LoopFrame(r, r');
  }

  lemma PhaseInv(r: Reactor, phase: Phase)
    requires Inv(r)
    ensures Inv(r.(phase := phase))
  {
    var r' := r.(phase := phase);
    hide PollerOk, OwnersOk, TasksOk, ServersOk, ConnsOk, KeptBut;
    forall i | 0 <= i < |r'.active| ensures Dispatchable(r', r'.active[i]) { assert Dispatchable(r, r.active[i]); }
    LoopFrame(r, r');
  }

  /** The loop takes up the next active event. */
  lemma TakeInv(r: Reactor)
    requires Inv(r) && r.active != []
    ensures Inv(r.(active := r.active[1..])) && Dispatchable(r, r.active[0]) && r.active[0] !in r.active[1..]
    ensures r.active[0] in r.poller.events && RdHup !in r.poller.events[r.active[0]].revents
  {
    var r' := r.(active := r.active[1..]);
    assert Dispatchable(r, r.active[0]) && MasksOk(r.poller.events[r.active[0]]);
    hide PollerOk, OwnersOk, TasksOk, ServersOk, ConnsOk, KeptBut;
    assert Dispatchable(r, r.active[0]);
    forall i | 0 <= i < |r'.active| ensures Dispatchable(r', r'.active[i]) { assert Dispatchable(r, r.active[i + 1]); }
    LoopFrame(r, r');
  }

  // ----- one step

  /** The task queue after a step: at most its front has run, and what was posted is behind. */
  predicate QueueMoves(r: Reactor, r': Reactor, step: ReactorModel.Step) {
    if step.RunTask? && r.tasks != [] then r.tasks[1..] <= r'.tasks && r'.ran == r.ran + [r.tasks[0]]
    else r.tasks <= r'.tasks && r'.ran == r.ran
  }

  /** A dispatch is that of the event it takes from the active ones. */
  lemma ConnDispatch(r: Reactor, c: nat, env: Env)
    requires r.phase == Dispatching && r.active != [] && r.active[0] == ConnEv(c) && ConnEv(c) in r.poller.events
    ensures Next(r, ReactorModel.Dispatch(env)) ==
            DispatchConn(r.(active := r.active[1..]), c, r.poller.events[ConnEv(c)].revents, env)
  {
    hide DispatchConn;
  }

  lemma AcceptorDispatch(r: Reactor, env: Env)
    requires r.phase == Dispatching && r.active != [] && r.active[0].AcceptorEv? && r.active[0] in r.poller.events
    requires Reads(r.poller.events[r.active[0]].revents) && env.accepted != []
    ensures Next(r, ReactorModel.Dispatch(env)) ==
            NewConnection(r.(active := r.active[1..]), r.active[0].server, env.accepted[0], env.readActs)
  {
    hide NewConnection;
  }

  lemma DispatchInv(r: Reactor, env: Env)
    requires Inv(r) && r.phase == Dispatching && r.active != [] && !Troubled(r, ReactorModel.Dispatch(env))
    ensures var o := Next(r, ReactorModel.Dispatch(env));
            !o.Fault? && (o.Ok? ==> Inv(o.value) && QueueMoves(r, o.value, ReactorModel.Dispatch(env)))
  {
    TakeInv(r);
    var r', revents := r.(active := r.active[1..]), r.poller.events[r.active[0]].revents;
    if r.active[0].ConnEv? {
      var c := r.active[0].conn;
      ConnDispatch(r, c, env);
      hide Inv, DispatchConn, Next;
      DispatchConnInv(r', c, revents, env);
    } else if Reads(revents) && env.accepted != [] {
      var s := r.active[0].server;
      AcceptorDispatch(r, env);
      hide Inv, NewConnection, Next;
      NewConnectionInv(r', s, env.accepted[0], env.readActs);
    } else {
      hide Inv;
      assert Next(r, ReactorModel.Dispatch(env)) == Ok(r');
    }
  }

  lemma ListenStep(r: Reactor, s: nat)
    requires Inv(r)
    ensures var o := Next(r, Listen(s)); !o.Fault? && (o.Ok? ==> Inv(o.value) && QueueMoves(r, o.value, Listen(s)))
  {
    if s in r.servers {
      InvParts(r, 0);
      assert ServerOk(r, s);
      hide Inv, Sound, Apply, Asserts;
      if r.poller.events[AcceptorEv(s)].index == New { ListenInv(r, s); }
    }
  }

  /** One step of an untroubled loop fails no assert, touches nothing released, and keeps the invariant. */
  lemma StepSafe(r: Reactor, step: ReactorModel.Step)
    requires Inv(r) && !Troubled(r, step)
    ensures !Next(r, step).Fault?
    ensures Next(r, step).Ok? ==> Inv(Next(r, step).value) && QueueMoves(r, Next(r, step).value, step)
  {
    hide Inv, Reportable, Pointers, ReportAll, RunFront, DispatchEvent, Troubled;
    match step
    case Listen(s) => ListenStep(r, s);
    case Poll(reported) => if Reportable(r.poller, reported) { PollInv(r, reported); }
    case RunTask(acts) =>
      if r.tasks != [] { RunFrontInv(r, acts); }
      if r.tasks == [] { PhaseInv(r, Dispatching); }
      else if RunFront(r, acts).Ok? { PhaseInv(RunFront(r, acts).value, Dispatching); }
    case Dispatch(env) => if r.phase == Dispatching && r.active != [] { DispatchInv(r, env); }
    case NextIteration => PhaseInv(r, Polling);
  }
}
