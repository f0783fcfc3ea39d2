/**
 Teardown safety over whole runs of the loop: a closed connection leaves the kernel's set at once, leaves the poller's
 map when its queued `disconnect` runs, and is released only after that. So nothing dispatched is ever a released event,
 and the asserts on a reused descriptor hold. The two conditions this needs are exact.
 */
module Teardown {
  import opened IntCodec
  import opened PollerModel
  import C = ConnectionModel
  import opened ReactorModel
  import opened ReactorInvariant
  import opened LoopTrace

  // ----- runs

  function Run(r: Reactor, steps: seq<ReactorModel.Step>): Outcome<Reactor>
    decreases |steps|
  {
    if steps == [] then Ok(r)
    else
      var r' :- Next(r, steps[0]);
      Run(r', steps[1..])
  }

  /** A run is one part of it, then the other. */
  lemma {:induction false} RunConcat(r: Reactor, a: seq<ReactorModel.Step>, b: seq<ReactorModel.Step>)
    ensures Run(r, a + b) ==
            match Run(r, a)
            case Ok(r') => Run(r', b)
            case Fault => Fault
            case Impossible => Impossible
    decreases |a|
  {
    hide Next;
    if a == [] {
      assert a + b == b;
    } else {
      assert (a + b)[0] == a[0] && (a + b)[1..] == a[1..] + b;
      if Next(r, a[0]).Ok? { RunConcat(Next(r, a[0]).value, a[1..], b); }
    }
  }

  /** No server accepts while its connection lives, and no dispatch closes twice. */
  predicate Calm(r: Reactor, steps: seq<ReactorModel.Step>)
    decreases |steps|
  {
    steps != [] ==> !Troubled(r, steps[0]) && (Next(r, steps[0]).Ok? ==> Calm(Next(r, steps[0]).value, steps[1..]))
  }

  lemma {:induction false} CalmConcat(r: Reactor, a: seq<ReactorModel.Step>, b: seq<ReactorModel.Step>)
    requires Calm(r, a) && (Run(r, a).Ok? ==> Calm(Run(r, a).value, b))
    ensures Calm(r, a + b)
    decreases |a|
  {
    hide Next, Troubled;
    if a == [] {
      assert a + b == b;
    } else {
      assert (a + b)[0] == a[0] && (a + b)[1..] == a[1..] + b;
      if Next(r, a[0]).Ok? { CalmConcat(Next(r, a[0]).value, a[1..], b); }
    }
  }

  /** Before the loop runs: servers exist, with their new acceptors on different descriptors, and nothing else. */
  ghost predicate Started(r: Reactor) {
    && Fresh(r.poller)
    && r.poller.events.Keys == (set s | s in r.servers :: AcceptorEv(s))
    && (forall s, t | s in r.servers && t in r.servers && s != t ::
          r.poller.events[AcceptorEv(s)].fd != r.poller.events[AcceptorEv(t)].fd)
    && (forall e | e in r.poller.events :: r.poller.events[e].events == NONE == r.poller.events[e].revents)
    && (forall s | s in r.servers :: r.servers[s].connections == map[])
    && r.conns == map[] && r.tasks == [] && r.posted == [] && r.ran == [] && r.held == {} && r.active == []
    && r.nextId == 0 && r.phase == Polling
  }

  lemma StartedInv(r: Reactor)
    requires Started(r)
    ensures Inv(r)
  {
    assert forall e | e in r.poller.events :: Owned(r, e);
    assert forall s | s in r.servers :: AcceptorEv(s) in r.poller.events;
    assert PollerOk(r.poller) by {
      forall e | e in r.poller.events ensures Agrees(r.poller, e) {}
    }
    assert forall s | s in r.servers :: ServerOk(r, s);
  }

  // ----- what the invariant means

  /** Where a closed connection can be: unwatched but mapped while its `disconnect` waits, in no record once it has run. */
  ghost predicate TornDown(r: Reactor, c: nat) {
    && ConnEv(c) !in r.active
    && (forall fd | fd in r.poller.kernel :: r.poller.kernel[fd].ptr != ConnEv(c))
    && (Disconnect(c) in r.tasks <==> Disconnect(c) !in r.ran)
    && (Disconnect(c) in r.tasks ==>
          && c in r.conns && ConnEv(c) in r.poller.events
          && var fd := r.poller.events[ConnEv(c)].fd;
             fd in r.poller.fdMap && r.poller.fdMap[fd] == ConnEv(c) && fd !in r.poller.kernel)
    && (Disconnect(c) in r.ran ==> forall fd | fd in r.poller.fdMap :: r.poller.fdMap[fd] != ConnEv(c))
    && (c in r.conns ==> Disconnect(c) in r.tasks || c in r.held)
  }

  /** Everything the loop may still dispatch is alive. */
  ghost predicate ActiveAlive(r: Reactor) {
    forall i | 0 <= i < |r.active| :: r.active[i] in r.poller.events
  }

  /** A descriptor no live event uses is in no record: it may be used again. */
  ghost predicate FdsReusable(r: Reactor) {
    forall fd | (forall e | e in r.poller.events :: r.poller.events[e].fd != fd) ::
      fd !in r.poller.fdMap && fd !in r.poller.kernel
  }

  /**
   The outgoing stream of a connection that is up: the messages are handed over or pending, in order, and while bytes are
   pending the kernel watches the connection for writability. Of a closed one's messages, the first were handed over.
   */
  ghost predicate StreamKept(r: Reactor, c: nat)
    requires c in r.conns
  {
    var out := r.conns[c].out;
    if r.conns[c].state == C.Connected then
      && out.wire + out.pending == out.sent && ConnEv(c) in r.poller.events
      && var fd := r.poller.events[ConnEv(c)].fd;
         out.pending != [] ==> fd in r.poller.kernel && r.poller.kernel[fd].ptr == ConnEv(c) && Out in r.poller.kernel[fd].mask
    else out.wire <= out.sent
  }

  ghost predicate Safe(r: Reactor) {
    && ActiveAlive(r) && FdsReusable(r) && r.poller.refused == 0
    && (forall c | c in r.conns :: StreamKept(r, c))
    && forall c: nat | Closed(r, c) :: TornDown(r, c)
  }

  /** A closed connection's `disconnect` is queued or has run, once. */
  lemma DisconnectOnce(r: Reactor, c: nat)
    requires TasksOk(r) && Closed(r, c)
    ensures Disconnect(c) in r.tasks <==> Disconnect(c) !in r.ran
  {
    assert multiset(r.posted) == multiset(r.ran) + multiset(r.tasks);
    assert multiset(r.posted)[Disconnect(c)] == 1;
    assert Disconnect(c) in r.tasks <==> multiset(r.tasks)[Disconnect(c)] > 0;
    assert Disconnect(c) in r.ran <==> multiset(r.ran)[Disconnect(c)] > 0;
  }

  lemma UnregisteredInNoRecord(p: Poller<Ev>, e: Ev)
    requires PollerOk(p)
    ensures e !in p.events || p.events[e].index != Added ==> forall fd | fd in p.kernel :: p.kernel[fd].ptr != e
    ensures e !in p.events || p.events[e].index == New ==> forall fd | fd in p.fdMap :: p.fdMap[fd] != e
    ensures e in p.events && p.events[e].index == Deleted ==>
            var fd := p.events[e].fd; fd in p.fdMap && p.fdMap[fd] == e && fd !in p.kernel
  {
    if e in p.events { assert Agrees(p, e); }
    forall fd | fd in p.kernel ensures Agrees(p, p.kernel[fd].ptr) {}
  }

  lemma ClosedTornDown(r: Reactor, c: nat)
    requires Inv(r) && Closed(r, c)
    ensures TornDown(r, c)
  {
    DisconnectOnce(r, c);
    UnregisteredInNoRecord(r.poller, ConnEv(c));
    hide PollerOk, OnceEach, ServersOk;
    if c in r.conns { ConnFacts(r, c); assert Kept(r, c); }
    if ConnEv(c) in r.poller.events { assert Owned(r, ConnEv(c)); }
    forall i | 0 <= i < |r.active| ensures r.active[i] != ConnEv(c) { assert Dispatchable(r, r.active[i]); }
  }

  lemma InvStreams(r: Reactor, c: nat)
    requires Inv(r) && c in r.conns
    ensures StreamKept(r, c)
  {
    ConnFacts(r, c);
    assert Agrees(r.poller, ConnEv(c));
  }

  lemma InvSafe(r: Reactor)
    requires Inv(r)
    ensures Safe(r)
  {
    forall i | 0 <= i < |r.active| ensures r.active[i] in r.poller.events { assert Dispatchable(r, r.active[i]); }
    assert r.poller.refused == 0 && FdsReusable(r);
    hide Inv, TornDown, StreamKept;
    forall c: nat | Closed(r, c) ensures TornDown(r, c) { ClosedTornDown(r, c); }
    forall c | c in r.conns ensures StreamKept(r, c) { InvStreams(r, c); }
  }

  // ----- safety and progress over runs

  lemma {:induction false} RunInv(r: Reactor, steps: seq<ReactorModel.Step>)
    requires Inv(r) && Calm(r, steps)
    ensures !Run(r, steps).Fault?
    ensures Run(r, steps).Ok? ==> Inv(Run(r, steps).value)
    decreases |steps|
  {
    hide Inv, Next, Troubled;
    if steps != [] {
      StepSafe(r, steps[0]);
      if Next(r, steps[0]).Ok? { RunInv(Next(r, steps[0]).value, steps[1..]); }
    }
  }

  /** What happens in a run, read off its steps. */
  function History(r: Reactor, steps: seq<ReactorModel.Step>): seq<Happening>
    decreases |steps|
  {
    if steps == [] then []
    else Happenings(r, steps[0]) + if Next(r, steps[0]).Ok? then History(Next(r, steps[0]).value, steps[1..]) else []
  }

  /** The state a calm run leaves follows from what happened in it. */
  lemma {:induction false} RunFollows(r: Reactor, steps: seq<ReactorModel.Step>)
    requires Inv(r) && Calm(r, steps) && Run(r, steps).Ok?
    ensures Follows(r, Run(r, steps).value, History(r, steps))
    decreases |steps|
  {
    InvIds(r);
    hide Inv, Next, Troubled, Happenings, Follows;
    if steps == [] {
      QuietFollows(r, r);
    } else {
      hide IdsOk;
      var r' := Next(r, steps[0]).value;
      StepSafe(r, steps[0]);
      StepFollows(r, steps[0]);
      RunFollows(r', steps[1..]);
      FollowsOn(r, r', Run(r', steps[1..]).value, Happenings(r, steps[0]), History(r', steps[1..]));
    }
  }

  /**
   From the start: which connections are up, which tasks have run and which wait, what user code keeps, and what every
   connection has handed over and still has pending, are what the run made happen.
   */
  ghost predicate AsHappened(r: Reactor, hs: seq<Happening>) {
    && Ups(r) == UpAfter({}, hs)
    && r.ran + r.tasks == Queued(hs)
    && r.held == HeldAfter({}, hs)
    && forall c | c in r.conns ::
         && r.conns[c].out.sent == Heard({}, hs, c)
         && (r.conns[c].state == C.Connected ==> r.conns[c].out.wire + r.conns[c].out.pending == Heard({}, hs, c))
  }

  lemma FollowsFromStart(r: Reactor, v: Reactor, hs: seq<Happening>)
    requires Started(r) && Follows(r, v, hs) && Inv(v)
    ensures AsHappened(v, hs)
  {
    assert Ups(r) == {};
    assert [] + Queued(hs) == Queued(hs);
    forall c | c in v.conns
      ensures v.conns[c].out.sent == Heard({}, hs, c)
      ensures v.conns[c].state == C.Connected ==> v.conns[c].out.wire + v.conns[c].out.pending == Heard({}, hs, c)
    {
      InvStreams(v, c);
      assert SentOf(v, c) == SentOf(r, c) + Heard(Ups(r), hs, c);
      assert [] + Heard({}, hs, c) == Heard({}, hs, c);
    }
    assert v.ran + v.tasks == v.posted;
    hide Inv, Queued, HeldAfter, UpAfter, Heard;
  }

  /** Teardown safety: a calm run from the start fails no assert, touches nothing released, and ends up safe. */
  lemma TeardownSafety(r: Reactor, steps: seq<ReactorModel.Step>)
    requires Started(r) && Calm(r, steps)
    ensures !Run(r, steps).Fault?
    ensures Run(r, steps).Ok? ==> Safe(Run(r, steps).value) && AsHappened(Run(r, steps).value, History(r, steps))
  {
    StartedInv(r);
    RunInv(r, steps);
    hide Inv, Follows, AsHappened, Started;
    if Run(r, steps).Ok? {
      InvSafe(Run(r, steps).value);
      RunFollows(r, steps);
      FollowsFromStart(r, Run(r, steps).value, History(r, steps));
    }
  }

  /** How many times the loop turns to its task queue. */
  function Turns(steps: seq<ReactorModel.Step>): nat {
    if steps == [] then 0 else (if steps[0].RunTask? then 1 else 0) + Turns(steps[1..])
  }

  /** Queued tasks run in order, one a turn. */
  lemma {:induction false} TasksInOrder(r: Reactor, steps: seq<ReactorModel.Step>)
    requires Inv(r) && Calm(r, steps) && Run(r, steps).Ok?
    ensures var v := Run(r, steps).value;
            && Inv(v) && r.ran + r.tasks <= v.ran + v.tasks
            && |v.ran| >= |r.ran| + if Turns(steps) < |r.tasks| then Turns(steps) else |r.tasks|
    decreases |steps|
  {
    hide Inv, Next, Troubled;
    if steps != [] {
      var r' := Next(r, steps[0]).value;
      StepSafe(r, steps[0]);
      if steps[0].RunTask? && r.tasks != [] {
        assert r.ran + r.tasks == r'.ran + r.tasks[1..];
      }
      assert r.ran + r.tasks <= r'.ran + r'.tasks;
      TasksInOrder(r', steps[1..]);
    }
  }

  /**
   A queued `disconnect` has run once the loop has turned past it; its connection is then in no record, and released
   unless user code keeps it.
   */
  lemma DisconnectCompletes(r: Reactor, steps: seq<ReactorModel.Step>, k: nat)
    requires Inv(r) && Calm(r, steps)
    requires k < |r.tasks| && r.tasks[k].Disconnect? && k < Turns(steps)
    ensures Run(r, steps).Ok? ==>
            var v, c := Run(r, steps).value, r.tasks[k].conn;
            && TornDown(v, c) && Disconnect(c) in v.ran
            && (c !in v.held ==> c !in v.conns && ConnEv(c) !in v.poller.events)
  {
    hide Inv, Run, Calm, TornDown, Closed;
    if Run(r, steps).Ok? {
      TasksInOrder(r, steps);
      var v, c := Run(r, steps).value, r.tasks[k].conn;
      RunHasRun(r.ran, r.tasks, v.ran, v.tasks, k);
      RanClosed(v, c);
      ClosedTornDown(v, c);
      if c !in v.held {
        TornDownRan(v, c);
        OwnedConn(v, c);
      }
    }
  }

  lemma RunHasRun(ran: seq<Task>, tasks: seq<Task>, ran': seq<Task>, tasks': seq<Task>, k: nat)
    requires ran + tasks <= ran' + tasks' && k < |tasks| && |ran| + k < |ran'|
    ensures tasks[k] in ran'
  {
    assert (ran' + tasks')[|ran| + k] == (ran + tasks)[|ran| + k] == tasks[k];
  }

  lemma RanClosed(r: Reactor, c: nat)
    requires Inv(r) && Disconnect(c) in r.ran
    ensures Closed(r, c)
  {
    assert Disconnect(c) in r.posted;
    assert multiset(r.posted)[Disconnect(c)] > 0;
  }

  lemma TornDownRan(r: Reactor, c: nat)
    requires TornDown(r, c) && Disconnect(c) in r.ran && c !in r.held
    ensures c !in r.conns
  {}

  lemma OwnedConn(r: Reactor, c: nat)
    requires Inv(r) && c !in r.conns
    ensures ConnEv(c) !in r.poller.events
  {
    assert ConnEv(c) in r.poller.events ==> Owned(r, ConnEv(c));
  }

  // ----- the conditions are exact

  /** Closing twice in one dispatch is the one way for a dispatch to a connection to go wrong. */
  lemma CloseExact(r: Reactor, env: Env)
    requires Inv(r) && r.phase == Dispatching && r.active != [] && r.active[0].ConnEv?
    requires !Next(r, ReactorModel.Dispatch(env)).Impossible?
    ensures Next(r, ReactorModel.Dispatch(env)).Ok? <==> !Troubled(r, ReactorModel.Dispatch(env))
    ensures Next(r, ReactorModel.Dispatch(env)).Ok? ==> Inv(Next(r, ReactorModel.Dispatch(env)).value)
  {
    TakeInv(r);
    var r', c := r.(active := r.active[1..]), r.active[0].conn;
    hide Inv, DispatchConn;
    DispatchConnInv(r', c, r.poller.events[r.active[0]].revents, env);
  }

  // ----- accepting while the name is taken

  /** Connection `first` has the name of server `s`, and a new descriptor is in no record. */
  ghost predicate Taken(r: Reactor, s: nat, fd: int, first: nat) {
    && s in r.servers && r.servers[s].connections == map[r.servers[s].name := first]
    && (forall t | t in r.servers && t != s :: first !in r.servers[t].connections.Values)
    && first in r.conns && r.conns[first].state == C.Connected && Disconnect(first) !in r.tasks
    && ConnEv(first) in r.poller.events && r.poller.events[ConnEv(first)].index == Added
    && first < r.nextId && r.nextId !in r.conns && ConnEv(r.nextId) !in r.poller.events
    && fd > 0 && fd !in r.poller.fdMap && forall e | e in r.poller.events :: r.poller.events[e].fd != fd
  }

  lemma NamedConnection(r: Reactor, s: nat)
    requires ConnsOk(r) && ServersOk(r) && s in r.servers && r.servers[s].name in r.servers[s].connections
    ensures var first := r.servers[s].connections[r.servers[s].name];
            && r.servers[s].connections == map[r.servers[s].name := first]
            && (forall t | t in r.servers && t != s :: first !in r.servers[t].connections.Values)
            && first < r.nextId && first in r.conns && r.conns[first].state == C.Connected
            && ConnEv(first) in r.poller.events && r.poller.events[ConnEv(first)].index == Added
  {
    assert ServerOk(r, s);
    var first := r.servers[s].connections[r.servers[s].name];
    ConnFacts(r, first);
    forall t | t in r.servers && t != s ensures first !in r.servers[t].connections.Values { assert ServerOk(r, t); }
  }

  lemma UpNotQueued(r: Reactor, c: nat)
    requires TasksOk(r) && Connected(r, c)
    ensures Disconnect(c) !in r.tasks
  {}

  lemma UnusedFd(p: Poller<Ev>, fd: int)
    requires PollerOk(p) && forall e | e in p.events :: p.events[e].fd != fd
    ensures fd !in p.fdMap && fd !in p.kernel
  {}

  lemma NameTaken(r: Reactor, s: nat, fd: int)
    requires Inv(r) && s in r.servers && r.servers[s].name in r.servers[s].connections
    requires fd > 0 && forall e | e in r.poller.events :: r.poller.events[e].fd != fd
    ensures Taken(r, s, fd, r.servers[s].connections[r.servers[s].name]) && PollerOk(r.poller)
  {
    hide PollerOk, ActiveOk, TasksOk, ConnsOk, ServersOk, OwnersOk, KeptBut;
    NewIdFree(r);
    NamedConnection(r, s);
    UpNotQueued(r, r.servers[s].connections[r.servers[s].name]);
    UnusedFd(r.poller, fd);
  }

  /** A connection the poller maps that is either up without any server owning it, or released. */
  ghost predicate Broken(r: Reactor, c: nat, fd: int) {
    && fd in r.poller.fdMap && r.poller.fdMap[fd] == ConnEv(c)
    && (forall s | s in r.servers :: c !in r.servers[s].connections.Values)
    && (ConnEv(c) in r.poller.events ==>
          Connected(r, c) && r.poller.events[ConnEv(c)].fd == fd && r.poller.events[ConnEv(c)].index == Added)
  }

  lemma BrokenUnsafe(r: Reactor, c: nat, fd: int)
    requires Broken(r, c, fd)
    ensures !Inv(r)
  {
    if ConnsOk(r) && Connected(r, c) { UpIsOwned(r, c); }
  }

  lemma UpIsOwned(r: Reactor, c: nat)
    requires ConnsOk(r) && Connected(r, c)
    ensures r.conns[c].server in r.servers && c in r.servers[r.conns[c].server].connections.Values
  {
    ConnFacts(r, c);
    var server := r.servers[r.conns[c].server];
    assert server.connections[server.name] in server.connections.Values;
  }

  /** A call that meets its asserts leaves a descriptor that another event has mapped as it is. */
  lemma OtherMapped(p: Poller<Ev>, call: Call<Ev>, e: Ev, fd: int)
    requires call.e in p.events && Asserts(p, call) && call.e != e && fd in p.fdMap && p.fdMap[fd] == e
    ensures var q := Apply(p, call);
            && fd in q.fdMap && q.fdMap[fd] == e && q.events.Keys == p.events.Keys
            && (e in p.events ==> q.events[e] == p.events[e])
  {
    ApplyShape(p, call);
    hide Apply;
  }

  lemma OwnWriting(p: Poller<Ev>, e: Ev, fd: int)
    requires e in p.events && p.events[e].index == Added && p.events[e].fd == fd && fd in p.fdMap && p.fdMap[fd] == e
    ensures var q := Apply(p, EnableWriting(e));
            && fd in q.fdMap && q.fdMap[fd] == e && q.events.Keys == p.events.Keys
            && q.events[e].fd == fd && q.events[e].index == Added
  {
    assert Out in NewMask(EnableWriting(e), p.events[e].events);
  }

  lemma SendBroken(r: Reactor, d: nat, message: seq<Byte>, c: nat, fd: int)
    requires Broken(r, c, fd) && d in r.conns && SendMessage(r, d, message).Ok?
    ensures Broken(SendMessage(r, d, message).value, c, fd)
  {
    var e, s := ConnEv(d), r.conns[d].state;
    if s == C.Connected && Out !in C.MaskOf(r.poller, e) {
      if d == c { OwnWriting(r.poller, e, fd); } else { OtherMapped(r.poller, EnableWriting(e), ConnEv(c), fd); }
    }
    hide Apply;
  }

  lemma CollectBroken(r: Reactor, d: nat, c: nat, fd: int)
    requires Broken(r, c, fd)
    ensures Broken(Collect(r, d), c, fd)
  {
    hide Referenced;
  }

  /** No user code repairs it. */
  lemma ActBroken(r: Reactor, act: UserAct, c: nat, fd: int)
    requires Broken(r, c, fd) && Act(r, act).Ok?
    ensures Broken(Act(r, act).value, c, fd)
  {
    match act
    case SendTo(d, message) => SendBroken(r, d, message, c, fd);
    case Retain(d) =>
    case LetGo(d) => CollectBroken(r.(held := r.held - {d}), d, c, fd);
    case PostTask =>
  }

  lemma {:induction false} ActAllBroken(r: Reactor, acts: seq<UserAct>, c: nat, fd: int)
    requires Broken(r, c, fd) && ActAll(r, acts).Ok?
    ensures Broken(ActAll(r, acts).value, c, fd)
    decreases |acts|
  {
    hide Act, Broken;
    if acts != [] {
      ActBroken(r, acts[0], c, fd);
      ActAllBroken(Act(r, acts[0]).value, acts[1..], c, fd);
    }
  }

  /** Finishing the new connection leaves alone what the poller has of the first one. */
  lemma FinishBroken(r: Reactor, id: nat, c: nat, fd: int)
    requires Broken(r, c, fd) && id != c && id in r.conns && ConnEv(id) in r.poller.events
    requires r.poller.events[ConnEv(id)].fd !in r.poller.fdMap && r.poller.events[ConnEv(id)].index == New
    ensures Finish(r, id).Ok? && Broken(Finish(r, id).value, c, fd)
  {
    if C.ConnectAsserts(r.conns[id].state, r.poller, ConnEv(id)) && r.conns[id].state == C.Connecting {
      OtherMapped(r.poller, EnableReading(ConnEv(id)), ConnEv(c), fd);
    }
    hide Apply;
  }

  /** The new connection is in place of the first: nothing owns that any more, though the poller has it. */
  lemma CreatedBroken(r: Reactor, s: nat, fd: int, first: nat)
    requires Taken(r, s, fd, first) && PollerOk(r.poller)
    ensures Broken(Created(r, s, fd), first, r.poller.events[ConnEv(first)].fd)
  {
    assert Agrees(r.poller, ConnEv(first));
    var created := Created(r, s, fd);
    assert created.servers[s].connections == map[r.servers[s].name := r.nextId];
    forall t | t in created.servers ensures first !in created.servers[t].connections.Values {}
  }

  lemma NewStays(r: Reactor, s: nat, fd: int, first: nat)
    requires Taken(r, s, fd, first)
    ensures var mapped, id := Collect(Created(r, s, fd), first), r.nextId;
            && id in mapped.conns && ConnEv(id) in mapped.poller.events
            && mapped.poller.events[ConnEv(id)].fd !in mapped.poller.fdMap
            && mapped.poller.events[ConnEv(id)].index == New
  {
    hide Referenced;
  }

  /**
   Accepting while the name is taken, whatever the connect callback does: the first connection ends up without an owner, or
   released while it is still mapped.
   */
  lemma AcceptBreaks(r: Reactor, s: nat, fd: int, acts: seq<UserAct>)
    requires Inv(r) && s in r.servers && r.servers[s].name in r.servers[s].connections
    requires NewConnection(r, s, fd, acts).Ok?
    ensures var first := r.servers[s].connections[r.servers[s].name];
            && ConnEv(first) in r.poller.events
            && Broken(NewConnection(r, s, fd, acts).value, first, r.poller.events[ConnEv(first)].fd)
  {
    var first, id := r.servers[s].connections[r.servers[s].name], r.nextId;
    NameTaken(r, s, fd);
    var lost := r.poller.events[ConnEv(first)].fd;
    CreatedBroken(r, s, fd, first);
    NewStays(r, s, fd, first);
    hide Inv, PollerOk, Broken, Taken, Created, Collect, Finish, ActAll;
    CollectBroken(Created(r, s, fd), first, first, lost);
    var mapped := Collect(Created(r, s, fd), first);
    FinishBroken(mapped, id, first, lost);
    var enabled := Finish(mapped, id).value;
    ActAllBroken(enabled, acts, first, lost);
    CollectBroken(ActAll(enabled, acts).value, id, first, lost);
  }

  /** The map holds a released event under a descriptor that nothing else uses, the kernel included. */
  ghost predicate Dangling(p: Poller<Ev>, e: Ev, fd: int) {
    && fd in p.fdMap && p.fdMap[fd] == e && e !in p.events && fd !in p.kernel
    && forall f | f in p.events :: p.events[f].fd != fd
  }

  /** User code creates no event, moves none to another descriptor, and has none watched but that of an event. */
  ghost predicate Shrinks(r: Reactor, r': Reactor) {
    && (forall e | e in r'.poller.events :: e in r.poller.events && r'.poller.events[e].fd == r.poller.events[e].fd)
    && (forall fd | fd in r'.poller.kernel :: fd in r.poller.kernel || Used(r.poller, fd))
  }

  ghost predicate Used(p: Poller<Ev>, fd: int) {
    exists e :: e in p.events && p.events[e].fd == fd
  }

  lemma ActShrinks(r: Reactor, act: UserAct)
    requires Act(r, act).Ok?
    ensures Shrinks(r, Act(r, act).value)
  {
    if act.SendTo? { ApplyShape(r.poller, EnableWriting(ConnEv(act.conn))); }
    hide Apply, Referenced;
  }

  lemma {:induction false} ActAllShrinks(r: Reactor, acts: seq<UserAct>)
    requires ActAll(r, acts).Ok?
    ensures Shrinks(r, ActAll(r, acts).value)
    decreases |acts|
  {
    hide Act;
    if acts != [] {
      ActShrinks(r, acts[0]);
      ActAllShrinks(Act(r, acts[0]).value, acts[1..]);
    }
  }

  /** What user code keeps a pointer to stays up until it lets go. */
  lemma ActHolds(r: Reactor, act: UserAct, c: nat)
    requires c in r.held && Connected(r, c) && act != LetGo(c) && Act(r, act).Ok?
    ensures c in Act(r, act).value.held && Connected(Act(r, act).value, c)
  {
    hide Apply, Asserts;
  }

  lemma {:induction false} ActAllHolds(r: Reactor, acts: seq<UserAct>, c: nat)
    requires c in r.held && Connected(r, c) && LetGo(c) !in acts && ActAll(r, acts).Ok?
    ensures c in ActAll(r, acts).value.held && Connected(ActAll(r, acts).value, c)
    decreases |acts|
  {
    hide Act, Connected;
    if acts != [] {
      ActHolds(r, acts[0], c);
      ActAllHolds(Act(r, acts[0]).value, acts[1..], c);
    }
  }

  /** The state in which the connect callback runs. */
  ghost function AtCallback(r: Reactor, s: nat, fd: int): Outcome<Reactor>
    requires s in r.servers && r.servers[s].name in r.servers[s].connections
  {
    Finish(Collect(Created(r, s, fd), r.servers[s].connections[r.servers[s].name]), r.nextId)
  }

  /** If user code keeps the first connection through the callback, that stays up, owned by no server. */
  lemma TakenWhileHeld(r: Reactor, s: nat, fd: int, acts: seq<UserAct>)
    requires Inv(r) && s in r.servers && r.servers[s].name in r.servers[s].connections
    requires r.servers[s].connections[r.servers[s].name] in r.held
    requires LetGo(r.servers[s].connections[r.servers[s].name]) !in acts
    ensures NewConnection(r, s, fd, acts).Ok? ==>
            var v, first := NewConnection(r, s, fd, acts).value, r.servers[s].connections[r.servers[s].name];
            Connected(v, first) && forall t | t in v.servers :: first !in v.servers[t].connections.Values
  {
    if NewConnection(r, s, fd, acts).Ok? {
      var first := r.servers[s].connections[r.servers[s].name];
      NameTaken(r, s, fd);
      hide Inv, Taken, Created, Finish, ActAll, PollerOk, Broken;
      AcceptBreaks(r, s, fd, acts);
      assert AtCallback(r, s, fd).Ok?;
      hide AtCallback;
      HeldAtCallback(r, s, fd, first);
      ActAllHolds(AtCallback(r, s, fd).value, acts, first);
      var called := ActAll(AtCallback(r, s, fd).value, acts).value;
      assert Connected(Collect(called, r.nextId), first) by { CollectKeepsHeld(called, r.nextId, first); }
      hide Collect, Connected;
      BrokenUnowned(Collect(called, r.nextId), first, r.poller.events[ConnEv(first)].fd);
    }
  }

  lemma CollectKeepsHeld(r: Reactor, d: nat, c: nat)
    requires c in r.held && Connected(r, c)
    ensures Connected(Collect(r, d), c)
  {}

  lemma BrokenUnowned(r: Reactor, c: nat, fd: int)
    requires Broken(r, c, fd)
    ensures forall s | s in r.servers :: c !in r.servers[s].connections.Values
  {}

  lemma HeldAtCallback(r: Reactor, s: nat, fd: int, first: nat)
    requires Taken(r, s, fd, first) && first in r.held && AtCallback(r, s, fd).Ok?
    ensures first in AtCallback(r, s, fd).value.held && Connected(AtCallback(r, s, fd).value, first)
  {
    assert Collect(Created(r, s, fd), first) == Created(r, s, fd);
    hide Apply, Asserts, Collect;
  }

  /** If only the server keeps the first connection, that is released while still mapped, whatever the callback does. */
  lemma TakenAndFreed(r: Reactor, s: nat, fd: int, acts: seq<UserAct>)
    requires Inv(r) && s in r.servers && r.servers[s].name in r.servers[s].connections
    requires r.servers[s].connections[r.servers[s].name] !in r.held
    ensures NewConnection(r, s, fd, acts).Ok? ==>
            var first := r.servers[s].connections[r.servers[s].name];
            && ConnEv(first) in r.poller.events
            && Dangling(NewConnection(r, s, fd, acts).value.poller, ConnEv(first), r.poller.events[ConnEv(first)].fd)
  {
    if NewConnection(r, s, fd, acts).Ok? {
      var first := r.servers[s].connections[r.servers[s].name];
      AcceptBreaks(r, s, fd, acts);
      NameTaken(r, s, fd);
      FreedAtCallback(r, s, fd, first);
      hide Inv, Taken, Created, Finish, ActAll, PollerOk, AtCallback;
      var at := AtCallback(r, s, fd).value;
      var called := ActAll(at, acts).value;
      ActAllShrinks(at, acts);
      CollectShrinks(called, r.nextId);
      assert Collect(called, r.nextId) == NewConnection(r, s, fd, acts).value;
      hide Collect, NewConnection;
      StaysReleased(at, called, Collect(called, r.nextId), ConnEv(first), r.poller.events[ConnEv(first)].fd);
    }
  }

  lemma CollectShrinks(r: Reactor, c: nat)
    ensures Shrinks(r, Collect(r, c))
  {}

  lemma StaysReleased(a: Reactor, b: Reactor, r: Reactor, e: Ev, fd: int)
    requires Shrinks(a, b) && Shrinks(b, r) && e !in a.poller.events && fd !in a.poller.kernel && !Used(a.poller, fd)
    requires fd in r.poller.fdMap && r.poller.fdMap[fd] == e
    ensures Dangling(r.poller, e, fd)
  {}

  lemma FreedAtCallback(r: Reactor, s: nat, fd: int, first: nat)
    requires Taken(r, s, fd, first) && first !in r.held && PollerOk(r.poller) && AtCallback(r, s, fd).Ok?
    ensures var p := AtCallback(r, s, fd).value.poller;
            && ConnEv(first) !in p.events && r.poller.events[ConnEv(first)].fd !in p.kernel
            && !Used(p, r.poller.events[ConnEv(first)].fd)
  {
    NotReferenced(r, s, fd, first);
    var mapped := Collect(Created(r, s, fd), first);
    assert ConnEv(first) !in mapped.poller.events by { hide Referenced; }
    assert forall e | e in mapped.poller.events :: mapped.poller.events[e].fd != r.poller.events[ConnEv(first)].fd;
    if ConnEv(r.nextId) in mapped.poller.events { ApplyShape(mapped.poller, EnableReading(ConnEv(r.nextId))); }
    hide Apply, Created, Collect, PollerOk, Taken;
  }

  lemma NotReferenced(r: Reactor, s: nat, fd: int, first: nat)
    requires Taken(r, s, fd, first) && first !in r.held
    ensures !Referenced(Created(r, s, fd), first)
  {
    var created := Created(r, s, fd);
    assert created.servers[s].connections == map[r.servers[s].name := r.nextId];
    forall t | t in created.servers ensures first !in created.servers[t].connections.Values {}
  }

  /** No assert fails before the connect callback runs. */
  lemma CallbackReached(r: Reactor, s: nat, fd: int)
    requires Inv(r) && s in r.servers && r.servers[s].name in r.servers[s].connections
    requires fd > 0 && forall e | e in r.poller.events :: r.poller.events[e].fd != fd
    ensures AtCallback(r, s, fd).Ok?
  {
    var first := r.servers[s].connections[r.servers[s].name];
    NameTaken(r, s, fd);
    CreatedBroken(r, s, fd, first);
    NewStays(r, s, fd, first);
    hide Inv, PollerOk, Broken, Taken, Created, Collect, Finish;
    CollectBroken(Created(r, s, fd), first, first, r.poller.events[ConnEv(first)].fd);
    FinishBroken(Collect(Created(r, s, fd), first), r.nextId, first, r.poller.events[ConnEv(first)].fd);
  }

  /** A server may accept exactly when it has no connection, whatever its connect callback does. */
  lemma AcceptExact(r: Reactor, s: nat, fd: int, acts: seq<UserAct>)
    requires Inv(r) && !NewConnection(r, s, fd, acts).Impossible?
    ensures s in r.servers
    ensures var o := NewConnection(r, s, fd, acts);
            o.Ok? && Inv(o.value) <==> r.servers[s].name !in r.servers[s].connections
  {
    hide Inv, Broken;
    var o := NewConnection(r, s, fd, acts);
    assert s in r.servers;
    hide NewConnection;
    if r.servers[s].name !in r.servers[s].connections {
      NewConnectionInv(r, s, fd, acts);
    } else if o.Ok? {
      AcceptBreaks(r, s, fd, acts);
      var first := r.servers[s].connections[r.servers[s].name];
      BrokenUnsafe(o.value, first, r.poller.events[ConnEv(first)].fd);
    }
  }

  /** Once such a connection is released, the next one to get its descriptor fails the assert that it is not mapped. */
  lemma ReuseFaults(r: Reactor, s: nat, e: Ev, fd: int, acts: seq<UserAct>)
    requires Dangling(r.poller, e, fd) && s in r.servers && fd > 0
    ensures NewConnection(r, s, fd, acts).Fault?
  {
    hide ActAll, Apply;
  }

  /** Over all steps: the invariant survives, with no fault, exactly when the step is untroubled. */
  lemma StepExact(r: Reactor, step: ReactorModel.Step)
    requires Inv(r) && !Next(r, step).Impossible?
    ensures Next(r, step).Ok? && Inv(Next(r, step).value) <==> !Troubled(r, step)
  {
    if !Troubled(r, step) {
      hide Inv, Next, Troubled;
      StepSafe(r, step);
    } else {
      var env := step.env;
      TakeInv(r);
      if r.active[0].ConnEv? {
        hide Inv, Next, Troubled;
        CloseExact(r, env);
      } else {
        AcceptorDispatch(r, env);
        hide Inv, NewConnection, Next;
        AcceptExact(r.(active := r.active[1..]), r.active[0].server, env.accepted[0], env.readActs);
      }
    }
  }
}
