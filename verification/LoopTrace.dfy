/**
 What happens in a run, read off its steps alone: connections open and shut, and user code acts. The state of the loop
 follows from that: which connections are up, what each of them has accepted for sending, which tasks were queued, and
 what user code keeps.
 */
module LoopTrace {
  import opened IntCodec
  import opened Prelude
  import opened PollerModel
  import C = ConnectionModel
  import opened ReactorModel
  import opened ReactorInvariant

  // ----- happenings

  datatype Happening = Opened(conn: nat) | Shut(conn: nat) | Acted(acts: seq<UserAct>)

  /** What a dispatch to a connection makes happen: its close callback, then what its read finds. */
  function OfConn(c: nat, revents: Mask, env: Env): seq<Happening> {
    (if CloseCallback in Callbacks(revents) then [Shut(c), Acted(env.closeActs)] else [])
    + (if ReadCallback in Callbacks(revents) then OfRead(c, env.recv, env.readActs) else [])
  }

  function OfRead(c: nat, recv: Recv, acts: seq<UserAct>): seq<Happening> {
    match recv
    case Data => [Acted(acts)]
    case Eof => [Shut(c), Acted(acts)]
    case Failed => []
  }

  function OfEvent(e: Ev, revents: Mask, env: Env, nextId: nat): seq<Happening> {
    match e
    case AcceptorEv(_) =>
      if ReadCallback in Callbacks(revents) && env.accepted != [] then [Opened(nextId), Acted(env.readActs)] else []
    case ConnEv(c) => OfConn(c, revents, env)
  }

  function Happenings(r: Reactor, step: ReactorModel.Step): seq<Happening> {
    match step
    case RunTask(acts) => if r.tasks != [] && r.tasks[0] == UserTask then [Acted(acts)] else []
    case Dispatch(env) =>
      if r.active != [] && r.active[0] in r.poller.events
      then OfEvent(r.active[0], r.poller.events[r.active[0]].revents, env, r.nextId) else []
    case _ => []
  }

  // ----- what follows from them

  /** The bytes user code sends on a connection. */
  function Messages(acts: seq<UserAct>, c: nat): seq<Byte> {
    if acts == [] then []
    else (if acts[0].SendTo? && acts[0].conn == c then acts[0].message else []) + Messages(acts[1..], c)
  }

  function TasksOf(acts: seq<UserAct>): seq<Task> {
    if acts == [] then [] else (if acts[0].PostTask? then [UserTask] else []) + TasksOf(acts[1..])
  }

  function Holding(held: set<nat>, acts: seq<UserAct>): set<nat>
    decreases |acts|
  {
    if acts == [] then held else Holding(HeldNow(held, acts[0]), acts[1..])
  }

  function HeldNow(held: set<nat>, act: UserAct): set<nat> {
    match act
    case Retain(c) => held + {c}
    case LetGo(c) => held - {c}
    case _ => held
  }

  function UpNow(up: set<nat>, h: Happening): set<nat> {
    match h
    case Opened(c) => up + {c}
    case Shut(c) => up - {c}
    case Acted(_) => up
  }

  function UpAfter(up: set<nat>, hs: seq<Happening>): set<nat>
    decreases |hs|
  {
    if hs == [] then up else UpAfter(UpNow(up, hs[0]), hs[1..])
  }

  /** What is sent on connection `c` while it is up. */
  function Heard(up: set<nat>, hs: seq<Happening>, c: nat): seq<Byte>
    decreases |hs|
  {
    if hs == [] then []
    else (if hs[0].Acted? && c in up then Messages(hs[0].acts, c) else []) + Heard(UpNow(up, hs[0]), hs[1..], c)
  }

  function QueuedBy(h: Happening): seq<Task> {
    match h
    case Opened(_) => []
    case Shut(c) => [Disconnect(c)]
    case Acted(acts) => TasksOf(acts)
  }

  function Queued(hs: seq<Happening>): seq<Task> {
    if hs == [] then [] else QueuedBy(hs[0]) + Queued(hs[1..])
  }

  function HeldAfter(held: set<nat>, hs: seq<Happening>): set<nat>
    decreases |hs|
  {
    if hs == [] then held else HeldAfter(if hs[0].Acted? then Holding(held, hs[0].acts) else held, hs[1..])
  }

  // ----- a state follows from another by what happened in between

  function Ups(r: Reactor): set<nat> {
    set c | c in r.conns && r.conns[c].state == C.Connected
  }

  function SentOf(r: Reactor, c: nat): seq<Byte> {
    if c in r.conns then r.conns[c].out.sent else []
  }

  /** Connections get new numbers. */
  ghost predicate Numbered(r: Reactor, r': Reactor, hs: seq<Happening>) {
    && r.nextId <= r'.nextId
    && (forall c: nat | Opened(c) in hs :: r.nextId <= c < r'.nextId)
    && (forall c | c in r'.conns :: c < r'.nextId && (c in r.conns || r.nextId <= c))
  }

  ghost predicate SentFollows(r: Reactor, r': Reactor, hs: seq<Happening>) {
    forall c | c in r'.conns :: SentOf(r', c) == SentOf(r, c) + Heard(Ups(r), hs, c)
  }

  ghost predicate Follows(r: Reactor, r': Reactor, hs: seq<Happening>) {
    && Ups(r') == UpAfter(Ups(r), hs)
    && r'.posted == r.posted + Queued(hs)
    && r'.held == HeldAfter(r.held, hs)
    && Numbered(r, r', hs) && SentFollows(r, r', hs)
  }

  ghost predicate IdsOk(r: Reactor) {
    forall c | c in r.conns :: c < r.nextId
  }

  lemma InvIds(r: Reactor)
    requires Inv(r)
    ensures IdsOk(r)
  {
    hide PollerOk, OwnersOk, ActiveOk, TasksOk, ServersOk, KeptBut;
    forall c | c in r.conns ensures c < r.nextId { ConnFacts(r, c); }
  }

  // ----- one after the other

  lemma {:induction false} UpConcat(up: set<nat>, a: seq<Happening>, b: seq<Happening>)
    ensures UpAfter(up, a + b) == UpAfter(UpAfter(up, a), b)
    decreases |a|
  {
    if a == [] {
      assert a + b == b;
    } else {
      assert (a + b)[0] == a[0] && (a + b)[1..] == a[1..] + b;
      UpConcat(UpNow(up, a[0]), a[1..], b);
    }
  }

  lemma {:induction false} HeldConcat(held: set<nat>, a: seq<Happening>, b: seq<Happening>)
    ensures HeldAfter(held, a + b) == HeldAfter(HeldAfter(held, a), b)
    decreases |a|
  {
    if a == [] {
      assert a + b == b;
    } else {
      assert (a + b)[0] == a[0] && (a + b)[1..] == a[1..] + b;
      HeldConcat(if a[0].Acted? then Holding(held, a[0].acts) else held, a[1..], b);
    }
  }

  lemma {:induction false} QueuedConcat(a: seq<Happening>, b: seq<Happening>)
    ensures Queued(a + b) == Queued(a) + Queued(b)
    decreases |a|
  {
    if a == [] {
      assert a + b == b;
    } else {
      assert (a + b)[0] == a[0] && (a + b)[1..] == a[1..] + b;
      QueuedConcat(a[1..], b);
      ConcatAssociative(QueuedBy(a[0]), Queued(a[1..]), Queued(b));
    }
  }

  lemma {:induction false} HeardConcat(up: set<nat>, a: seq<Happening>, b: seq<Happening>, c: nat)
    ensures Heard(up, a + b, c) == Heard(up, a, c) + Heard(UpAfter(up, a), b, c)
    decreases |a|
  {
    if a == [] {
      assert a + b == b;
    } else {
      assert (a + b)[0] == a[0] && (a + b)[1..] == a[1..] + b;
      var up', first := UpNow(up, a[0]), if a[0].Acted? && c in up then Messages(a[0].acts, c) else [];
      assert Heard(up, a + b, c) == first + Heard(up', a[1..] + b, c);
      assert Heard(up, a, c) == first + Heard(up', a[1..], c) && UpAfter(up, a) == UpAfter(up', a[1..]);
      HeardConcat(up', a[1..], b, c);
      ConcatAssociative(first, Heard(up', a[1..], c), Heard(UpAfter(up', a[1..]), b, c));
    }
  }

  /** Nothing is sent on a connection that is never up. */
  lemma {:induction false} NeverHeard(up: set<nat>, hs: seq<Happening>, c: nat)
    requires c !in up && Opened(c) !in hs
    ensures Heard(up, hs, c) == []
    decreases |hs|
  {
    if hs != [] {
      assert hs[0] != Opened(c);
      NeverHeard(UpNow(up, hs[0]), hs[1..], c);
    }
  }

  lemma SentConcat(r: Reactor, r': Reactor, r'': Reactor, a: seq<Happening>, b: seq<Happening>)
    requires IdsOk(r) && Numbered(r, r', a) && Numbered(r', r'', b) && Ups(r') == UpAfter(Ups(r), a)
    requires SentFollows(r, r', a) && SentFollows(r', r'', b)
    ensures SentFollows(r, r'', a + b)
  {
    forall c | c in r''.conns ensures SentOf(r'', c) == SentOf(r, c) + Heard(Ups(r), a + b, c) {
      HeardConcat(Ups(r), a, b, c);
      var sent, first, second := SentOf(r, c), Heard(Ups(r), a, c), Heard(Ups(r'), b, c);
      if c !in r'.conns { NeverHeard(Ups(r), a, c); }
      assert SentOf(r', c) == sent + first;
      hide Heard, Ups, Numbered;
      ConcatAssociative(sent, first, second);
    }
  }

  lemma FollowsOn(r: Reactor, r': Reactor, r'': Reactor, a: seq<Happening>, b: seq<Happening>)
    requires IdsOk(r) && Follows(r, r', a) && Follows(r', r'', b)
    ensures Follows(r, r'', a + b)
  {
    hide Ups, SentFollows;
    UpConcat(Ups(r), a, b);
    QueuedConcat(a, b);
    HeldConcat(r.held, a, b);
    SentConcat(r, r', r'', a, b);
    hide UpAfter, Queued, HeldAfter;
    ConcatAssociative(r.posted, Queued(a), Queued(b));
  }

  // ----- user code

  /** What user code leaves of a state. */
  ghost predicate ActsFollow(r: Reactor, r': Reactor, acts: seq<UserAct>) {
    && Ups(r') == Ups(r) && r'.posted == r.posted + TasksOf(acts) && r'.held == Holding(r.held, acts)
    && r'.nextId == r.nextId && r'.conns.Keys <= r.conns.Keys
    && forall c | c in r'.conns :: SentOf(r', c) == SentOf(r, c) + if c in Ups(r) then Messages(acts, c) else []
  }

  lemma OneAct(act: UserAct, held: set<nat>, c: nat)
    ensures Messages([act], c) == if act.SendTo? && act.conn == c then act.message else []
    ensures TasksOf([act]) == if act.PostTask? then [UserTask] else []
    ensures Holding(held, [act]) == HeldNow(held, act)
  {
    assert [act][1..] == [];
  }

  lemma ActUps(r: Reactor, act: UserAct)
    requires Inv(r) && Act(r, act).Ok?
    ensures Ups(Act(r, act).value) == Ups(r)
  {
    ActInv(r, act);
    var v := Act(r, act).value;
    hide Inv, Act, Connected, Ups;
    forall c: nat ensures Connected(v, c) <==> Connected(r, c) {
      if Connected(v, c) { ActNoneUp(r, act, c); }
    }
    SameUps(r, v);
  }

  lemma SameUps(r: Reactor, r': Reactor)
    requires forall c: nat :: Connected(r', c) <==> Connected(r, c)
    ensures Ups(r') == Ups(r)
  {
    forall c: nat ensures c in Ups(r') <==> c in Ups(r) { assert Connected(r', c) <==> Connected(r, c); }
  }

  /** User code brings no connection up. */
  lemma ActNoneUp(r: Reactor, act: UserAct, c: nat)
    requires Act(r, act).Ok? && Connected(Act(r, act).value, c)
    ensures Connected(r, c)
  {
    hide Apply, Asserts, Referenced;
  }

  lemma ActRest(r: Reactor, act: UserAct)
    requires Act(r, act).Ok?
    ensures var v := Act(r, act).value;
            && v.posted == r.posted + (if act.PostTask? then [UserTask] else []) && v.held == HeldNow(r.held, act)
            && v.nextId == r.nextId && v.conns.Keys <= r.conns.Keys
  {
    assert r.posted + [] == r.posted;
    hide Apply, Asserts, Referenced;
  }

  lemma ActSent(r: Reactor, act: UserAct, c: nat)
    requires Act(r, act).Ok? && c in Act(r, act).value.conns
    ensures c in r.conns
    ensures SentOf(Act(r, act).value, c)
            == SentOf(r, c) + if Connected(r, c) && act.SendTo? && act.conn == c then act.message else []
  {
    assert SentOf(r, c) + [] == SentOf(r, c);
    hide Apply, Asserts, Referenced;
  }

  lemma ActFollows(r: Reactor, act: UserAct)
    requires Inv(r) && Act(r, act).Ok?
    ensures ActsFollow(r, Act(r, act).value, [act])
  {
    hide Inv, Act, SentOf, Messages, TasksOf, Holding, Ups;
    ActUps(r, act);
    ActRest(r, act);
    OneAct(act, r.held, 0);
    var v := Act(r, act).value;
    forall c | c in v.conns ensures SentOf(v, c) == SentOf(r, c) + if c in Ups(r) then Messages([act], c) else [] {
      ActMessages(r, act, c);
    }
  }

  lemma ActMessages(r: Reactor, act: UserAct, c: nat)
    requires Act(r, act).Ok? && c in Act(r, act).value.conns
    ensures SentOf(Act(r, act).value, c) == SentOf(r, c) + if c in Ups(r) then Messages([act], c) else []
  {
    OneAct(act, r.held, c);
    ActSent(r, act, c);
    assert c in Ups(r) <==> Connected(r, c);
    hide Act, SentOf, Messages;
  }

  lemma {:induction false} ActAllFollows(r: Reactor, acts: seq<UserAct>)
    requires Inv(r) && ActAll(r, acts).Ok?
    ensures ActsFollow(r, ActAll(r, acts).value, acts)
    decreases |acts|
  {
    if acts == [] {
      assert r.posted + [] == r.posted;
      forall c | c in r.conns ensures SentOf(r, c) == SentOf(r, c) + [] {}
    } else {
      ActFollows(r, acts[0]);
      ActInv(r, acts[0]);
      hide Inv, Act;
      var r' := Act(r, acts[0]).value;
      ActAllFollows(r', acts[1..]);
      ActsCompose(r, r', ActAll(r', acts[1..]).value, acts);
    }
  }

  lemma ActsCompose(r: Reactor, r': Reactor, r'': Reactor, acts: seq<UserAct>)
    requires acts != [] && ActsFollow(r, r', [acts[0]]) && ActsFollow(r', r'', acts[1..])
    ensures ActsFollow(r, r'', acts)
  {
    OneAct(acts[0], r.held, 0);
    hide Ups;
    ConcatAssociative(r.posted, TasksOf([acts[0]]), TasksOf(acts[1..]));
    forall c | c in r''.conns ensures SentOf(r'', c) == SentOf(r, c) + if c in Ups(r) then Messages(acts, c) else [] {
      OneAct(acts[0], r.held, c);
      ConcatAssociative(SentOf(r, c), Messages([acts[0]], c), Messages(acts[1..], c));
      assert (SentOf(r, c) + []) + [] == SentOf(r, c) + [];
    }
  }

  lemma OneHappening(r: Reactor, h: Happening, c: nat)
    ensures UpAfter(Ups(r), [h]) == UpNow(Ups(r), h) && Queued([h]) == QueuedBy(h)
    ensures HeldAfter(r.held, [h]) == if h.Acted? then Holding(r.held, h.acts) else r.held
    ensures Heard(Ups(r), [h], c) == if h.Acted? && c in Ups(r) then Messages(h.acts, c) else []
  {
    assert [h][1..] == [];
    assert QueuedBy(h) + [] == QueuedBy(h);
  }

  lemma ActedFollows(r: Reactor, acts: seq<UserAct>)
    requires Inv(r) && ActAll(r, acts).Ok?
    ensures Follows(r, ActAll(r, acts).value, [Acted(acts)])
  {
    InvIds(r);
    ActAllFollows(r, acts);
    hide Inv;
    ActsNumbered(r, ActAll(r, acts).value, acts);
    ActsSent(r, ActAll(r, acts).value, acts);
    hide *;
    ActsAre(r, ActAll(r, acts).value, acts);
  }

  lemma ActsAre(r: Reactor, r': Reactor, acts: seq<UserAct>)
    requires ActsFollow(r, r', acts) && Numbered(r, r', [Acted(acts)]) && SentFollows(r, r', [Acted(acts)])
    ensures Follows(r, r', [Acted(acts)])
  {
    OneHappening(r, Acted(acts), 0);
    hide Ups, UpAfter, HeldAfter, Queued, Holding, TasksOf, Numbered, SentFollows;
  }

  lemma ActsNumbered(r: Reactor, r': Reactor, acts: seq<UserAct>)
    requires IdsOk(r) && ActsFollow(r, r', acts)
    ensures Numbered(r, r', [Acted(acts)])
  {
    hide Ups, Holding, TasksOf, Messages, SentOf;
  }

  lemma ActsSent(r: Reactor, r': Reactor, acts: seq<UserAct>)
    requires ActsFollow(r, r', acts)
    ensures SentFollows(r, r', [Acted(acts)])
  {
    hide Ups, Holding, TasksOf, Messages, SentOf, Heard;
    forall c | c in r'.conns ensures SentOf(r', c) == SentOf(r, c) + Heard(Ups(r), [Acted(acts)], c) {
      OneHappening(r, Acted(acts), c);
    }
  }

  // ----- nothing happens

  /** Connections may only go, and none that is up. */
  ghost predicate Quiet(r: Reactor, r': Reactor) {
    && Ups(r') == Ups(r) && r'.posted == r.posted && r'.held == r.held && r'.nextId == r.nextId
    && r'.conns.Keys <= r.conns.Keys && forall c | c in r'.conns :: r'.conns[c].out.sent == r.conns[c].out.sent
  }

  lemma QuietFollows(r: Reactor, r': Reactor)
    requires IdsOk(r) && Quiet(r, r')
    ensures Follows(r, r', [])
  {
    assert r.posted + [] == r.posted;
    forall c | c in r'.conns ensures SentOf(r', c) == SentOf(r, c) + [] {}
  }

  // ----- connections shut and open

  lemma ShutFollows(r: Reactor, r': Reactor, c: nat)
    requires Closes(r, r', c) && IdsOk(r)
    ensures Follows(r, r', [Shut(c)])
  {
    OneHappening(r, Shut(c), 0);
    assert Ups(r') == Ups(r) - {c} by {
      forall d: nat ensures d in Ups(r') <==> d in Ups(r) - {c} {}
    }
    hide Ups;
    forall d | d in r'.conns ensures SentOf(r', d) == SentOf(r, d) + Heard(Ups(r), [Shut(c)], d) {
      OneHappening(r, Shut(c), d);
      assert SentOf(r, d) + [] == SentOf(r, d);
    }
    hide Heard, UpAfter, Queued, HeldAfter, SentOf;
  }

  lemma OpenFollows(r: Reactor, r': Reactor, s: nat)
    requires Opens(r, r', s) && IdsOk(r)
    ensures Follows(r, r', [Opened(r.nextId)])
  {
    var id := r.nextId;
    OneHappening(r, Opened(id), 0);
    assert Ups(r') == Ups(r) + {id} by {
      forall d: nat ensures d in Ups(r') <==> d in Ups(r) + {id} {}
    }
    hide Ups;
    assert r.posted + [] == r.posted;
    forall d | d in r'.conns ensures SentOf(r', d) == SentOf(r, d) + Heard(Ups(r), [Opened(id)], d) {
      OneHappening(r, Opened(id), d);
      assert SentOf(r, d) + [] == SentOf(r, d);
    }
    hide Heard, UpAfter, Queued, HeldAfter, SentOf;
  }

  lemma ThenActs(r: Reactor, r': Reactor, h: Happening, acts: seq<UserAct>)
    requires IdsOk(r) && Follows(r, r', [h]) && Inv(r') && ActAll(r', acts).Ok?
    ensures Follows(r, ActAll(r', acts).value, [h, Acted(acts)])
  {
    hide *;
    ActedFollows(r', acts);
    FollowsOn(r, r', ActAll(r', acts).value, [h], [Acted(acts)]);
    assert [h] + [Acted(acts)] == [h, Acted(acts)];
  }

  /** A close is the close proper and then user code. */
  lemma HandleCloseActs(r: Reactor, c: nat, acts: seq<UserAct>)
    requires Inv(r) && Connected(r, c) && ConnEv(c) !in r.active && HandleClose(r, c, acts).Ok?
    ensures c in r.conns && ConnEv(c) in r.poller.events && r.conns[c].server in r.servers
    ensures Closes(r, ClosedState(r, c), c) && Inv(ClosedState(r, c))
    ensures ActAll(ClosedState(r, c), acts) == HandleClose(r, c, acts)
  {
    ClosedInv(r, c);
    HandleCloseIs(r, c, acts);
    var closed := ClosedState(r, c);
    assert Disconnect(c) in closed.tasks;
    hide Inv, ClosedState, HandleClose, ActAll, Collect, Connected, Closes;
    ActAllInv(closed, acts);
    if ActAll(closed, acts).Ok? {
      var r' := ActAll(closed, acts).value;
      QueuedDisconnect(r', c);
      CollectInv(r', c);
    }
  }

  lemma HandleCloseFollows(r: Reactor, c: nat, acts: seq<UserAct>)
    requires Inv(r) && Connected(r, c) && ConnEv(c) !in r.active && HandleClose(r, c, acts).Ok?
    ensures Follows(r, HandleClose(r, c, acts).value, [Shut(c), Acted(acts)])
  {
    HandleCloseActs(r, c, acts);
    InvIds(r);
    hide *;
    ShutFollows(r, ClosedState(r, c), c);
    ThenActs(r, ClosedState(r, c), Shut(c), acts);
  }

  /** Accepting is the opening proper and then user code. */
  lemma NewConnectionActs(r: Reactor, s: nat, fd: int, acts: seq<UserAct>)
    requires Inv(r) && s in r.servers && r.servers[s].name !in r.servers[s].connections
    requires NewConnection(r, s, fd, acts).Ok?
    ensures Opens(r, OpenState(r, s, fd), s) && Inv(OpenState(r, s, fd))
    ensures ActAll(OpenState(r, s, fd), acts) == NewConnection(r, s, fd, acts)
  {
    OpenInv(r, s, fd);
    NewConnectionIs(r, s, fd, acts);
    var up, id := OpenState(r, s, fd), r.nextId;
    assert Connected(up, id);
    hide Inv, Opens, OpenState, NewConnection, ActAll, Collect;
    ActAllInv(up, acts);
    if ActAll(up, acts).Ok? {
      var r' := ActAll(up, acts).value;
      assert Connected(r', id);
      InvParts(r', id);
      CollectInv(r', id);
    }
  }

  lemma NewConnectionFollows(r: Reactor, s: nat, fd: int, acts: seq<UserAct>)
    requires Inv(r) && s in r.servers && r.servers[s].name !in r.servers[s].connections
    requires NewConnection(r, s, fd, acts).Ok?
    ensures Follows(r, NewConnection(r, s, fd, acts).value, [Opened(r.nextId), Acted(acts)])
  {
    NewConnectionActs(r, s, fd, acts);
    InvIds(r);
    hide *;
    OpenFollows(r, OpenState(r, s, fd), s);
    ThenActs(r, OpenState(r, s, fd), Opened(r.nextId), acts);
  }

  // ----- a dispatch

  lemma HandleReadFollows(r: Reactor, c: nat, recv: Recv, acts: seq<UserAct>)
    requires Inv(r) && Anchored(r, c)
    ensures HandleRead(r, c, recv, acts).Ok? ==> Follows(r, HandleRead(r, c, recv, acts).value, OfRead(c, recv, acts))
  {
    AnchoredAlive(r, c);
    InvIds(r);
    hide Inv, ActAll, HandleClose, Follows, ConnsOk, IdsOk;
    match recv
    case Data => if ActAll(r, acts).Ok? { ActedFollows(r, acts); }
    case Eof =>
      if !Connected(r, c) {
        SecondCloseFaults(r, c, acts);
      } else if HandleClose(r, c, acts).Ok? {
        HandleCloseFollows(r, c, acts);
      }
    case Failed => QuietFollows(r, r);
  }

  lemma HandleWriteFollows(r: Reactor, c: nat)
    requires Inv(r) && c in r.conns && ReactorModel.HandleWrite(r, c).Ok?
    ensures Follows(r, ReactorModel.HandleWrite(r, c).value, [])
  {
    InvIds(r);
    hide Inv, ReactorModel.HandleWrite, IdsOk, Quiet, Follows;
    WriteQuiet(r, c);
    QuietFollows(r, ReactorModel.HandleWrite(r, c).value);
  }

  lemma WriteQuiet(r: Reactor, c: nat)
    requires c in r.conns && ReactorModel.HandleWrite(r, c).Ok?
    ensures Quiet(r, ReactorModel.HandleWrite(r, c).value)
  {
    var v := ReactorModel.HandleWrite(r, c).value;
    hide Apply, Asserts;
    assert forall d: nat :: Connected(v, d) <==> Connected(r, d);
    SameUps(r, v);
    hide Ups;
  }

  lemma DispatchConnFollows(r: Reactor, c: nat, revents: Mask, env: Env)
    requires Inv(r) && Connected(r, c) && ConnEv(c) !in r.active && RdHup !in revents
    requires DispatchConn(r, c, revents, env).Ok?
    ensures Follows(r, DispatchConn(r, c, revents, env).value, OfConn(c, revents, env))
  {
    CallbacksExact(revents);
    hide Inv, HandleClose, HandleRead, ReactorModel.HandleWrite, Connected, Follows, Callbacks, OfRead, Anchored;
    var hung := if HangsUp(revents) then [Shut(c), Acted(env.closeActs)] else [];
    var read := if Reads(revents) then OfRead(c, env.recv, env.readActs) else [];
    assert OfConn(c, revents, env) == hung + read;
    var o := if HangsUp(revents) then HandleClose(r, c, env.closeActs) else Ok(r);
    var closed := o.value;
    CloseStage(r, c, revents, env, closed);
    var o' := if Reads(revents) then HandleRead(closed, c, env.recv, env.readActs) else Ok(closed);
    ReadStage(closed, c, revents, env, o'.value);
    InvIds(r);
    hide IdsOk;
    FollowsOn(r, closed, o'.value, hung, read);
    if Out in revents {
      AnchoredAlive(o'.value, c);
      HandleWriteFollows(o'.value, c);
      hide OfConn;
      FollowsOn(r, o'.value, ReactorModel.HandleWrite(o'.value, c).value, hung + read, []);
      assert (hung + read) + [] == hung + read;
    }
  }

  lemma CloseStage(r: Reactor, c: nat, revents: Mask, env: Env, v: Reactor)
    requires Inv(r) && Connected(r, c) && ConnEv(c) !in r.active
    requires (if HangsUp(revents) then HandleClose(r, c, env.closeActs) else Ok(r)) == Ok(v)
    ensures Inv(v) && Anchored(v, c)
    ensures Follows(r, v, if HangsUp(revents) then [Shut(c), Acted(env.closeActs)] else [])
  {
    hide Inv, HandleClose, Follows;
    if HangsUp(revents) {
      HandleCloseInv(r, c, env.closeActs);
      HandleCloseFollows(r, c, env.closeActs);
    } else {
      InvIds(r);
      QuietFollows(r, r);
    }
  }

  lemma ReadStage(r: Reactor, c: nat, revents: Mask, env: Env, v: Reactor)
    requires Inv(r) && Anchored(r, c)
    requires (if Reads(revents) then HandleRead(r, c, env.recv, env.readActs) else Ok(r)) == Ok(v)
    ensures Inv(v) && Anchored(v, c)
    ensures Follows(r, v, if Reads(revents) then OfRead(c, env.recv, env.readActs) else [])
  {
    hide Inv, HandleRead, Follows, Anchored, OfRead;
    if Reads(revents) {
      HandleReadInv(r, c, env.recv, env.readActs);
      HandleReadFollows(r, c, env.recv, env.readActs);
    } else {
      InvIds(r);
      QuietFollows(r, r);
    }
  }

  lemma DispatchFollows(r: Reactor, env: Env)
    requires Inv(r) && !Troubled(r, ReactorModel.Dispatch(env)) && Next(r, ReactorModel.Dispatch(env)).Ok?
    ensures Follows(r, Next(r, ReactorModel.Dispatch(env)).value, Happenings(r, ReactorModel.Dispatch(env)))
  {
    TakeInv(r);
    hide Inv, Next, Follows, Happenings, Troubled, Dispatchable;
    if r.active[0].ConnEv? { ConnFollows(r, r.active[0].conn, env); } else { AcceptorFollows(r, r.active[0].server, env); }
  }

  lemma ConnFollows(r: Reactor, c: nat, env: Env)
    requires Inv(r) && Next(r, ReactorModel.Dispatch(env)).Ok? && r.active != [] && r.active[0] == ConnEv(c)
    ensures Follows(r, Next(r, ReactorModel.Dispatch(env)).value, Happenings(r, ReactorModel.Dispatch(env)))
  {
    TakeInv(r);
    ConnDispatch(r, c, env);
    var r', revents := r.(active := r.active[1..]), r.poller.events[r.active[0]].revents;
    assert Connected(r', c) && Happenings(r, ReactorModel.Dispatch(env)) == OfConn(c, revents, env);
    hide Inv, DispatchConn, Next, Follows, OfConn, Connected, Happenings;
    DispatchConnFollows(r', c, revents, env);
    SameTrace(r, r', DispatchConn(r', c, revents, env).value, OfConn(c, revents, env));
  }

  lemma AcceptorFollows(r: Reactor, s: nat, env: Env)
    requires Inv(r) && !Troubled(r, ReactorModel.Dispatch(env)) && Next(r, ReactorModel.Dispatch(env)).Ok?
    requires r.active != [] && r.active[0] == AcceptorEv(s)
    ensures Follows(r, Next(r, ReactorModel.Dispatch(env)).value, Happenings(r, ReactorModel.Dispatch(env)))
  {
    TakeInv(r);
    InvIds(r);
    var r', revents := r.(active := r.active[1..]), r.poller.events[r.active[0]].revents;
    CallbacksExact(revents);
    hide Callbacks, Inv, Follows;
    if Reads(revents) && env.accepted != [] {
      AcceptorDispatch(r, env);
      hide NewConnection, Next;
      NewConnectionFollows(r', s, env.accepted[0], env.readActs);
      SameTrace(r, r', NewConnection(r', s, env.accepted[0], env.readActs).value, [Opened(r.nextId), Acted(env.readActs)]);
    } else {
      assert Next(r, ReactorModel.Dispatch(env)) == Ok(r');
      assert Ups(r') == Ups(r);
      QuietFollows(r, r');
    }
  }

  /** What is active does not matter. */
  lemma SameTrace(r: Reactor, r': Reactor, v: Reactor, hs: seq<Happening>)
    requires r' == r.(active := r'.active) && Follows(r', v, hs)
    ensures Follows(r, v, hs)
  {
    assert Ups(r') == Ups(r);
    forall c | c in v.conns ensures SentOf(v, c) == SentOf(r, c) + Heard(Ups(r), hs, c) {
      assert SentOf(v, c) == SentOf(r', c) + Heard(Ups(r'), hs, c);
    }
  }

  // ----- a task, and the other steps

  lemma RetiredFollows(r: Reactor, c: nat)
    requires Inv(r) && r.tasks != [] && r.tasks[0] == Disconnect(c) && ConnEv(c) in r.poller.events
    ensures Follows(r, Collect(RetiredState(r, c), c), [])
  {
    FrontDisconnect(r, c);
    InvIds(r);
    hide Inv, Apply, Follows, Collect, IdsOk;
    var retired := RetiredState(r, c);
    assert retired.conns == r.conns && retired.posted == r.posted && retired.held == r.held && retired.nextId == r.nextId;
    hide RetiredState;
    CollectQuiet(retired, c);
    QuietAfter(r, retired, Collect(retired, c));
    QuietFollows(r, Collect(retired, c));
  }

  lemma CollectQuiet(r: Reactor, c: nat)
    requires !Connected(r, c)
    ensures Quiet(r, Collect(r, c))
  {
    hide Referenced;
    forall d: nat ensures Connected(Collect(r, c), d) <==> Connected(r, d) {}
    SameUps(r, Collect(r, c));
    hide Ups;
  }

  lemma QuietAfter(r: Reactor, r': Reactor, r'': Reactor)
    requires r'.conns == r.conns && r'.posted == r.posted && r'.held == r.held && r'.nextId == r.nextId && Quiet(r', r'')
    ensures Quiet(r, r'')
  {
    assert Ups(r') == Ups(r);
  }

  lemma RunFrontFollows(r: Reactor, acts: seq<UserAct>)
    requires Inv(r) && r.tasks != [] && RunFront(r, acts).Ok?
    ensures Follows(r, RunFront(r, acts).value, if r.tasks[0] == UserTask then [Acted(acts)] else [])
  {
    match r.tasks[0]
    case Disconnect(c) =>
      hide Inv, Collect, Asserts, Apply, Follows;
      RetireInv(r, c);
      RunFrontDisconnectIs(r, c, acts);
      RetiredFollows(r, c);
    case UserTask =>
      ActedFollows(r, acts);
      var done := ActAll(r, acts).value;
      hide Inv, ActAll;
      SameHistory(r, done, RunFront(r, acts).value, [Acted(acts)]);
  }

  /** Popping the queue does not matter either. */
  lemma SameHistory(r: Reactor, v: Reactor, v': Reactor, hs: seq<Happening>)
    requires Follows(r, v, hs)
    requires v' == v.(tasks := v'.tasks, ran := v'.ran, phase := v'.phase, active := v'.active, poller := v'.poller)
    ensures Follows(r, v', hs)
  {
    assert Ups(v') == Ups(v);
    forall c | c in v'.conns ensures SentOf(v', c) == SentOf(r, c) + Heard(Ups(r), hs, c) {
      assert SentOf(v, c) == SentOf(r, c) + Heard(Ups(r), hs, c);
    }
  }

  /** Every untroubled step leaves what follows from what happens in it. */
  lemma StepFollows(r: Reactor, step: ReactorModel.Step)
    requires Inv(r) && !Troubled(r, step) && Next(r, step).Ok?
    ensures Follows(r, Next(r, step).value, Happenings(r, step))
  {
    InvIds(r);
    if step.Dispatch? {
      hide Inv, Next, Troubled, Follows, Happenings;
      DispatchFollows(r, step.env);
    } else if step.RunTask? && r.tasks != [] {
      RunFrontFollows(r, step.acts);
      hide Inv, RunFront;
      SameHistory(r, RunFront(r, step.acts).value, Next(r, step).value, Happenings(r, step));
    } else {
      var v := Next(r, step).value;
      hide Inv, Apply, Asserts, ReportAll;
      assert v == r.(poller := v.poller, active := v.active, phase := v.phase);
      hide Next, Troubled;
      QuietFollows(r, r);
      SameHistory(r, r, v, []);
    }
  }

  // ----- what is handed over

  /** A dispatch that reports writability leaves an up connection with nothing pending and no write reports asked for. */
  lemma DispatchFlushes(r: Reactor, c: nat, revents: Mask, env: Env)
    requires Inv(r) && Connected(r, c) && ConnEv(c) !in r.active && RdHup !in revents && Out in revents
    requires DispatchConn(r, c, revents, env).Ok? && Connected(DispatchConn(r, c, revents, env).value, c)
    ensures var v := DispatchConn(r, c, revents, env).value;
            && ConnEv(c) in v.poller.events && v.conns[c].out.pending == [] && v.conns[c].out.wire == v.conns[c].out.sent
            && Out !in v.poller.events[ConnEv(c)].events
  {
    hide Inv, HandleClose, HandleRead, ReactorModel.HandleWrite, Connected;
    if HangsUp(revents) { HandleCloseInv(r, c, env.closeActs); }
    var o := if HangsUp(revents) then HandleClose(r, c, env.closeActs) else Ok(r);
    var closed := o.value;
    if Reads(revents) { HandleReadInv(closed, c, env.recv, env.readActs); }
    var o' := if Reads(revents) then HandleRead(closed, c, env.recv, env.readActs) else Ok(closed);
    AnchoredAlive(o'.value, c);
    WriteFlushes(o'.value, c);
  }

  lemma WriteFlushes(r: Reactor, c: nat)
    requires Inv(r) && c in r.conns
    requires ReactorModel.HandleWrite(r, c).Ok? && Connected(ReactorModel.HandleWrite(r, c).value, c)
    ensures var v := ReactorModel.HandleWrite(r, c).value;
            && ConnEv(c) in v.poller.events && v.conns[c].out.pending == [] && v.conns[c].out.wire == v.conns[c].out.sent
            && Out !in v.poller.events[ConnEv(c)].events
  {
    hide Apply, PollerOk, Asserts, OwnersOk, ActiveOk, TasksOk, ServersOk, KeptBut;
    ConnFacts(r, c);
    hide ConnsOk;
    var e, out := ConnEv(c), r.conns[c].out;
    assert out.wire + [] == out.wire;
    if Out in C.MaskOf(r.poller, e) {
      MaskCallPoller(r.poller, DisableWriting(e));
      NewMaskExact(e, r.poller.events[e].events, Out);
    }
  }

  /** The same of a step: what was accepted is then handed over entirely, and writability is no longer asked for. */
  lemma StepFlushes(r: Reactor, c: nat, env: Env)
    requires Inv(r) && !Troubled(r, ReactorModel.Dispatch(env)) && Next(r, ReactorModel.Dispatch(env)).Ok?
    requires r.active[0] == ConnEv(c) && ConnEv(c) in r.poller.events && Out in r.poller.events[ConnEv(c)].revents
    ensures var v := Next(r, ReactorModel.Dispatch(env)).value;
            Connected(v, c) ==>
              && ConnEv(c) in v.poller.events && v.conns[c].out.pending == [] && v.conns[c].out.wire == v.conns[c].out.sent
              && Out !in v.poller.events[ConnEv(c)].events
  {
    TakeInv(r);
    ConnDispatch(r, c, env);
    var r' := r.(active := r.active[1..]);
    assert Connected(r', c);
    hide Inv, DispatchConn, Next;
    if Connected(Next(r, ReactorModel.Dispatch(env)).value, c) {
      DispatchFlushes(r', c, r.poller.events[ConnEv(c)].revents, env);
    }
  }
}
