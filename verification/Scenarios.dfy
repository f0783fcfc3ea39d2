/**
 Runs from the start, with one server: a calm one that accepts, closes, tears down and reuses a descriptor, and one for
 each way a run can go wrong.
 */
module Scenarios {
  import opened PollerModel
  import C = ConnectionModel
  import opened ReactorModel
  import opened ReactorInvariant
  import opened Teardown

  const ACCEPTOR := AcceptorEv(0)
  const NAME := "127.0.0.1-80-1"

  /** A server whose acceptor has descriptor 3. */
  function Start(): Reactor {
    Reactor(Poller(map[ACCEPTOR := Event(3, New, NONE, NONE, false, false)], map[], map[], 0),
            map[], map[0 := Server(NAME, map[])], [], {}, [], Polling, 0, [], [])
  }

  lemma StartIsStarted()
    ensures Started(Start())
  {}

  /** One turn of the loop with one report and one dispatch. */
  function TurnOf(e: Ev, revents: Mask, env: Env): seq<ReactorModel.Step> {
    [ReactorModel.Poll([(e, revents)]), RunTask([]), ReactorModel.Dispatch(env), NextIteration]
  }

  function Accepting(fd: int): seq<ReactorModel.Step> {
    TurnOf(ACCEPTOR, {In}, Env(Data, [fd], [], []))
  }

  /** The loop at the dispatch of its one report. */
  function Reported(r: Reactor, e: Ev, revents: Mask): Reactor
    requires e in r.poller.events
  {
    r.(poller := With(r.poller, e, r.poller.events[e].(revents := revents)), active := [e], phase := Dispatching)
  }

  lemma OneReport(p: Poller<Ev>, e: Ev, revents: Mask)
    requires e in p.events
    ensures ReportAll(p, [(e, revents)]) == With(p, e, p.events[e].(revents := revents))
  {
    assert [(e, revents)][..0] == [];
    ReportNothing(p);
  }

  /** The run ends in state `v`; if `calm` is asked for, no step of it is troubled. */
  ghost predicate Leads(r: Reactor, steps: seq<ReactorModel.Step>, v: Reactor, calm: bool) {
    Run(r, steps) == Ok(v) && (calm ==> Calm(r, steps))
  }

  lemma LeadsOn(r: Reactor, a: seq<ReactorModel.Step>, v: Reactor, b: seq<ReactorModel.Step>, w: Reactor, calm: bool)
    requires Leads(r, a, v, calm) && Leads(v, b, w, calm)
    ensures Leads(r, a + b, w, calm)
  {
    hide Run, Calm;
    RunConcat(r, a, b);
    if calm { CalmConcat(r, a, b); }
  }

  lemma LeadsOne(r: Reactor, step: ReactorModel.Step, v: Reactor, calm: bool)
    requires Next(r, step) == Ok(v) && (calm ==> !Troubled(r, step))
    ensures Leads(r, [step], v, calm)
  {
    hide Next, Troubled;
    assert [step][1..] == [];
    assert Run(v, []) == Ok(v) && Calm(v, []);
  }

  lemma LeadsTwo(r: Reactor, a: ReactorModel.Step, v: Reactor, b: ReactorModel.Step, w: Reactor, calm: bool)
    requires Next(r, a) == Ok(v) && (calm ==> !Troubled(r, a)) && Next(v, b) == Ok(w) && (calm ==> !Troubled(v, b))
    ensures Leads(r, [a, b], w, calm)
  {
    hide Next, Troubled, Leads;
    LeadsOne(r, a, v, calm);
    LeadsOne(v, b, w, calm);
    LeadsOn(r, [a], v, [b], w, calm);
    assert [a] + [b] == [a, b];
  }

  /** With an empty task queue, a turn comes to the dispatch of what is reported. */
  lemma ComesToDispatch(r: Reactor, e: Ev, revents: Mask)
    requires r.phase == Polling && r.tasks == [] && e in r.poller.events && MayReport(r.poller, e, revents)
    ensures Leads(r, [ReactorModel.Poll([(e, revents)]), RunTask([])], Reported(r, e, revents), true)
  {
    var polled := r.(poller := ReportAll(r.poller, [(e, revents)]), active := [e], phase := Tasking);
    OneReport(r.poller, e, revents);
    hide ReportAll, MayReport, Leads;
    assert Pointers([(e, revents)]) == [e];
    LeadsTwo(r, ReactorModel.Poll([(e, revents)]), polled, RunTask([]), Reported(r, e, revents), true);
  }

  /** A turn whose one dispatch ends well leads to the next turn. */
  lemma TurnLeads(r: Reactor, e: Ev, revents: Mask, env: Env, v: Reactor, calm: bool)
    requires r.phase == Polling && r.tasks == [] && e in r.poller.events && MayReport(r.poller, e, revents)
    requires v.phase == Dispatching && v.active == []
    requires Next(Reported(r, e, revents), ReactorModel.Dispatch(env)) == Ok(v)
    requires calm ==> !Troubled(Reported(r, e, revents), ReactorModel.Dispatch(env))
    ensures Leads(r, TurnOf(e, revents, env), v.(phase := Polling), calm)
  {
    ComesToDispatch(r, e, revents);
    assert Next(v, NextIteration) == Ok(v.(phase := Polling)) && !Troubled(v, NextIteration);
    var start, end := [ReactorModel.Poll([(e, revents)]), RunTask([])], [ReactorModel.Dispatch(env), NextIteration];
    assert Leads(r, start, Reported(r, e, revents), calm);
    hide Next, Troubled, Leads, Reported, MayReport;
    LeadsTwo(Reported(r, e, revents), ReactorModel.Dispatch(env), v, NextIteration, v.(phase := Polling), calm);
    LeadsOn(r, start, Reported(r, e, revents), end, v.(phase := Polling), calm);
    assert start + end == TurnOf(e, revents, env);
  }

  /** A turn whose one dispatch faults is where the run ends. */
  lemma TurnFaults(r: Reactor, e: Ev, revents: Mask, env: Env)
    requires r.phase == Polling && r.tasks == [] && e in r.poller.events && MayReport(r.poller, e, revents)
    requires Next(Reported(r, e, revents), ReactorModel.Dispatch(env)).Fault?
    ensures Run(r, TurnOf(e, revents, env)).Fault?
  {
    ComesToDispatch(r, e, revents);
    hide Next, Troubled, Reported, MayReport, Calm;
    var start, end := [ReactorModel.Poll([(e, revents)]), RunTask([])], [ReactorModel.Dispatch(env), NextIteration];
    assert start + end == TurnOf(e, revents, env);
    RunConcat(r, start, end);
    assert Run(Reported(r, e, revents), end).Fault?;
  }

  // ----- the states of the runs

  function Registered(fd: int, revents: Mask): Event {
    Event(fd, Added, READ, revents, false, false)
  }

  function Listening(): Reactor {
    Start().(poller := Poller(map[ACCEPTOR := Registered(3, NONE)], map[3 := ACCEPTOR], map[3 := Interest(READ, ACCEPTOR)], 0))
  }

  /** Connection 0 is up, on descriptor 7. */
  function One(phase: Phase): Reactor {
    Reactor(Poller(map[ACCEPTOR := Registered(3, {In}), ConnEv(0) := Registered(7, NONE)],
                   map[3 := ACCEPTOR, 7 := ConnEv(0)],
                   map[3 := Interest(READ, ACCEPTOR), 7 := Interest(READ, ConnEv(0))], 0),
            map[0 := Conn(0, C.Connected, C.SILENT)], map[0 := Server(NAME, map[NAME := 0])],
            [], {}, [], phase, 1, [], [])
  }

  /** Connection 1 has replaced it, on descriptor 8; the map still has the released event. */
  function Two(phase: Phase): Reactor {
    Reactor(Poller(map[ACCEPTOR := Registered(3, {In}), ConnEv(1) := Registered(8, NONE)],
                   map[3 := ACCEPTOR, 7 := ConnEv(0), 8 := ConnEv(1)],
                   map[3 := Interest(READ, ACCEPTOR), 8 := Interest(READ, ConnEv(1))], 0),
            map[1 := Conn(0, C.Connected, C.SILENT)], map[0 := Server(NAME, map[NAME := 1])],
            [], {}, [], phase, 2, [], [])
  }

  /** A new event on a descriptor in no record starts to be watched for reading. */
  lemma Registers(p: Poller<Ev>, e: Ev, fd: int, q: Poller<Ev>)
    requires e in p.events && p.events[e] == Event(fd, New, NONE, NONE, false, false)
    requires fd !in p.fdMap && fd !in p.kernel
    requires q == Poller(p.events[e := Registered(fd, NONE)], p.fdMap[fd := e], p.kernel[fd := Interest(READ, e)], p.refused)
    ensures Asserts(p, EnableReading(e)) && Apply(p, EnableReading(e)) == q
  {
    assert NONE + READ == READ;
    assert Apply(p, EnableReading(e)).events == q.events;
  }

  lemma ListenLeads()
    ensures Leads(Start(), [Listen(0)], Listening(), true)
  {
    var p, q := Start().poller, Listening().poller;
    assert q.events == p.events[ACCEPTOR := Registered(3, NONE)];
    assert q.fdMap == p.fdMap[3 := ACCEPTOR] && q.kernel == p.kernel[3 := Interest(READ, ACCEPTOR)];
    Registers(p, ACCEPTOR, 3, q);
    hide Apply, Asserts;
    LeadsOne(Start(), Listen(0), Listening(), true);
  }

  lemma OwnerKeeps(r: Reactor, c: nat)
    requires 0 in r.servers && NAME in r.servers[0].connections && r.servers[0].connections[NAME] == c
    ensures Collect(r, c) == r
  {
    assert c in r.servers[0].connections.Values;
  }

  /** What accepting does to a server without user code, once the connection that had the name is dropped. */
  lemma AcceptIs(r: Reactor, fd: int, mapped: Reactor, v: Reactor)
    requires r.phase == Dispatching && r.active == [ACCEPTOR] && ACCEPTOR in r.poller.events
    requires In in r.poller.events[ACCEPTOR].revents
    requires 0 in r.servers && fd > 0 && forall e | e in r.poller.events :: r.poller.events[e].fd != fd
    requires var created, server := Created(r.(active := []), 0, fd), r.servers[0];
             mapped == if server.name in server.connections then Collect(created, server.connections[server.name]) else created
    requires Finish(mapped, r.nextId) == Ok(v) && Collect(v, r.nextId) == v
    ensures Next(r, ReactorModel.Dispatch(Env(Data, [fd], [], []))) == Ok(v)
  {
    AcceptorDispatch(r, Env(Data, [fd], [], []));
    assert r.active[1..] == [];
    hide Created, Finish, Collect, Next;
  }

  lemma FinishIs(r: Reactor, c: nat, q: Poller<Ev>, conns: map<nat, Conn>)
    requires c in r.conns && r.conns[c] == Conn(0, C.Connecting, C.SILENT) && ConnEv(c) in r.poller.events
    requires Asserts(r.poller, EnableReading(ConnEv(c))) && Apply(r.poller, EnableReading(ConnEv(c))) == q
    requires conns == r.conns[c := Conn(0, C.Connected, C.SILENT)]
    ensures Finish(r, c) == Ok(r.(poller := q, conns := conns))
  {
    hide Apply, Asserts;
  }

  lemma FirstAccept()
    ensures Next(Reported(Listening(), ACCEPTOR, {In}), ReactorModel.Dispatch(Env(Data, [7], [], []))) == Ok(One(Dispatching))
  {
    var r := Reported(Listening(), ACCEPTOR, {In});
    var created, v := Created(r.(active := []), 0, 7), One(Dispatching);
    var p, q := created.poller, v.poller;
    assert q.events == p.events[ConnEv(0) := Registered(7, NONE)];
    assert q.fdMap == p.fdMap[7 := ConnEv(0)] && q.kernel == p.kernel[7 := Interest(READ, ConnEv(0))];
    assert v.conns == created.conns[0 := Conn(0, C.Connected, C.SILENT)];
    assert v.servers == created.servers by { assert v.servers[0].connections == created.servers[0].connections; }
    Registers(p, ConnEv(0), 7, q);
    hide Apply, Asserts, Finish, Collect;
    FinishIs(created, 0, q, v.conns);
    OwnerKeeps(v, 0);
    AcceptIs(r, 7, created, v);
  }

  /** Connection 1 is in the map in place of connection 0. */
  function SecondCreated(): Reactor {
    Two(Dispatching).(
    poller := Poller(map[ACCEPTOR := Registered(3, {In}), ConnEv(0) := Registered(7, NONE),
                         ConnEv(1) := Event(8, New, NONE, NONE, false, false)],
                     map[3 := ACCEPTOR, 7 := ConnEv(0)],
                     map[3 := Interest(READ, ACCEPTOR), 7 := Interest(READ, ConnEv(0))], 0),
    conns := map[0 := Conn(0, C.Connected, C.SILENT), 1 := Conn(0, C.Connecting, C.SILENT)])
  }

  /** Nothing referred to connection 0 any more. */
  function SecondMapped(): Reactor {
    SecondCreated().(
    poller := Poller(map[ACCEPTOR := Registered(3, {In}), ConnEv(1) := Event(8, New, NONE, NONE, false, false)],
                     map[3 := ACCEPTOR, 7 := ConnEv(0)], map[3 := Interest(READ, ACCEPTOR)], 0),
    conns := map[1 := Conn(0, C.Connecting, C.SILENT)])
  }

  lemma SecondIsCreated()
    ensures Created(Reported(One(Polling), ACCEPTOR, {In}).(active := []), 0, 8) == SecondCreated()
  {
    var r, v := Reported(One(Polling), ACCEPTOR, {In}), SecondCreated();
    assert r.poller.events[ConnEv(1) := Event(8, New, NONE, NONE, false, false)] == v.poller.events;
    assert r.conns[1 := Conn(0, C.Connecting, C.SILENT)] == v.conns;
    assert map[NAME := 0][NAME := 1] == map[NAME := 1];
    assert r.servers[0 := Server(NAME, map[NAME := 1])] == v.servers;
  }

  lemma SecondForgets()
    ensures !Referenced(SecondCreated(), 0)
  {
    assert SecondCreated().servers[0].connections == map[NAME := 1];
  }

  lemma SecondDrops()
    ensures Collect(SecondCreated(), 0) == SecondMapped()
  {
    var created, mapped := SecondCreated(), SecondMapped();
    SecondForgets();
    hide Referenced, Collect;
    assert created.conns - {0} == mapped.conns;
    SecondUnwatched();
    CollectIs(created, 0, 7, mapped);
  }

  lemma SecondUnwatched()
    ensures var p := SecondCreated().poller;
            SecondMapped().poller == p.(events := p.events - {ConnEv(0)}, kernel := p.kernel - {7})
  {
    var p, q := SecondCreated().poller, SecondMapped().poller;
    assert p.events - {ConnEv(0)} == q.events;
    assert p.kernel - {7} == q.kernel;
  }

  lemma CollectIs(r: Reactor, c: nat, fd: int, v: Reactor)
    requires c in r.conns && ConnEv(c) in r.poller.events && r.poller.events[ConnEv(c)].fd == fd && !Referenced(r, c)
    requires v == r.(conns := r.conns - {c}, poller := v.poller)
    requires v.poller == r.poller.(events := r.poller.events - {ConnEv(c)}, kernel := r.poller.kernel - {fd})
    ensures Collect(r, c) == v
  {
    hide Referenced;
  }

  lemma SecondFinishes()
    ensures Finish(SecondMapped(), 1) == Ok(Two(Dispatching)) && Collect(Two(Dispatching), 1) == Two(Dispatching)
  {
    var mapped, v := SecondMapped(), Two(Dispatching);
    var p, q := mapped.poller, v.poller;
    assert q.events == p.events[ConnEv(1) := Registered(8, NONE)];
    assert q.fdMap == p.fdMap[8 := ConnEv(1)] && q.kernel == p.kernel[8 := Interest(READ, ConnEv(1))];
    assert v.conns == mapped.conns[1 := Conn(0, C.Connected, C.SILENT)];
    Registers(p, ConnEv(1), 8, q);
    hide Apply, Asserts, Finish, Collect;
    FinishIs(mapped, 1, q, v.conns);
    OwnerKeeps(v, 1);
  }

  lemma SecondAccept()
    ensures Next(Reported(One(Polling), ACCEPTOR, {In}), ReactorModel.Dispatch(Env(Data, [8], [], []))) == Ok(Two(Dispatching))
  {
    hide Finish, Collect, Created, SecondMapped, SecondCreated, Two, Next;
    SecondIsCreated();
    SecondDrops();
    SecondFinishes();
    AcceptIs(Reported(One(Polling), ACCEPTOR, {In}), 8, SecondMapped(), Two(Dispatching));
  }

  // ----- the runs

  lemma OneIsReached()
    ensures Leads(Start(), [Listen(0)] + Accepting(7), One(Polling), true)
  {
    ListenLeads();
    FirstAccept();
    assert MayReport(Listening().poller, ACCEPTOR, {In}) by { assert Listening().poller.kernel[3].ptr == ACCEPTOR; }
    assert One(Polling) == One(Dispatching).(phase := Polling);
    hide Next, Leads, MayReport;
    TurnLeads(Listening(), ACCEPTOR, {In}, Env(Data, [7], [], []), One(Dispatching), true);
    LeadsOn(Start(), [Listen(0)], Listening(), Accepting(7), One(Polling), true);
  }

  lemma TwoDangles()
    ensures Dangling(Reported(Two(Polling), ACCEPTOR, {In}).poller, ConnEv(0), 7)
  {}

  lemma ThirdAcceptFaults()
    ensures Next(Reported(Two(Polling), ACCEPTOR, {In}), ReactorModel.Dispatch(Env(Data, [7], [], []))).Fault?
  {
    var r := Reported(Two(Polling), ACCEPTOR, {In});
    TwoDangles();
    hide NewConnection, Next, Dangling;
    AcceptorDispatch(r, Env(Data, [7], [], []));
    hide Two, Reported;
    ReuseFaults(r.(active := r.active[1..]), 0, ConnEv(0), 7, []);
  }

  lemma SecondTurn()
    ensures Leads(One(Polling), Accepting(8), Two(Polling), false)
  {
    SecondAccept();
    assert MayReport(One(Polling).poller, ACCEPTOR, {In}) by { assert One(Polling).poller.kernel[3].ptr == ACCEPTOR; }
    assert Two(Polling) == Two(Dispatching).(phase := Polling);
    hide Next, MayReport, Leads;
    TurnLeads(One(Polling), ACCEPTOR, {In}, Env(Data, [8], [], []), Two(Dispatching), false);
  }

  lemma ThirdTurn()
    ensures Run(Two(Polling), Accepting(7)).Fault?
  {
    ThirdAcceptFaults();
    assert MayReport(Two(Polling).poller, ACCEPTOR, {In}) by { assert Two(Polling).poller.kernel[3].ptr == ACCEPTOR; }
    hide Next, MayReport, Run;
    TurnFaults(Two(Polling), ACCEPTOR, {In}, Env(Data, [7], [], []));
  }

  lemma FaultsAfter(r: Reactor, a: seq<ReactorModel.Step>, v: Reactor, b: seq<ReactorModel.Step>)
    requires Leads(r, a, v, false) && Run(v, b).Fault?
    ensures Run(r, a + b).Fault?
  {
    hide Run;
    RunConcat(r, a, b);
  }

  /** Accepting while the name is taken, then getting the released descriptor again: the loop fails its assert. */
  lemma ReuseRun()
    ensures Started(Start())
    ensures Run(Start(), ([Listen(0)] + Accepting(7)) + Accepting(8) + Accepting(7)).Fault?
  {
    StartIsStarted();
    OneIsReached();
    SecondTurn();
    ThirdTurn();
    assert Leads(Start(), [Listen(0)] + Accepting(7), One(Polling), false);
    hide Leads, Run, Start, Started, One, Two, Accepting;
    LeadsOn(Start(), [Listen(0)] + Accepting(7), One(Polling), Accepting(8), Two(Polling), false);
    FaultsAfter(Start(), ([Listen(0)] + Accepting(7)) + Accepting(8), Two(Polling), Accepting(7));
  }

  /** Without user code the environment of a dispatch is never impossible. */
  lemma DispatchPossible(r: Reactor, c: nat, revents: Mask, recv: Recv)
    ensures !DispatchConn(r, c, revents, Env(recv, [], [], [])).Impossible?
  {
    ClosePossible(r, c);
    var closed := if HangsUp(revents) then HandleClose(r, c, []) else Ok(r);
    if closed.Ok? { ClosePossible(closed.value, c); }
    hide HandleClose, SendMessage, ReactorModel.HandleWrite;
    if closed.Ok? {
      var read := if Reads(revents) then HandleRead(closed.value, c, recv, []) else Ok(closed.value);
      assert !read.Impossible?;
      if read.Ok? { WritePossible(read.value, c); }
    }
  }

  lemma WritePossible(r: Reactor, c: nat)
    ensures !ReactorModel.HandleWrite(r, c).Impossible?
  {}

  lemma ClosePossible(r: Reactor, c: nat)
    ensures !HandleClose(r, c, []).Impossible?
  {
    hide Apply, Asserts, Collect, Post;
  }

  lemma DoubleCloseTurn()
    ensures Run(One(Polling), TurnOf(ConnEv(0), {Hup, Pri}, Env(Eof, [], [], []))).Fault?
  {
    var r, env := Reported(One(Polling), ConnEv(0), {Hup, Pri}), Env(Eof, [], [], []);
    assert MayReport(One(Polling).poller, ConnEv(0), {Hup, Pri}) by {
      assert One(Polling).poller.kernel[7].ptr == ConnEv(0);
    }
    ReportedInv();
    DispatchPossible(r.(active := r.active[1..]), 0, {Hup, Pri}, Eof);
    assert Troubled(r, ReactorModel.Dispatch(env));
    hide Inv, DispatchConn, Run, Calm, MayReport, Troubled;
    ConnDispatch(r, 0, env);
    hide Next, One, Reported;
    CloseExact(r, env);
    TurnFaults(One(Polling), ConnEv(0), {Hup, Pri}, env);
  }

  /** A hang-up with urgent data, and the end of the stream: the loop fails the assert on the state. */
  lemma DoubleCloseRun()
    ensures Started(Start())
    ensures Run(Start(), ([Listen(0)] + Accepting(7)) + TurnOf(ConnEv(0), {Hup, Pri}, Env(Eof, [], [], []))).Fault?
  {
    StartIsStarted();
    OneIsReached();
    DoubleCloseTurn();
    assert Leads(Start(), [Listen(0)] + Accepting(7), One(Polling), false);
    hide Leads, Run, Start, Started, One, Accepting, TurnOf;
    FaultsAfter(Start(), [Listen(0)] + Accepting(7), One(Polling), TurnOf(ConnEv(0), {Hup, Pri}, Env(Eof, [], [], [])));
  }

  lemma ReportedInv()
    ensures Inv(Reported(One(Polling), ConnEv(0), {Hup, Pri}))
  {
    OneIsReached();
    StartedInv(Start());
    assert MayReport(One(Polling).poller, ConnEv(0), {Hup, Pri}) by {
      assert One(Polling).poller.kernel[7].ptr == ConnEv(0);
    }
    var steps := [ReactorModel.Poll([(ConnEv(0), {Hup, Pri})]), RunTask([])];
    hide Inv, MayReport, Run, Calm;
    RunInv(Start(), [Listen(0)] + Accepting(7));
    ComesToDispatch(One(Polling), ConnEv(0), {Hup, Pri});
    RunInv(One(Polling), steps);
  }

  // ----- a calm run: accept, end of stream, teardown, and the same descriptor again

  /** Connection 0 is closed; its `disconnect` is queued, and it is still mapped. */
  function Down(phase: Phase): Reactor {
    Reactor(Poller(map[ACCEPTOR := Registered(3, {In}), ConnEv(0) := Event(7, Deleted, NONE, {In}, false, false)],
                   map[3 := ACCEPTOR, 7 := ConnEv(0)], map[3 := Interest(READ, ACCEPTOR)], 0),
            map[0 := Conn(0, C.Disconnected, C.SILENT)], map[0 := Server(NAME, map[])],
            [Disconnect(0)], {}, [], phase, 1, [Disconnect(0)], [])
  }

  /** And now it is gone from every record. */
  function Gone(phase: Phase): Reactor {
    Reactor(Poller(map[ACCEPTOR := Registered(3, {In})], map[3 := ACCEPTOR], map[3 := Interest(READ, ACCEPTOR)], 0),
            map[], map[0 := Server(NAME, map[])],
            [], {}, [], phase, 1, [Disconnect(0)], [Disconnect(0)])
  }

  /** A watched event stops being watched, and stays mapped. */
  lemma Unwatches(p: Poller<Ev>, e: Ev, q: Poller<Ev>)
    requires e in p.events && p.events[e].index == Added
    requires p.events[e].fd in p.kernel && p.events[e].fd in p.fdMap && p.fdMap[p.events[e].fd] == e
    requires q == Poller(p.events[e := p.events[e].(index := Deleted, events := NONE)], p.fdMap,
                         p.kernel - {p.events[e].fd}, p.refused)
    ensures Asserts(p, DisableAll(e)) && Apply(p, DisableAll(e)) == q
  {
    assert Apply(p, DisableAll(e)).events == q.events;
  }

  lemma Unmaps(p: Poller<Ev>, e: Ev, q: Poller<Ev>)
    requires e in p.events && p.events[e].index == Deleted && p.events[e].events == NONE
    requires p.events[e].fd in p.fdMap && p.fdMap[p.events[e].fd] == e
    requires q == Poller(p.events[e := p.events[e].(index := New)], p.fdMap - {p.events[e].fd}, p.kernel, p.refused)
    ensures Asserts(p, Remove(e)) && Apply(p, Remove(e)) == q
  {
    assert Apply(p, Remove(e)).events == q.events;
  }

  lemma ShutsDown()
    ensures ShutDown(Reported(One(Polling), ConnEv(0), {In}).(active := []), 0) ==
            Ok(Down(Dispatching).(servers := One(Polling).servers, tasks := [], posted := []))
  {
    var r, v := Reported(One(Polling), ConnEv(0), {In}).(active := []), Down(Dispatching);
    assert v.poller.events == r.poller.events[ConnEv(0) := Event(7, Deleted, NONE, {In}, false, false)];
    assert v.poller.fdMap == r.poller.fdMap && v.poller.kernel == r.poller.kernel - {7};
    assert v.conns == r.conns[0 := Conn(0, C.Disconnected, C.SILENT)];
    Unwatches(r.poller, ConnEv(0), v.poller);
    hide Apply, Asserts;
  }

  lemma Removes()
    ensures RemoveConnection(Down(Dispatching).(servers := One(Polling).servers, tasks := [], posted := []), 0, [])
            == Ok(Down(Dispatching))
  {
    assert map[NAME := 0] - {NAME} == map[];
    assert [] + [Disconnect(0)] == [Disconnect(0)];
    assert One(Polling).servers[0 := Server(NAME, map[])] == Down(Dispatching).servers;
  }

  lemma CloseDispatchIs(r: Reactor, c: nat, v: Reactor, w: Reactor)
    requires r.phase == Dispatching && r.active == [ConnEv(c)] && ConnEv(c) in r.poller.events && c in r.conns
    requires r.poller.events[ConnEv(c)].revents == {In}
    requires ShutDown(r.(active := []), c) == Ok(v) && RemoveConnection(v, c, []) == Ok(w) && Collect(w, c) == w
    ensures Next(r, ReactorModel.Dispatch(Env(Eof, [], [], []))) == Ok(w)
  {
    assert r.active[1..] == [];
    hide ShutDown, RemoveConnection, Collect;
  }

  lemma Closes()
    ensures Next(Reported(One(Polling), ConnEv(0), {In}), ReactorModel.Dispatch(Env(Eof, [], [], []))) == Ok(Down(Dispatching))
  {
    var r := Reported(One(Polling), ConnEv(0), {In});
    var v := Down(Dispatching).(servers := One(Polling).servers, tasks := [], posted := []);
    ShutsDown();
    Removes();
    assert Collect(Down(Dispatching), 0) == Down(Dispatching);
    hide ShutDown, RemoveConnection, Collect, Down, Next;
    CloseDispatchIs(r, 0, v, Down(Dispatching));
  }

  lemma CloseTurn()
    ensures Leads(One(Polling), TurnOf(ConnEv(0), {In}, Env(Eof, [], [], [])), Down(Polling), true)
  {
    Closes();
    assert MayReport(One(Polling).poller, ConnEv(0), {In}) by { assert One(Polling).poller.kernel[7].ptr == ConnEv(0); }
    assert Down(Polling) == Down(Dispatching).(phase := Polling);
    assert !Troubled(Reported(One(Polling), ConnEv(0), {In}), ReactorModel.Dispatch(Env(Eof, [], [], [])));
    hide Next, MayReport, Leads, Troubled;
    TurnLeads(One(Polling), ConnEv(0), {In}, Env(Eof, [], [], []), Down(Dispatching), true);
  }

  /** A turn in which nothing is reported. */
  const QUIET: seq<ReactorModel.Step> := [ReactorModel.Poll([]), RunTask([])] + [NextIteration]

  lemma Retires()
    ensures RunFront(Down(Tasking), []) == Ok(Gone(Tasking))
  {
    var r := Down(Tasking);
    var q := Gone(Tasking).poller.(events := r.poller.events[ConnEv(0) := Event(7, New, NONE, {In}, false, false)]);
    assert q.fdMap == r.poller.fdMap - {7};
    Unmaps(r.poller, ConnEv(0), q);
    var v := RetiredState(r, 0);
    assert v == r.(poller := q, tasks := [], ran := [Disconnect(0)]) by { assert [] + [Disconnect(0)] == [Disconnect(0)]; }
    assert !Referenced(v, 0);
    assert v.conns - {0} == map[] && q.events - {ConnEv(0)} == Gone(Tasking).poller.events && q.kernel - {7} == q.kernel;
    hide Apply, Asserts, Referenced;
    RunFrontDisconnectIs(r, 0, []);
    hide RunFront, RetiredState;
    assert Collect(v, 0) == Gone(Tasking);
  }

  lemma QuietTurn()
    ensures Leads(Down(Polling), QUIET, Gone(Polling), true)
  {
    var start := [ReactorModel.Poll([]), RunTask([])];
    ReportNothing(Down(Polling).poller);
    Retires();
    assert Pointers([]) == [];
    hide ReportAll, RunFront, Leads;
    assert Next(Down(Polling), ReactorModel.Poll([])) == Ok(Down(Tasking));
    assert Next(Down(Tasking), RunTask([])) == Ok(Gone(Dispatching));
    assert Next(Gone(Dispatching), NextIteration) == Ok(Gone(Polling));
    hide Next, Down, Gone;
    LeadsTwo(Down(Polling), ReactorModel.Poll([]), Down(Tasking), RunTask([]), Gone(Dispatching), true);
    LeadsOne(Gone(Dispatching), NextIteration, Gone(Polling), true);
    LeadsOn(Down(Polling), start, Gone(Dispatching), [NextIteration], Gone(Polling), true);
  }

  /** Connection 1 is up, on the descriptor that connection 0 had. */
  function Again(phase: Phase): Reactor {
    Reactor(Poller(map[ACCEPTOR := Registered(3, {In}), ConnEv(1) := Registered(7, NONE)],
                   map[3 := ACCEPTOR, 7 := ConnEv(1)],
                   map[3 := Interest(READ, ACCEPTOR), 7 := Interest(READ, ConnEv(1))], 0),
            map[1 := Conn(0, C.Connected, C.SILENT)], map[0 := Server(NAME, map[NAME := 1])],
            [], {}, [], phase, 2, [Disconnect(0)], [Disconnect(0)])
  }

  lemma AcceptsAgain()
    ensures Next(Reported(Gone(Polling), ACCEPTOR, {In}), ReactorModel.Dispatch(Env(Data, [7], [], []))) == Ok(Again(Dispatching))
  {
    var r := Reported(Gone(Polling), ACCEPTOR, {In});
    var created, v := Created(r.(active := []), 0, 7), Again(Dispatching);
    var p, q := created.poller, v.poller;
    assert q.events == p.events[ConnEv(1) := Registered(7, NONE)];
    assert q.fdMap == p.fdMap[7 := ConnEv(1)] && q.kernel == p.kernel[7 := Interest(READ, ConnEv(1))];
    assert v.conns == created.conns[1 := Conn(0, C.Connected, C.SILENT)];
    assert v.servers == created.servers by { assert v.servers[0].connections == created.servers[0].connections; }
    Registers(p, ConnEv(1), 7, q);
    hide Apply, Asserts, Finish, Collect;
    FinishIs(created, 1, q, v.conns);
    OwnerKeeps(v, 1);
    AcceptIs(r, 7, created, v);
  }

  lemma AgainTurn()
    ensures Leads(Gone(Polling), Accepting(7), Again(Polling), true)
  {
    AcceptsAgain();
    assert MayReport(Gone(Polling).poller, ACCEPTOR, {In}) by { assert Gone(Polling).poller.kernel[3].ptr == ACCEPTOR; }
    assert Again(Polling) == Again(Dispatching).(phase := Polling);
    assert !Troubled(Reported(Gone(Polling), ACCEPTOR, {In}), ReactorModel.Dispatch(Env(Data, [7], [], [])));
    hide Next, MayReport, Leads, Troubled;
    TurnLeads(Gone(Polling), ACCEPTOR, {In}, Env(Data, [7], [], []), Again(Dispatching), true);
  }

  /** A calm run that closes a connection, tears it down, and accepts another one on the same descriptor. */
  lemma ReuseAfterTeardown()
    ensures Started(Start())
    ensures var a := ([Listen(0)] + Accepting(7)) + TurnOf(ConnEv(0), {In}, Env(Eof, [], [], []));
            Leads(Start(), (a + QUIET) + Accepting(7), Again(Polling), true)
  {
    StartIsStarted();
    OneIsReached();
    CloseTurn();
    QuietTurn();
    AgainTurn();
    var up, close := [Listen(0)] + Accepting(7), TurnOf(ConnEv(0), {In}, Env(Eof, [], [], []));
    hide Leads, Start, Started, One, Down, Gone, Again, Accepting, TurnOf;
    LeadsOn(Start(), up, One(Polling), close, Down(Polling), true);
    LeadsOn(Start(), up + close, Down(Polling), QUIET, Gone(Polling), true);
    LeadsOn(Start(), up + close + QUIET, Gone(Polling), Accepting(7), Again(Polling), true);
  }
}
