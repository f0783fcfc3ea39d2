/**
 The loop with its servers and connections as an object that is updated in place; each method does what its counterpart
 in `ReactorModel` says, so the theorems of `Teardown` are about `RunLoop`.
 */
module ServerLoop {
  import opened IntCodec
  import opened PollerModel
  import C = ConnectionModel
  import opened ReactorModel
  import ReactorInvariant
  import opened LoopTrace
  import opened Teardown

  /** How a method ends: done, by a failed assert or a use after release, or because the environment cannot do this. */
  datatype Status = Done | Faulted | Stuck

  function Ended(status: Status, r: Reactor): Outcome<Reactor> {
    match status
    case Done => Ok(r)
    case Faulted => Fault
    case Stuck => Impossible
  }

  /** What the environment contributes to one turn of the loop: reports, what a user task does, and the dispatches. */
  datatype Turn = Turn(reported: seq<(Ev, Mask)>, taskActs: seq<UserAct>, dispatches: seq<Env>)

  predicate Complete(turn: Turn) {
    |turn.dispatches| == |turn.reported|
  }

  function DispatchSteps(envs: seq<Env>): seq<ReactorModel.Step> {
    seq(|envs|, i requires 0 <= i < |envs| => ReactorModel.Dispatch(envs[i]))
  }

  function TurnSteps(turn: Turn): seq<ReactorModel.Step> {
    [ReactorModel.Poll(turn.reported), RunTask(turn.taskActs)] + (DispatchSteps(turn.dispatches) + [NextIteration])
  }

  function AllSteps(turns: seq<Turn>): seq<ReactorModel.Step> {
    if turns == [] then [] else TurnSteps(turns[0]) + AllSteps(turns[1..])
  }

  lemma RunFrom(r: Reactor, steps: seq<ReactorModel.Step>, k: nat)
    requires k < |steps|
    ensures Run(r, steps[k..]) ==
            match Next(r, steps[k])
            case Ok(r') => Run(r', steps[k + 1..])
            case Fault => Fault
            case Impossible => Impossible
  {
    hide Next;
    assert steps[k..][1..] == steps[k + 1..];
  }

  /** What is left of a turn after the poll. */
  function AfterPoll(turn: Turn): seq<ReactorModel.Step> {
    [RunTask(turn.taskActs)] + (DispatchSteps(turn.dispatches) + [NextIteration])
  }

  lemma TurnIs(r: Reactor, turn: Turn)
    ensures Run(r, TurnSteps(turn)) ==
            match Next(r, ReactorModel.Poll(turn.reported))
            case Ok(r') => Run(r', AfterPoll(turn))
            case Fault => Fault
            case Impossible => Impossible
  {
    hide Next;
    assert TurnSteps(turn)[1..] == AfterPoll(turn);
  }

  lemma ThenTask(r: Reactor, turn: Turn)
    ensures Run(r, AfterPoll(turn)) ==
            match Next(r, RunTask(turn.taskActs))
            case Fault => Fault
            case Impossible => Impossible
            case Ok(r') =>
              match Run(r', DispatchSteps(turn.dispatches))
              case Ok(r'') => Next(r'', NextIteration)
              case Fault => Fault
              case Impossible => Impossible
  {
    var first, rest := RunTask(turn.taskActs), DispatchSteps(turn.dispatches);
    assert AfterPoll(turn)[1..] == rest + [NextIteration];
    hide Next, DispatchSteps;
    if Next(r, first).Ok? {
      var r' := Next(r, first).value;
      RunConcat(r', rest, [NextIteration]);
      if Run(r', rest).Ok? { RunOne(Run(r', rest).value, NextIteration); }
    }
  }

  lemma RunOne(r: Reactor, step: ReactorModel.Step)
    ensures Run(r, [step]) == Next(r, step)
  {
    hide Next;
    if Next(r, step).Ok? { assert Run(Next(r, step).value, []) == Next(r, step); }
  }

  lemma TurnEnds(r: Reactor)
    requires r.phase == Dispatching && r.active == []
    ensures Next(r, NextIteration) == Ok(r.(phase := Polling))
  {}

  lemma RunNothing(r: Reactor, steps: seq<ReactorModel.Step>)
    ensures Run(r, steps[|steps|..]) == Ok(r) && Run(r, []) == Ok(r)
  {}

  class Loop {
    var poller: Poller<Ev>
    var conns: map<nat, Conn>
    var servers: map<nat, Server>
    var taskQueue: seq<Task>
    var held: set<nat>
    var activeEvents: seq<Ev>
    var current: nat
    var nextId: nat
    ghost var phase: Phase
    ghost var posted: seq<Task>
    ghost var ran: seq<Task>

    ghost predicate Valid()
      reads this
    {
      current <= |activeEvents|
    }

    ghost function View(): Reactor
      reads this
      requires Valid()
    {
      Reactor(poller, conns, servers, taskQueue, held, activeEvents[current..], phase, nextId, posted, ran)
    }

    /** A loop with servers whose acceptors do not listen yet. */
    constructor (servers: map<nat, Server>, events: map<Ev, Event>)
      ensures Valid()
      ensures View() == Reactor(Poller(events, map[], map[], 0), map[], servers, [], {}, [], Polling, 0, [], [])
    {
      poller := Poller(events, map[], map[], 0);
      conns, this.servers, taskQueue, held, activeEvents, current, nextId := map[], servers, [], {}, [], 0, 0;
      phase, posted, ran := Polling, [], [];
    }

    /** A shared pointer to `c` went away. */
    method Release(c: nat)
      requires Valid()
      modifies `poller, `conns
      ensures View() == Collect(old(View()), c)
    {
      var referenced := c in held || Disconnect(c) in taskQueue
                        || exists s | s in servers :: c in servers[s].connections.Values;
      if c in conns && ConnEv(c) in poller.events && !referenced {
        var fd := poller.events[ConnEv(c)].fd;
        conns := conns - {c};
        poller := poller.(events := poller.events - {ConnEv(c)}, kernel := poller.kernel - {fd});
      }
    }

    method Enqueue(task: Task)
      requires Valid()
      modifies `taskQueue, `posted
      ensures View() == Post(old(View()), task)
    {
      taskQueue := taskQueue + [task];
      posted := posted + [task];
    }

    method Send(c: nat, message: seq<Byte>) returns (status: Status)
      requires Valid() && c in conns
      modifies `poller, `conns
      ensures Ended(status, View()) == SendMessage(old(View()), c, message)
    {
      var e, conn := ConnEv(c), conns[c];
      if e !in poller.events || !C.SendAsserts(conn.state, poller, e) { return Faulted; }
      poller := C.SendControl(conn.state, poller, e);
      conns := conns[c := conn.(out := C.SendStream(conn.state, conn.out, message))];
      status := Done;
    }

    method Perform(act: UserAct) returns (status: Status)
      requires Valid()
      modifies `poller, `conns, `held, `taskQueue, `posted
      ensures Ended(status, View()) == Act(old(View()), act)
    {
      status := Done;
      match act
      case SendTo(c, message) =>
        if c in conns { status := Send(c, message); } else { status := Stuck; }
      case Retain(c) =>
        if c in conns { held := held + {c}; } else { status := Stuck; }
      case LetGo(c) =>
        if c in held {
          held := held - {c};
          Release(c);
        } else {
          status := Stuck;
        }
      case PostTask =>
        Enqueue(UserTask);
    }

    method PerformAll(acts: seq<UserAct>) returns (status: Status)
      requires Valid()
      modifies `poller, `conns, `held, `taskQueue, `posted
      ensures Ended(status, View()) == ActAll(old(View()), acts)
    {
      hide Act;
      status := Done;
      var i := 0;
      while i < |acts| && status == Done
        invariant 0 <= i <= |acts|
        invariant ActAll(old(View()), acts) == (if status == Done then ActAll(View(), acts[i..]) else Ended(status, View()))
      {
        status := Perform(acts[i]);
        i := i + 1;
      }
    }

    method Create(s: nat, fd: int)
      requires Valid() && s in servers
      modifies `poller, `conns, `servers, `nextId
      ensures View() == Created(old(View()), s, fd)
    {
      var id, server := nextId, servers[s];
      nextId := nextId + 1;
      conns := conns[id := Conn(s, C.Connecting, C.SILENT)];
      poller := poller.(events := poller.events[ConnEv(id) := Event(fd, New, NONE, NONE, false, false)]);
      servers := servers[s := server.(connections := server.connections[server.name := id])];
    }

    /** `connectFinished`, up to the user's callback. */
    method ConnectFinished(c: nat) returns (status: Status)
      requires Valid()
      modifies `poller, `conns
      ensures Ended(status, View()) == Finish(old(View()), c)
    {
      var e := ConnEv(c);
      if c !in conns || e !in poller.events || !C.ConnectAsserts(conns[c].state, poller, e) { return Faulted; }
      var (state, p) := C.ConnectControl(conns[c].state, poller, e);
      conns := conns[c := conns[c].(state := state)];
      poller := p;
      status := Done;
    }

    method NewConnection(s: nat, fd: int, acts: seq<UserAct>) returns (status: Status)
      requires Valid()
      modifies `poller, `conns, `servers, `nextId, `held, `taskQueue, `posted
      ensures Ended(status, View()) == ReactorModel.NewConnection(old(View()), s, fd, acts)
    {
      hide ActAll, Collect, Finish, Created;
      if s !in servers || fd <= 0 || exists e | e in poller.events :: poller.events[e].fd == fd {
        return Stuck;
      }
      var id, server := nextId, servers[s];
      Create(s, fd);
      if server.name in server.connections { Release(server.connections[server.name]); }
      status := ConnectFinished(id);
      if status == Done { status := PerformAll(acts); }
      if status == Done { Release(id); }
    }

    method RemoveConnection(c: nat, acts: seq<UserAct>) returns (status: Status)
      requires Valid()
      modifies `poller, `conns, `servers, `held, `taskQueue, `posted
      ensures Ended(status, View()) == ReactorModel.RemoveConnection(old(View()), c, acts)
    {
      hide ActAll, Collect;
      if c !in conns || conns[c].server !in servers { return Faulted; }
      var s, server := conns[c].server, servers[conns[c].server];
      servers := servers[s := server.(connections := server.connections - {server.name})];
      if server.name in server.connections && server.connections[server.name] != c {
        Release(server.connections[server.name]);
      }
      Enqueue(Disconnect(c));
      status := PerformAll(acts);
    }

    /** `handleClose`, up to the server's close callback. */
    method ShutDownConnection(c: nat) returns (status: Status)
      requires Valid()
      modifies `poller, `conns
      ensures Ended(status, View()) == ShutDown(old(View()), c)
    {
      var e := ConnEv(c);
      if c !in conns || e !in poller.events || !C.CloseAsserts(conns[c].state, poller, e) { return Faulted; }
      var (state, p) := C.CloseControl(poller, e);
      conns := conns[c := conns[c].(state := state)];
      poller := p;
      status := Done;
    }

    method HandleClose(c: nat, acts: seq<UserAct>) returns (status: Status)
      requires Valid()
      modifies `poller, `conns, `servers, `held, `taskQueue, `posted
      ensures Ended(status, View()) == ReactorModel.HandleClose(old(View()), c, acts)
    {
      hide Collect, ShutDown, ReactorModel.RemoveConnection;
      status := ShutDownConnection(c);
      if status == Done { status := RemoveConnection(c, acts); }
      if status == Done { Release(c); }
    }

    method HandleRead(c: nat, recv: Recv, acts: seq<UserAct>) returns (status: Status)
      requires Valid()
      modifies `poller, `conns, `servers, `held, `taskQueue, `posted
      ensures Ended(status, View()) == ReactorModel.HandleRead(old(View()), c, recv, acts)
    {
      hide ActAll, ReactorModel.HandleClose;
      if c !in conns { return Faulted; }
      match recv
      case Data => status := PerformAll(acts);
      case Eof => status := HandleClose(c, acts);
      case Failed => status := Done;
    }

    method HandleWrite(c: nat) returns (status: Status)
      requires Valid()
      modifies `poller, `conns
      ensures Ended(status, View()) == ReactorModel.HandleWrite(old(View()), c)
    {
      var e := ConnEv(c);
      if c !in conns || e !in poller.events { return Faulted; }
      var conn := conns[c];
      var out := C.WriteStream(conn.state, Out in C.MaskOf(poller, e), conn.out);
      if !C.WriteAsserts(conn.state, poller, e, out.pending == []) { return Faulted; }
      poller := C.WriteControl(conn.state, poller, e, out.pending == []);
      conns := conns[c := conn.(out := out)];
      status := Done;
    }

    /** `handleEvent` on the event of a connection. */
    method HandleConnEvent(c: nat, revents: Mask, env: Env) returns (status: Status)
      requires Valid()
      modifies `poller, `conns, `servers, `held, `taskQueue, `posted
      ensures Ended(status, View()) == DispatchConn(old(View()), c, revents, env)
    {
      hide ReactorModel.HandleClose, ReactorModel.HandleRead, ReactorModel.HandleWrite;
      status := Done;
      if Hup in revents && In !in revents { status := HandleClose(c, env.closeActs); }
      if status == Done && (In in revents || Pri in revents || RdHup in revents) {
        status := HandleRead(c, env.recv, env.readActs);
      }
      if status == Done && Out in revents { status := HandleWrite(c); }
    }

    /** `handleEvent` on the next active event. */
    method HandleEvent(env: Env) returns (status: Status)
      requires Valid() && current < |activeEvents| && phase == Dispatching
      modifies `poller, `conns, `servers, `nextId, `held, `taskQueue, `posted, `current
      ensures Valid() && current == old(current) + 1
      ensures Ended(status, View()) == Next(old(View()), ReactorModel.Dispatch(env))
    {
      hide DispatchConn, ReactorModel.NewConnection;
      var e := activeEvents[current];
      assert activeEvents[current..][1..] == activeEvents[current + 1..];
      current := current + 1;
      if e !in poller.events { return Faulted; }
      status := Done;
      var revents := poller.events[e].revents;
      match e
      case AcceptorEv(s) =>
        if (In in revents || Pri in revents || RdHup in revents) && env.accepted != [] {
          status := NewConnection(s, env.accepted[0], env.readActs);
        }
      case ConnEv(c) =>
        status := HandleConnEvent(c, revents, env);
    }

    /** `disconnect`, as queued. */
    method Detach(c: nat) returns (status: Status)
      requires Valid()
      modifies `poller, `conns
      ensures Ended(status, View()) == RunDisconnect(old(View()), c)
    {
      if c !in conns || ConnEv(c) !in poller.events { return Faulted; }
      if !C.DisconnectAsserts(conns[c].state, poller, ConnEv(c)) { return Faulted; }
      var (state, p) := C.DisconnectControl(conns[c].state, poller, ConnEv(c));
      conns := conns[c := conns[c].(state := state)];
      poller := p;
      status := Done;
    }

    /** The front task runs and is popped. */
    method RunFrontTask(acts: seq<UserAct>) returns (status: Status)
      requires Valid() && |taskQueue| > 0
      modifies `poller, `conns, `held, `taskQueue, `posted, `ran
      ensures Ended(status, View()) == RunFront(old(View()), acts)
    {
      hide ActAll, Collect, RunDisconnect;
      var task := taskQueue[0];
      match task {
        case Disconnect(c) => status := Detach(c);
        case UserTask => status := PerformAll(acts);
      }
      if status != Done { return; }
      if taskQueue == [] { return Faulted; }
      taskQueue := taskQueue[1..];
      ran := ran + [task];
      if task.Disconnect? { Release(task.conn); }
    }

    method HandleTaskFun(acts: seq<UserAct>) returns (status: Status)
      requires Valid() && phase == Tasking
      modifies `poller, `conns, `held, `taskQueue, `posted, `ran, `phase
      ensures status == Done ==> phase == Dispatching
      ensures Ended(status, View()) == Next(old(View()), RunTask(acts))
    {
      hide RunFront;
      status := Done;
      if |taskQueue| > 0 { status := RunFrontTask(acts); }
      if status == Done { phase := Dispatching; }
    }

    /** `start`, on the first of which the acceptor is watched. */
    method StartServer(s: nat) returns (status: Status)
      requires Valid() && phase == Polling
      modifies `poller
      ensures Ended(status, View()) == Next(old(View()), Listen(s))
    {
      if s !in servers { return Stuck; }
      if AcceptorEv(s) !in poller.events { return Faulted; }
      status := Done;
      if poller.events[AcceptorEv(s)].index == New {
        if !Asserts(poller, EnableReading(AcceptorEv(s))) { return Faulted; }
        poller := Apply(poller, EnableReading(AcceptorEv(s)));
      }
    }

    method PollEvents(reported: seq<(Ev, Mask)>) returns (status: Status)
      requires Valid() && phase == Polling
      modifies `poller, `activeEvents, `current, `phase
      ensures Valid() && (status == Done ==> current == 0 && |activeEvents| == |reported| && phase == Tasking)
      ensures Ended(status, View()) == Next(old(View()), ReactorModel.Poll(reported))
    {
      hide ReportAll, Reportable;
      if !Reportable(poller, reported) { return Stuck; }
      if exists i | 0 <= i < |reported| :: reported[i].0 !in poller.events { return Faulted; }
      poller := ReportAll(poller, reported);
      activeEvents, current := Pointers(reported), 0;
      assert activeEvents[0..] == activeEvents;
      phase := Tasking;
      status := Done;
    }

    /** The inner loop of `runLoop`. */
    method DispatchAll(envs: seq<Env>) returns (status: Status)
      requires Valid() && phase == Dispatching && current == 0 && |activeEvents| == |envs|
      modifies this
      ensures Valid() && (status == Done ==> phase == Dispatching && current == |activeEvents|)
      ensures Ended(status, View()) == Run(old(View()), DispatchSteps(envs))
    {
      ghost var steps := DispatchSteps(envs);
      assert steps[0..] == steps && forall i | 0 <= i < |envs| :: steps[i] == ReactorModel.Dispatch(envs[i]);
      hide DispatchSteps, Run, Next;
      status := Done;
      while current < |activeEvents| && status == Done
        invariant Valid() && |activeEvents| == |envs| && phase == Dispatching
        invariant Run(old(View()), steps) == (if status == Done then Run(View(), steps[current..]) else Ended(status, View()))
      {
        RunFrom(View(), steps, current);
        status := HandleEvent(envs[current]);
      }
      if status == Done { RunNothing(View(), steps); }
    }

    /** One turn of `runLoop`: poll, at most one task, then the active events one by one. */
    method RunTurn(turn: Turn) returns (status: Status)
      requires Valid() && phase == Polling && Complete(turn)
      modifies this
      ensures Valid() && (status == Done ==> phase == Polling)
      ensures Ended(status, View()) == Run(old(View()), TurnSteps(turn))
    {
      hide TurnSteps, Run, Next, DispatchSteps;
      TurnIs(View(), turn);
      status := PollEvents(turn.reported);
      if status != Done { return; }
      ThenTask(View(), turn);
      status := HandleTaskFun(turn.taskActs);
      if status != Done { return; }
      status := DispatchAll(turn.dispatches);
      if status != Done { return; }
      TurnEnds(View());
      phase := Polling;
    }

    /** `runLoop`, for as many turns as the environment lets it keep running. */
    method RunLoop(turns: seq<Turn>) returns (status: Status)
      requires Valid() && phase == Polling && forall i | 0 <= i < |turns| :: Complete(turns[i])
      modifies this
      ensures Valid() && Ended(status, View()) == Run(old(View()), AllSteps(turns))
      ensures ReactorInvariant.Inv(old(View())) && Calm(old(View()), AllSteps(turns)) ==>
                && status != Faulted
                && (status == Done ==> Safe(View()) && Follows(old(View()), View(), History(old(View()), AllSteps(turns))))
    {
      hide Run, TurnSteps, ReactorInvariant.Inv, Calm, Safe, Follows, History;
      status := Done;
      var i := 0;
      while i < |turns| && status == Done
        invariant 0 <= i <= |turns| && Valid() && (status == Done ==> phase == Polling)
        invariant Run(old(View()), AllSteps(turns)) ==
                  (if status == Done then Run(View(), AllSteps(turns[i..])) else Ended(status, View()))
      {
        assert turns[i..][1..] == turns[i + 1..];
        RunConcat(View(), TurnSteps(turns[i]), AllSteps(turns[i + 1..]));
        status := RunTurn(turns[i]);
        i := i + 1;
      }
      if status == Done { RunNothing(View(), AllSteps(turns)); }
      if ReactorInvariant.Inv(old(View())) && Calm(old(View()), AllSteps(turns)) {
        RunInv(old(View()), AllSteps(turns));
        if status == Done {
          InvSafe(View());
          RunFollows(old(View()), AllSteps(turns));
        }
      }
    }
  }
}
