/**
 The life of server connections on one event loop: accepting, dispatching, closing, and the deferred `disconnect` that
 ends in the release of the event and the socket. The heap of connection objects is explicit, so that a use after
 release is a fault of the model; so is every assert of the code that fails.
 */
module ReactorModel {
  import opened IntCodec
  import opened PollerModel
  import opened ConnectionModel

  /** An event object: that of a server's acceptor or of a connection. Identities are never reused. */
  datatype Ev = AcceptorEv(server: nat) | ConnEv(conn: nat)

  datatype Conn = Conn(server: nat, state: State, out: Stream)

  /** All connections of a server get the same name, because the code never advances its connection number. */
  datatype Server = Server(name: string, connections: map<string, nat>)

  datatype Task = Disconnect(conn: nat) | UserTask

  datatype Phase = Polling | Tasking | Dispatching

  datatype Reactor = Reactor(
    poller: Poller<Ev>,           // the registered events; an event not in `poller.events` has been freed
    conns: map<nat, Conn>,        // the connection objects that are alive
    servers: map<nat, Server>,
    tasks: seq<Task>,             // the loop's task queue
    held: set<nat>,               // connections user code keeps a shared pointer to
    active: seq<Ev>,              // reported by the last poll and not yet dispatched
    phase: Phase,
    nextId: nat,
    posted: seq<Task>,            // history: every task ever queued, and those that have run
    ran: seq<Task>)

  /** `Impossible` marks an environment that does what it cannot do; `Fault` a failed assert or a use after release. */
  datatype Outcome<+T> = Ok(value: T) | Fault | Impossible {
    predicate IsFailure() { !Ok? }

    function PropagateFailure<U>(): Outcome<U>
      requires IsFailure()
    {
      if Fault? then Fault else Impossible
    }

    function Extract(): T
      requires Ok?
    {
      value
    }
  }

  // ----- building blocks

  /** A call on an event, which must be alive and meet the poller's asserts. */
  function CallEvent(r: Reactor, call: Call<Ev>): Outcome<Reactor> {
    if call.e in r.poller.events && Asserts(r.poller, call) then Ok(r.(poller := Apply(r.poller, call))) else Fault
  }

  /** Whether a shared pointer to the connection is left anywhere. */
  predicate Referenced(r: Reactor, c: nat) {
    c in r.held || Disconnect(c) in r.tasks || exists s | s in r.servers :: c in r.servers[s].connections.Values
  }

  /** The last shared pointer goes: the event is freed, and the socket closed, which ends the kernel's interest in it. */
  function Collect(r: Reactor, c: nat): Reactor {
    if c in r.conns && ConnEv(c) in r.poller.events && !Referenced(r, c) then
      var fd := r.poller.events[ConnEv(c)].fd;
      r.(conns := r.conns - {c},
         poller := r.poller.(events := r.poller.events - {ConnEv(c)}, kernel := r.poller.kernel - {fd}))
    else r
  }

  function Post(r: Reactor, task: Task): Reactor {
    r.(tasks := r.tasks + [task], posted := r.posted + [task])
  }

  function SetState(r: Reactor, c: nat, s: State): Reactor
    requires c in r.conns
  {
    r.(conns := r.conns[c := r.conns[c].(state := s)])
  }

  // ----- what user code may do in a callback or a task

  datatype UserAct = SendTo(conn: nat, message: seq<Byte>) | Retain(conn: nat) | LetGo(conn: nat) | PostTask

  /** `TcpConnection::send` */
  function SendMessage(r: Reactor, c: nat, message: seq<Byte>): Outcome<Reactor>
    requires c in r.conns
  {
    var e, conn := ConnEv(c), r.conns[c];
    if e !in r.poller.events || !SendAsserts(conn.state, r.poller, e) then Fault
    else Ok(r.(poller := SendControl(conn.state, r.poller, e),
               conns := r.conns[c := conn.(out := SendStream(conn.state, conn.out, message))]))
  }

  function Act(r: Reactor, act: UserAct): Outcome<Reactor> {
    match act
    case SendTo(c, message) => if c in r.conns then SendMessage(r, c, message) else Impossible
    case Retain(c) => if c in r.conns then Ok(r.(held := r.held + {c})) else Impossible
    case LetGo(c) => if c in r.held then Ok(Collect(r.(held := r.held - {c}), c)) else Impossible
    case PostTask => Ok(Post(r, UserTask))
  }

  function ActAll(r: Reactor, acts: seq<UserAct>): Outcome<Reactor>
    decreases |acts|
  {
    if acts == [] then Ok(r)
    else
      var r' :- Act(r, acts[0]);
      ActAll(r', acts[1..])
  }

  // ----- the callbacks

  /** A new connection, with its event, in its server's map under the server's one name. */
  function Created(r: Reactor, s: nat, fd: int): Reactor
    requires s in r.servers
  {
    var id, server := r.nextId, r.servers[s];
    r.(conns := r.conns[id := Conn(s, Connecting, SILENT)], nextId := id + 1,
       poller := r.poller.(events := r.poller.events[ConnEv(id) := Event(fd, New, NONE, NONE, false, false)]),
       servers := r.servers[s := server.(connections := server.connections[server.name := id])])
  }

  /** `TcpConnection::connectFinished`, up to the user's callback. */
  function Finish(r: Reactor, c: nat): Outcome<Reactor> {
    var e := ConnEv(c);
    if c !in r.conns || e !in r.poller.events || !ConnectAsserts(r.conns[c].state, r.poller, e) then Fault
    else
      var (s, p) := ConnectControl(r.conns[c].state, r.poller, e);
      Ok(SetState(r, c, s).(poller := p))
  }

  /** `TcpServer::newConnection`: the map takes the new connection, dropping what was there under the name. */
  function NewConnection(r: Reactor, s: nat, fd: int, acts: seq<UserAct>): Outcome<Reactor> {
    if s !in r.servers || fd <= 0 || exists e | e in r.poller.events :: r.poller.events[e].fd == fd then Impossible
    else
      var created, server := Created(r, s, fd), r.servers[s];
      var mapped := if server.name in server.connections then Collect(created, server.connections[server.name]) else created;
      var enabled :- Finish(mapped, r.nextId);
      var called :- ActAll(enabled, acts);
      Ok(Collect(called, r.nextId))
  }

  /** `TcpServer::removeConnection`: erases the name, queues the `disconnect`, and runs the user's close callback. */
  function RemoveConnection(r: Reactor, c: nat, acts: seq<UserAct>): Outcome<Reactor> {
    if c !in r.conns || r.conns[c].server !in r.servers then Fault
    else
      var s, server := r.conns[c].server, r.servers[r.conns[c].server];
      var erased := r.(servers := r.servers[s := server.(connections := server.connections - {server.name})]);
      var dropped := if server.name in server.connections && server.connections[server.name] != c
                     then Collect(erased, server.connections[server.name]) else erased;
      ActAll(Post(dropped, Disconnect(c)), acts)
  }

  /** `TcpConnection::handleClose`, up to the server's close callback. */
  function ShutDown(r: Reactor, c: nat): Outcome<Reactor> {
    var e := ConnEv(c);
    if c !in r.conns || e !in r.poller.events || !CloseAsserts(r.conns[c].state, r.poller, e) then Fault
    else
      var (s, p) := CloseControl(r.poller, e);
      Ok(SetState(r, c, s).(poller := p))
  }

  /** `TcpConnection::handleClose` with the server's close callback; the stack's shared pointer goes last. */
  function HandleClose(r: Reactor, c: nat, acts: seq<UserAct>): Outcome<Reactor> {
    var disabled :- ShutDown(r, c);
    var removed :- RemoveConnection(disabled, c, acts);
    Ok(Collect(removed, c))
  }

  datatype Recv = Data | Eof | Failed

  /** `TcpConnection::handleRead`: the receive callback, the end of the stream, or an error that is only logged. */
  function HandleRead(r: Reactor, c: nat, recv: Recv, acts: seq<UserAct>): Outcome<Reactor> {
    if c !in r.conns then Fault
    else if recv == Data then ActAll(r, acts)
    else if recv == Eof then HandleClose(r, c, acts)
    else Ok(r)
  }

  /** `TcpConnection::handleWrite` */
  function HandleWrite(r: Reactor, c: nat): Outcome<Reactor> {
    var e := ConnEv(c);
    if c !in r.conns || e !in r.poller.events then Fault
    else
      var conn := r.conns[c];
      var out := WriteStream(conn.state, Out in MaskOf(r.poller, e), conn.out);
      if !WriteAsserts(conn.state, r.poller, e, out.pending == []) then Fault
      else Ok(r.(poller := WriteControl(conn.state, r.poller, e, out.pending == []),
                 conns := r.conns[c := conn.(out := out)]))
  }

  // ----- the steps of the loop

  /** What the environment contributes to one dispatch. */
  datatype Env = Env(recv: Recv, accepted: seq<int>, closeActs: seq<UserAct>, readActs: seq<UserAct>)

  datatype Step =
    | Listen(server: nat)
    | Poll(reported: seq<(Ev, Mask)>)
    | RunTask(acts: seq<UserAct>)
    | Dispatch(env: Env)
    | NextIteration

  predicate Reads(revents: Mask) {
    In in revents || Pri in revents || RdHup in revents
  }

  predicate HangsUp(revents: Mask) {
    Hup in revents && In !in revents
  }

  /** The dispatch of a connection's event: close, error, read and write callback, in that order. */
  function DispatchConn(r: Reactor, c: nat, revents: Mask, env: Env): Outcome<Reactor> {
    var closed :- if HangsUp(revents) then HandleClose(r, c, env.closeActs) else Ok(r);
    var read :- if Reads(revents) then HandleRead(closed, c, env.recv, env.readActs) else Ok(closed);
    if Out in revents then HandleWrite(read, c) else Ok(read)
  }

  /** The dispatch of an acceptor's event: at most one connection is accepted. */
  function DispatchAcceptor(r: Reactor, s: nat, revents: Mask, env: Env): Outcome<Reactor> {
    if Reads(revents) && env.accepted != [] then NewConnection(r, s, env.accepted[0], env.readActs) else Ok(r)
  }

  function DispatchEvent(r: Reactor, e: Ev, env: Env): Outcome<Reactor> {
    if e !in r.poller.events then Fault
    else
      var revents := r.poller.events[e].revents;
      match e
      case AcceptorEv(s) => DispatchAcceptor(r, s, revents, env)
      case ConnEv(c) => DispatchConn(r, c, revents, env)
  }

  /** `disconnect` as the queued task runs it. */
  function RunDisconnect(r: Reactor, c: nat): Outcome<Reactor> {
    var e := ConnEv(c);
    if c !in r.conns || e !in r.poller.events || !DisconnectAsserts(r.conns[c].state, r.poller, e) then Fault
    else
      var (s, p) := DisconnectControl(r.conns[c].state, r.poller, e);
      Ok(SetState(r, c, s).(poller := p))
  }

  /** `handleTaskFun`: the front task runs and is then popped, which drops its shared pointer. */
  function RunFront(r: Reactor, acts: seq<UserAct>): Outcome<Reactor>
    requires r.tasks != []
  {
    var task := r.tasks[0];
    var done :- if task.Disconnect? then RunDisconnect(r, task.conn) else ActAll(r, acts);
    if done.tasks == [] then Fault
    else
      var popped := done.(tasks := done.tasks[1..], ran := done.ran + [task]);
      Ok(if task.Disconnect? then Collect(popped, task.conn) else popped)
  }

  /** The kernel can report `mask` for the event: what it watches for, and errors and hang-ups always. */
  predicate MayReport(p: Poller<Ev>, e: Ev, mask: Mask) {
    exists fd | fd in p.kernel :: p.kernel[fd].ptr == e && mask <= p.kernel[fd].mask + {Err, Hup}
  }

  /** epoll reports each watched descriptor at most once. */
  predicate Reportable(p: Poller<Ev>, reported: seq<(Ev, Mask)>) {
    && (forall i | 0 <= i < |reported| :: MayReport(p, reported[i].0, reported[i].1))
    && (forall i, j | 0 <= i < j < |reported| :: reported[i].0 != reported[j].0)
  }

  function Pointers(reported: seq<(Ev, Mask)>): seq<Ev> {
    seq(|reported|, i requires 0 <= i < |reported| => reported[i].0)
  }

  /** A server starts, before a poll; or a step of `runLoop`: poll, at most one task, the reported events one by one. */
  function Next(r: Reactor, step: Step): Outcome<Reactor> {
    match step
    case Listen(s) =>
      if r.phase != Polling || s !in r.servers then Impossible
      else if AcceptorEv(s) !in r.poller.events then Fault
      else if r.poller.events[AcceptorEv(s)].index != New then Ok(r)
      else CallEvent(r, EnableReading(AcceptorEv(s)))
    case Poll(reported) =>
      if r.phase != Polling || !Reportable(r.poller, reported) then Impossible
      else if exists i | 0 <= i < |reported| :: reported[i].0 !in r.poller.events then Fault
      else Ok(r.(poller := ReportAll(r.poller, reported), active := Pointers(reported), phase := Tasking))
    case RunTask(acts) =>
      if r.phase != Tasking then Impossible
      else
        var ran :- if r.tasks == [] then Ok(r) else RunFront(r, acts);
        Ok(ran.(phase := Dispatching))
    case Dispatch(env) =>
      if r.phase != Dispatching || r.active == [] then Impossible
      else DispatchEvent(r.(active := r.active[1..]), r.active[0], env)
    case NextIteration =>
      if r.phase != Dispatching || r.active != [] then Impossible else Ok(r.(phase := Polling))
  }

  // ----- the conditions

  /** A hang-up closes the connection, and the read that urgent data asks for finds the end of the stream and closes again. */
  predicate ClosesTwice(revents: Mask, recv: Recv) {
    Hup in revents && In !in revents && Pri in revents && recv == Eof
  }

  /** A server accepts while it has a live connection, or a dispatch closes twice. */
  predicate Troubled(r: Reactor, step: Step) {
    step.Dispatch? && r.phase == Dispatching && r.active != [] && r.active[0] in r.poller.events &&
    var revents := r.poller.events[r.active[0]].revents;
    match r.active[0]
    case AcceptorEv(s) =>
      s in r.servers && Reads(revents) && step.env.accepted != [] && r.servers[s].name in r.servers[s].connections
    case ConnEv(c) => ClosesTwice(revents, step.env.recv)
  }
}
