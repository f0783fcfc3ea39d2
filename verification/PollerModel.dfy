/**
 The poller and its events as values: the events' own fields, the poller's map from descriptors to events, and the
 interest set the kernel keeps, with the rules of `epoll_ctl`. `E` identifies an event object.
 */
module PollerModel {

  datatype Flag = In | Pri | Out | Err | Hup | RdHup

  type Mask = set<Flag>

  const NONE: Mask := {}
  const READ: Mask := {In, Pri}
  const WRITE: Mask := {Out}

  /** `kNew`, `kAdded`, `kDeleted`. */
  datatype Index = New | Added | Deleted

  datatype Event = Event(fd: int, index: Index, events: Mask, revents: Mask, oneShot: bool, locked: bool)

  datatype Interest<E> = Interest(mask: Mask, ptr: E)

  /** `refused` counts the `epoll_ctl` calls the kernel answered with an error. */
  datatype Poller<E> = Poller(events: map<E, Event>, fdMap: map<int, E>, kernel: map<int, Interest<E>>, refused: nat)

  // ----- epoll_ctl

  datatype CtlOp = CtlAdd | CtlMod | CtlDel

  /** Adding needs an unwatched descriptor, changing and deleting a watched one. */
  predicate CtlLegal<E>(p: Poller<E>, op: CtlOp, fd: int) {
    fd in p.kernel <==> op != CtlAdd
  }

  function Ctl<E(==)>(p: Poller<E>, op: CtlOp, e: E): Poller<E>
    requires e in p.events
  {
    var fd := p.events[e].fd;
    if !CtlLegal(p, op, fd) then p.(refused := p.refused + 1)
    else if op == CtlDel then p.(kernel := p.kernel - {fd})
    else p.(kernel := p.kernel[fd := Interest(p.events[e].events, e)])
  }

  function With<E(==)>(p: Poller<E>, e: E, ev: Event): Poller<E>
    requires e in p.events
  {
    p.(events := p.events[e := ev])
  }

  // ----- updateEvent and removeEvent

  predicate UpdateAsserts<E(==)>(p: Poller<E>, e: E)
    requires e in p.events
  {
    var fd := p.events[e].fd;
    if p.events[e].index == New then fd !in p.fdMap else fd in p.fdMap && p.fdMap[fd] == e
  }

  function UpdateEvent<E(==)>(p: Poller<E>, e: E): Poller<E>
    requires e in p.events
  {
    var ev := p.events[e];
    if ev.index != Added then
      var mapped := if ev.index == New then p.(fdMap := p.fdMap[ev.fd := e]) else p;
      Ctl(With(mapped, e, ev.(index := Added)), CtlAdd, e)
    else if ev.events == NONE then With(Ctl(p, CtlDel, e), e, ev.(index := Deleted))
    else Ctl(p, CtlMod, e)
  }

  predicate RemoveAsserts<E(==)>(p: Poller<E>, e: E)
    requires e in p.events
  {
    var ev := p.events[e];
    ev.fd in p.fdMap && p.fdMap[ev.fd] == e && ev.events == NONE && ev.index != New
  }

  function RemoveEvent<E(==)>(p: Poller<E>, e: E): Poller<E>
    requires e in p.events
  {
    var ev := p.events[e];
    var erased := p.(fdMap := p.fdMap - {ev.fd});
    With(if ev.index == Added then Ctl(erased, CtlDel, e) else erased, e, ev.(index := New))
  }

  // ----- the calls on an event

  datatype Call<E> =
    | EnableReading(e: E)
    | EnableWriting(e: E)
    | DisableReading(e: E)
    | DisableWriting(e: E)
    | DisableAll(e: E)
    | Remove(e: E)

  function NewMask<E>(call: Call<E>, mask: Mask): Mask {
    match call
    case EnableReading(_) => mask + READ
    case EnableWriting(_) => mask + WRITE
    case DisableReading(_) => mask - READ
    case DisableWriting(_) => mask - WRITE
    case DisableAll(_) => NONE
    case Remove(_) => mask
  }

  predicate Asserts<E(==)>(p: Poller<E>, call: Call<E>)
    requires call.e in p.events
  {
    if call.Remove? then RemoveAsserts(p, call.e) else UpdateAsserts(p, call.e)
  }

  function Apply<E(==)>(p: Poller<E>, call: Call<E>): Poller<E>
    requires call.e in p.events
  {
    if call.Remove? then RemoveEvent(p, call.e)
    else UpdateEvent(With(p, call.e, p.events[call.e].(events := NewMask(call, p.events[call.e].events))), call.e)
  }

  /** Only event `e`, in its index and mask, and only its descriptor's entries differ. */
  ghost predicate ChangesOnly<E>(p: Poller<E>, q: Poller<E>, e: E, mask: Mask)
    requires e in p.events
  {
    && e in q.events
    && q.events == p.events[e := p.events[e].(index := q.events[e].index, events := mask)]
    && forall fd | fd != p.events[e].fd ::
         && (fd in q.fdMap <==> fd in p.fdMap) && (fd in p.fdMap ==> q.fdMap[fd] == p.fdMap[fd])
         && (fd in q.kernel <==> fd in p.kernel) && (fd in p.kernel ==> q.kernel[fd] == p.kernel[fd])
  }

  lemma CtlShape<E>(p: Poller<E>, op: CtlOp, e: E)
    requires e in p.events
    ensures var q := Ctl(p, op, e);
            && q.events == p.events && q.fdMap == p.fdMap
            && forall fd | fd != p.events[e].fd ::
                 (fd in q.kernel <==> fd in p.kernel) && (fd in p.kernel ==> q.kernel[fd] == p.kernel[fd])
  {}

  lemma UpdateShape<E>(p: Poller<E>, e: E)
    requires e in p.events
    ensures ChangesOnly(p, UpdateEvent(p, e), e, p.events[e].events)
  {
    var ev, q := p.events[e], UpdateEvent(p, e);
    var mapped := if ev.index == New then p.(fdMap := p.fdMap[ev.fd := e]) else p;
    CtlShape(With(mapped, e, ev.(index := Added)), CtlAdd, e);
    CtlShape(p, CtlDel, e);
    CtlShape(p, CtlMod, e);
    hide Ctl;
    assert q.events[e] == ev.(index := q.events[e].index);
    assert q.events == p.events[e := q.events[e]];
  }

  lemma ApplyShape<E>(p: Poller<E>, call: Call<E>)
    requires call.e in p.events
    ensures ChangesOnly(p, Apply(p, call), call.e, NewMask(call, p.events[call.e].events))
    ensures Apply(p, call).events.Keys == p.events.Keys
  {
    var e, ev := call.e, p.events[call.e];
    if !call.Remove? {
      var masked := With(p, e, ev.(events := NewMask(call, ev.events)));
      UpdateShape(masked, e);
      var now := UpdateEvent(masked, e).events[e];
      assert masked.events[e := now] == p.events[e := now];
    }
  }

  // ----- agreement of the four records

  /** An event is mapped unless it is new, and watched, for its mask, exactly when it is added. */
  predicate Agrees<E(==)>(p: Poller<E>, e: E)
    requires e in p.events
  {
    var ev := p.events[e];
    && (ev.index != New <==> ev.fd in p.fdMap && p.fdMap[ev.fd] == e)
    && (ev.index == Added <==> ev.fd in p.kernel && p.kernel[ev.fd].ptr == e)
    && (ev.index == Added ==> p.kernel[ev.fd].mask == ev.events)
  }

  /** The map, the indexes, the masks and the kernel say the same. */
  ghost predicate Consistent<E>(p: Poller<E>) {
    && (forall e | e in p.events :: Agrees(p, e))
    && (forall fd | fd in p.fdMap :: p.fdMap[fd] in p.events && p.events[p.fdMap[fd]].fd == fd)
    && (forall fd | fd in p.kernel :: p.kernel[fd].ptr in p.events && p.events[p.kernel[fd].ptr].fd == fd)
  }

  /** What a call does at its own descriptor. */
  lemma ApplyAtOwn<E>(p: Poller<E>, call: Call<E>)
    requires Consistent(p) && call.e in p.events && Asserts(p, call)
    ensures var q, fd := Apply(p, call), p.events[call.e].fd;
            && call.e in q.events && Agrees(q, call.e) && q.refused == p.refused
            && (fd in q.fdMap ==> q.fdMap[fd] == call.e)
            && (fd in q.kernel ==> q.kernel[fd].ptr == call.e)
            && (fd in p.fdMap ==> p.fdMap[fd] == call.e)
  {
    assert Agrees(p, call.e);
    var fd := p.events[call.e].fd;
    if fd in p.kernel { assert Agrees(p, p.kernel[fd].ptr); }
  }

  /** A change confined to one event keeps agreement if it does so at that event's descriptor. */
  lemma ChangeConsistent<E>(p: Poller<E>, q: Poller<E>, e: E, mask: Mask)
    requires Consistent(p) && e in p.events && ChangesOnly(p, q, e, mask) && Agrees(q, e)
    requires var fd := p.events[e].fd;
             && (fd in q.fdMap ==> q.fdMap[fd] == e) && (fd in q.kernel ==> q.kernel[fd].ptr == e)
             && (fd in p.fdMap ==> p.fdMap[fd] == e)
    ensures Consistent(q)
  {
    forall d | d in q.events ensures Agrees(q, d) {
      assert Agrees(p, d);
      if d != e { assert q.events[d] == p.events[d]; }
    }
  }

  /** One call that meets the asserts keeps the records in agreement, and the kernel accepts what it is asked. */
  lemma ApplyConsistent<E>(p: Poller<E>, call: Call<E>)
    requires Consistent(p) && call.e in p.events && Asserts(p, call)
    ensures Consistent(Apply(p, call)) && Apply(p, call).refused == p.refused
    ensures Apply(p, call).events.Keys == p.events.Keys
  {
    hide Apply;
    ApplyShape(p, call);
    ApplyAtOwn(p, call);
    ChangeConsistent(p, Apply(p, call), call.e, NewMask(call, p.events[call.e].events));
  }

  /** In agreement, the asserts fail only for a new event whose descriptor another event holds, or a removal out of turn. */
  lemma AssertsExact<E>(p: Poller<E>, call: Call<E>)
    requires Consistent(p) && call.e in p.events
    ensures Asserts(p, call) <==>
            var ev := p.events[call.e];
            if call.Remove? then ev.index != New && ev.events == NONE
            else ev.index == New ==> ev.fd !in p.fdMap
  {
    assert Agrees(p, call.e);
  }

  predicate AllAsserts<E(==)>(p: Poller<E>, calls: seq<Call<E>>)
    decreases |calls|
  {
    calls != [] ==>
      && calls[0].e in p.events && Asserts(p, calls[0])
      && AllAsserts(Apply(p, calls[0]), calls[1..])
  }

  function ApplyAll<E(==)>(p: Poller<E>, calls: seq<Call<E>>): Poller<E>
    requires forall i | 0 <= i < |calls| :: calls[i].e in p.events
    decreases |calls|
  {
    if calls == [] then p
    else
      ApplyShape(p, calls[0]);
      ApplyAll(Apply(p, calls[0]), calls[1..])
  }

  /** A poller before any call: events exist, none is registered. */
  predicate Fresh<E>(p: Poller<E>) {
    && p.fdMap == map[] && p.kernel == map[] && p.refused == 0
    && forall e | e in p.events :: p.events[e].index == New
  }

  /** Over any run of calls that meets the asserts: the records agree, and every `epoll_ctl` issued was legal. */
  lemma {:induction false} RunConsistent<E>(p: Poller<E>, calls: seq<Call<E>>)
    requires Consistent(p) && AllAsserts(p, calls)
    ensures forall i | 0 <= i < |calls| :: calls[i].e in p.events
    ensures Consistent(ApplyAll(p, calls)) && ApplyAll(p, calls).refused == p.refused
    decreases |calls|
  {
    hide Apply, Consistent;
    if calls != [] {
      ApplyConsistent(p, calls[0]);
      RunConsistent(Apply(p, calls[0]), calls[1..]);
      assert forall i | 1 <= i < |calls| :: calls[i] == calls[1..][i - 1];
    }
  }

  lemma FreshRunConsistent<E>(p: Poller<E>, calls: seq<Call<E>>)
    requires Fresh(p) && AllAsserts(p, calls)
    ensures forall i | 0 <= i < |calls| :: calls[i].e in p.events
    ensures Consistent(ApplyAll(p, calls)) && ApplyAll(p, calls).refused == 0
  {
    RunConsistent(p, calls);
  }

  /** An update leaves a descriptor watched for nothing exactly when the event was unwatched and its mask ends up empty. */
  lemma EmptyInterest<E>(p: Poller<E>, call: Call<E>)
    requires Consistent(p) && call.e in p.events && Asserts(p, call) && !call.Remove?
    ensures var fd, q := p.events[call.e].fd, Apply(p, call);
            (fd in q.kernel && q.kernel[fd].mask == NONE) <==>
            p.events[call.e].index != Added && NewMask(call, p.events[call.e].events) == NONE
  {
    ApplyConsistent(p, call);
    assert Agrees(p, call.e) && Agrees(Apply(p, call), call.e);
  }

  // ----- dispatch and the one-shot latch

  datatype Callback = CloseCallback | ErrorCallback | ReadCallback | WriteCallback

  /** The callbacks `handleLockEvent` makes, in its order. */
  function Callbacks(revents: Mask): seq<Callback> {
    (if Hup in revents && In !in revents then [CloseCallback] else [])
    + (if Err in revents then [ErrorCallback] else [])
    + (if In in revents || Pri in revents || RdHup in revents then [ReadCallback] else [])
    + (if Out in revents then [WriteCallback] else [])
  }

  /** The place of each callback in a dispatch. */
  function Rank(c: Callback): nat {
    match c
    case CloseCallback => 0
    case ErrorCallback => 1
    case ReadCallback => 2
    case WriteCallback => 3
  }

  /** A dispatch makes each callback exactly when its flags are reported, once, in the order of the ranks. */
  lemma CallbacksExact(revents: Mask)
    ensures CloseCallback in Callbacks(revents) <==> Hup in revents && !(In in revents)
    ensures ErrorCallback in Callbacks(revents) <==> Err in revents
    ensures ReadCallback in Callbacks(revents) <==> exists f | f in revents :: f == In || f == Pri || f == RdHup
    ensures WriteCallback in Callbacks(revents) <==> Out in revents
    ensures forall i, j | 0 <= i < j < |Callbacks(revents)| :: Rank(Callbacks(revents)[i]) < Rank(Callbacks(revents)[j])
  {}

  /** What each call leaves in the mask, flag by flag. */
  lemma NewMaskExact<E>(e: E, mask: Mask, f: Flag)
    ensures f in NewMask(EnableReading(e), mask) <==> f in mask || f == In || f == Pri
    ensures f in NewMask(DisableReading(e), mask) <==> f in mask && f != In && f != Pri
    ensures f in NewMask(EnableWriting(e), mask) <==> f in mask || f == Out
    ensures f in NewMask(DisableWriting(e), mask) <==> f in mask && f != Out
    ensures f !in NewMask(DisableAll(e), mask)
    ensures f in NewMask(Remove(e), mask) <==> f in mask
  {}

  /** What happens to a poller in a run: calls from outside, reports, and dispatches whose callbacks make calls. */
  datatype Step<E> = Make(call: Call<E>) | Report(e: E, revents: Mask) | Dispatch(e: E, inside: seq<Call<E>>)

  predicate Known<E>(p: Poller<E>, s: Step<E>) {
    match s
    case Make(call) => call.e in p.events
    case Report(e, _) => e in p.events
    case Dispatch(e, inside) => e in p.events && forall i | 0 <= i < |inside| :: inside[i].e in p.events
  }

  /** `fillActiveEvents`: each reported event gets its `revents`, in the order of the report. */
  function ReportAll<E(==)>(p: Poller<E>, reported: seq<(E, Mask)>): (q: Poller<E>)
    requires forall i | 0 <= i < |reported| :: reported[i].0 in p.events
    ensures q.events.Keys == p.events.Keys
  {
    if reported == [] then p
    else
      var last := reported[|reported| - 1];
      var q := ReportAll(p, reported[..|reported| - 1]);
      With(q, last.0, q.events[last.0].(revents := last.1))
  }

  /** Every reported event has its report, and nothing else is different. */
  ghost predicate Arrived<E>(p: Poller<E>, q: Poller<E>, reported: seq<(E, Mask)>)
    requires forall i | 0 <= i < |reported| :: reported[i].0 in p.events
  {
    && q.events.Keys == p.events.Keys && q == p.(events := q.events)
    && (forall i | 0 <= i < |reported| ::
          q.events[reported[i].0] == p.events[reported[i].0].(revents := reported[i].1))
    && (forall e | e in p.events && (forall i | 0 <= i < |reported| :: reported[i].0 != e) ::
          q.events[e] == p.events[e])
  }

  lemma OneMoreArrives<E>(p: Poller<E>, q: Poller<E>, reported: seq<(E, Mask)>, e: E, mask: Mask)
    requires forall i | 0 <= i < |reported| :: reported[i].0 in p.events && reported[i].0 != e
    requires e in p.events && Arrived(p, q, reported)
    ensures forall i | 0 <= i < |reported + [(e, mask)]| :: (reported + [(e, mask)])[i].0 in p.events
    ensures Arrived(p, With(q, e, q.events[e].(revents := mask)), reported + [(e, mask)])
  {
    var more, q' := reported + [(e, mask)], With(q, e, q.events[e].(revents := mask));
    assert q.events[e] == p.events[e];
    forall f | f in p.events && (forall i | 0 <= i < |more| :: more[i].0 != f) ensures q'.events[f] == p.events[f] {
      assert more[|reported|].0 != f;
      assert forall i | 0 <= i < |reported| :: more[i] == reported[i];
    }
  }

  /** Reports of different events arrive each at its own event, and nothing else changes. */
  lemma {:induction false} ReportsArrive<E>(p: Poller<E>, reported: seq<(E, Mask)>)
    requires forall i | 0 <= i < |reported| :: reported[i].0 in p.events
    requires forall i, j | 0 <= i < j < |reported| :: reported[i].0 != reported[j].0
    ensures Arrived(p, ReportAll(p, reported), reported)
  {
    if reported != [] {
      var n := |reported| - 1;
      var before, last := reported[..n], reported[n];
      assert reported == before + [last] && forall i | 0 <= i < n :: before[i] == reported[i];
      ReportsArrive(p, before);
      hide Arrived;
      OneMoreArrives(p, ReportAll(p, before), before, last.0, last.1);
    }
  }

  lemma ReportNothing<E>(p: Poller<E>)
    ensures ReportAll(p, []) == p
  {}

  lemma ReportStep<E>(p: Poller<E>, reported: seq<(E, Mask)>, n: nat)
    requires n < |reported| && forall i | 0 <= i < |reported| :: reported[i].0 in p.events
    ensures var q, e := ReportAll(p, reported[..n]), reported[n].0;
            ReportAll(p, reported[..n + 1]) == With(q, e, q.events[e].(revents := reported[n].1))
  {
    assert reported[..n + 1][..n] == reported[..n];
  }

  function Lock<E(==)>(p: Poller<E>, e: E): Poller<E>
    requires e in p.events
  {
    With(p, e, p.events[e].(locked := true))
  }

  function HandleEvent<E(==)>(p: Poller<E>, e: E, inside: seq<Call<E>>): Poller<E>
    requires Known(p, Dispatch(e, inside))
  {
    if p.events[e].locked then p
    else
      ApplyAllKeeps(p, inside);
      var q := ApplyAll(p, inside);
      if q.events[e].oneShot then Apply(Lock(q, e), DisableAll(e)) else q
  }

  /** The asserts a dispatch meets: those of the calls made inside, and of the final `disableAll` of a one-shot event. */
  predicate DispatchAsserts<E(==)>(p: Poller<E>, e: E, inside: seq<Call<E>>)
    requires Known(p, Dispatch(e, inside))
  {
    ApplyAllKeeps(p, inside);
    p.events[e].locked ||
    (AllAsserts(p, inside) && (p.events[e].oneShot ==> Asserts(Lock(ApplyAll(p, inside), e), DisableAll(e))))
  }

  function Perform<E(==)>(p: Poller<E>, s: Step<E>): Poller<E>
    requires Known(p, s)
  {
    match s
    case Make(call) => Apply(p, call)
    case Report(e, revents) => With(p, e, p.events[e].(revents := revents))
    case Dispatch(e, inside) => HandleEvent(p, e, inside)
  }

  /** The calls change neither the set of events nor what concerns the latch. */
  lemma {:induction false} ApplyAllKeeps<E>(p: Poller<E>, calls: seq<Call<E>>)
    requires forall i | 0 <= i < |calls| :: calls[i].e in p.events
    ensures var q := ApplyAll(p, calls);
            && q.events.Keys == p.events.Keys
            && forall e | e in p.events ::
                 q.events[e].locked == p.events[e].locked && q.events[e].oneShot == p.events[e].oneShot
    decreases |calls|
  {
    if calls != [] {
      ApplyShape(p, calls[0]);
      ApplyAllKeeps(Apply(p, calls[0]), calls[1..]);
    }
  }

  predicate AllKnown<E>(p: Poller<E>, steps: seq<Step<E>>) {
    forall i | 0 <= i < |steps| :: Known(p, steps[i])
  }

  /** How many dispatches of `e` in a run get as far as making its callbacks. */
  function Firings<E(==)>(p: Poller<E>, steps: seq<Step<E>>, e: E): nat
    requires AllKnown(p, steps)
    decreases |steps|
  {
    if steps == [] then 0
    else
      PerformKeeps(p, steps[0]);
      (if steps[0].Dispatch? && steps[0].e == e && !p.events[e].locked then 1 else 0)
      + Firings(Perform(p, steps[0]), steps[1..], e)
  }

  function Dispatches<E(==)>(steps: seq<Step<E>>, e: E): nat {
    if steps == [] then 0
    else (if steps[0].Dispatch? && steps[0].e == e then 1 else 0) + Dispatches(steps[1..], e)
  }

  lemma PerformKeeps<E>(p: Poller<E>, s: Step<E>)
    requires Known(p, s)
    ensures var q := Perform(p, s);
            && q.events.Keys == p.events.Keys
            && forall e | e in p.events ::
                 && q.events[e].oneShot == p.events[e].oneShot
                 && q.events[e].locked == (p.events[e].locked || (p.events[e].oneShot && s.Dispatch? && s.e == e))
  {
    match s
    case Make(call) => ApplyShape(p, call);
    case Report(_, _) =>
    case Dispatch(e, inside) =>
      ApplyAllKeeps(p, inside);
      var q := ApplyAll(p, inside);
      ApplyShape(Lock(q, e), DisableAll(e));
  }

  /**
   In any run, whatever is enabled, reported and dispatched: a one-shot event fires at its first dispatch and never
   again, any other unlocked event at every dispatch.
   */
  lemma {:induction false} OneShotFiresOnce<E>(p: Poller<E>, steps: seq<Step<E>>, e: E)
    requires AllKnown(p, steps) && e in p.events
    ensures Firings(p, steps, e) ==
            if p.events[e].locked then 0
            else if p.events[e].oneShot then (if Dispatches(steps, e) > 0 then 1 else 0)
            else Dispatches(steps, e)
    decreases |steps|
  {
    if steps != [] {
      PerformKeeps(p, steps[0]);
      OneShotFiresOnce(Perform(p, steps[0]), steps[1..], e);
    }
  }

  function PerformAll<E(==)>(p: Poller<E>, steps: seq<Step<E>>): Poller<E>
    requires AllKnown(p, steps)
    decreases |steps|
  {
    if steps == [] then p
    else
      PerformKeeps(p, steps[0]);
      PerformAll(Perform(p, steps[0]), steps[1..])
  }

  /** The run without the dispatches of an event. */
  function Undispatched<E(==)>(steps: seq<Step<E>>, e: E): seq<Step<E>> {
    if steps == [] then []
    else (if steps[0].Dispatch? && steps[0].e == e then [] else [steps[0]]) + Undispatched(steps[1..], e)
  }

  /** Once an event is locked its dispatches make no difference, whatever calls its callbacks would have made. */
  lemma {:induction false} LockedIsSilent<E>(p: Poller<E>, steps: seq<Step<E>>, e: E)
    requires AllKnown(p, steps) && e in p.events && p.events[e].locked
    ensures AllKnown(p, Undispatched(steps, e)) && PerformAll(p, Undispatched(steps, e)) == PerformAll(p, steps)
    decreases |steps|
  {
    if steps != [] {
      var s, q, rest := steps[0], Perform(p, steps[0]), Undispatched(steps[1..], e);
      PerformKeeps(p, s);
      assert s.Dispatch? && s.e == e ==> q == p;
      hide Perform;
      LockedIsSilent(q, steps[1..], e);
      if s.Dispatch? && s.e == e {
        assert [] + rest == rest;
      } else {
        var now := [s] + rest;
        assert now[1..] == rest;
        assert forall i | 1 <= i < |now| :: now[i] == rest[i - 1];
      }
    }
  }

  /** The first dispatch of a one-shot event makes the calls of its callbacks, then locks the event and empties its mask. */
  lemma OneShotLocks<E>(p: Poller<E>, e: E, inside: seq<Call<E>>)
    requires Known(p, Dispatch(e, inside)) && !p.events[e].locked
    ensures var q := HandleEvent(p, e, inside);
            && e in q.events && (p.events[e].oneShot ==> q.events[e].locked && q.events[e].events == NONE)
            && (!p.events[e].oneShot ==> q == ApplyAll(p, inside))
  {
    ApplyAllKeeps(p, inside);
    ApplyShape(Lock(ApplyAll(p, inside), e), DisableAll(e));
    hide ApplyAll, Apply;
  }
}
