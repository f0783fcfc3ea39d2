/**
 `Poller` and `EpollFdEvent` as objects that update each other's fields. Every method is proved to change the state
 of the poller and its events as the corresponding function of `PollerModel` says. `Loop::updateEvent` and
 `Loop::removeEvent` only pass the call on, so an event calls its poller directly.
 */
module Events {
  import opened PollerModel

  class EpollFdEvent {
    const poller: Poller
    var fd: int
    var index: Index
    var events: Mask
    var revents: Mask
    var isStopAfterTrigger: bool
    var lockEvent: bool

    constructor (poller: Poller)
      ensures this.poller == poller
      ensures index == New && events == NONE && revents == NONE && !isStopAfterTrigger && !lockEvent
    {
      this.poller := poller;
      index, events, revents, isStopAfterTrigger, lockEvent := New, NONE, NONE, false, false;
    }

    /** `kOneshot` sets the flag; `kPersist` does not clear it. */
    method Init(fd: int, oneshot: bool)
      modifies this`fd, this`isStopAfterTrigger
      ensures this.fd == fd && isStopAfterTrigger == (old(isStopAfterTrigger) || oneshot)
    {
      this.fd := fd;
      if oneshot {
        isStopAfterTrigger := true;
      }
    }

    ghost function Value(): Event
      reads this
    {
      Event(fd, index, events, revents, isStopAfterTrigger, lockEvent)
    }

    ghost predicate Registered()
      reads this, poller
    {
      this in poller.registry
    }

    method Update()
      requires Registered() && UpdateAsserts(poller.View(), this)
      modifies this`index, poller`fdEventMaps, poller`kernel, poller`refused
      ensures poller.View() == UpdateEvent(old(poller.View()), this)
    {
      poller.UpdateEvent(this);
    }

    method EnableReading()
      requires Registered() && Asserts(poller.View(), PollerModel.EnableReading(this))
      modifies this`index, this`events, poller`fdEventMaps, poller`kernel, poller`refused
      ensures poller.View() == Apply(old(poller.View()), PollerModel.EnableReading(this))
    {
      SetMask(events + READ);
      Update();
    }

    method EnableWriting()
      requires Registered() && Asserts(poller.View(), PollerModel.EnableWriting(this))
      modifies this`index, this`events, poller`fdEventMaps, poller`kernel, poller`refused
      ensures poller.View() == Apply(old(poller.View()), PollerModel.EnableWriting(this))
    {
      SetMask(events + WRITE);
      Update();
    }

    method DisableReading()
      requires Registered() && Asserts(poller.View(), PollerModel.DisableReading(this))
      modifies this`index, this`events, poller`fdEventMaps, poller`kernel, poller`refused
      ensures poller.View() == Apply(old(poller.View()), PollerModel.DisableReading(this))
    {
      SetMask(events - READ);
      Update();
    }

    method DisableWriting()
      requires Registered() && Asserts(poller.View(), PollerModel.DisableWriting(this))
      modifies this`index, this`events, poller`fdEventMaps, poller`kernel, poller`refused
      ensures poller.View() == Apply(old(poller.View()), PollerModel.DisableWriting(this))
    {
      SetMask(events - WRITE);
      Update();
    }

    method DisableAll()
      requires Registered() && Asserts(poller.View(), PollerModel.DisableAll(this))
      modifies this`index, this`events, poller`fdEventMaps, poller`kernel, poller`refused
      ensures poller.View() == Apply(old(poller.View()), PollerModel.DisableAll(this))
    {
      SetMask(NONE);
      Update();
    }

    method Remove()
      requires Registered() && Asserts(poller.View(), PollerModel.Remove(this))
      modifies this`index, poller`fdEventMaps, poller`kernel, poller`refused
      ensures poller.View() == Apply(old(poller.View()), PollerModel.Remove(this))
    {
      poller.RemoveEvent(this);
    }

    method SetMask(mask: Mask)
      requires Registered()
      modifies this`events
      ensures poller.View() == With(old(poller.View()), this, old(Value()).(events := mask))
    {
      ghost var was := poller.View();
      events := mask;
      assert poller.View() == With(was, this, Value());
    }

    method SetIndex(idx: Index)
      requires Registered()
      modifies this`index
      ensures poller.View() == With(old(poller.View()), this, old(Value()).(index := idx))
    {
      ghost var was := poller.View();
      index := idx;
      assert poller.View() == With(was, this, Value());
    }

    method SetRevents(mask: Mask)
      requires Registered()
      modifies this`revents
      ensures poller.View() == With(old(poller.View()), this, old(Value()).(revents := mask))
    {
      ghost var was := poller.View();
      revents := mask;
      assert poller.View() == With(was, this, Value());
    }

    method IsWriting() returns (r: bool)
      ensures r <==> Out in events
    {
      assert Out in events ==> Out in events * WRITE;
      r := events * WRITE != {};
    }

    /** The dispatch of an event; `inside` are the calls its callbacks make. */
    method HandleEvent(inside: seq<Call<EpollFdEvent>>) returns (fired: seq<Callback>)
      requires Registered() && poller.Valid()
      requires Known(poller.View(), Dispatch(this, inside)) && DispatchAsserts(poller.View(), this, inside)
      modifies poller`fdEventMaps, poller`kernel, poller`refused, poller.registry
      ensures poller.View() == PollerModel.HandleEvent(old(poller.View()), this, inside)
      ensures fired == if old(lockEvent) then [] else Callbacks(old(revents))
    {
      fired := [];
      if !lockEvent {
        fired := HandleLockEvent(inside);
      }
    }

    method SetLock()
      requires Registered()
      modifies this`lockEvent
      ensures poller.View() == Lock(old(poller.View()), this)
    {
      ghost var was := poller.View();
      lockEvent := true;
      assert poller.View() == With(was, this, Value());
    }

    /** The four tests of `handleLockEvent`, which pick the callbacks. */
    method Fire() returns (fired: seq<Callback>)
      ensures fired == Callbacks(revents)
    {
      fired := [];
      if Hup in revents && In !in revents {
        fired := fired + [CloseCallback];
      }
      if Err in revents {
        fired := fired + [ErrorCallback];
      }
      if In in revents || Pri in revents || RdHup in revents {
        fired := fired + [ReadCallback];
      }
      if Out in revents {
        fired := fired + [WriteCallback];
      }
    }

    method HandleLockEvent(inside: seq<Call<EpollFdEvent>>) returns (fired: seq<Callback>)
      requires Registered() && poller.Valid() && !lockEvent
      requires Known(poller.View(), Dispatch(this, inside)) && DispatchAsserts(poller.View(), this, inside)
      modifies poller`fdEventMaps, poller`kernel, poller`refused, poller.registry
      ensures poller.View() == PollerModel.HandleEvent(old(poller.View()), this, inside)
      ensures fired == Callbacks(old(revents))
    {
      hide Apply, ApplyAll, Asserts;
      ghost var was := poller.View();
      ApplyAllKeeps(was, inside);
      fired := Fire();
      poller.MakeCalls(inside);
      if isStopAfterTrigger {
        SetLock();
        DisableAll();
      }
    }
  }

  class Poller {
    var fdEventMaps: map<int, EpollFdEvent>
    var kernel: map<int, Interest<EpollFdEvent>>
    var refused: nat
    var capacity: nat
    ghost var registry: set<EpollFdEvent>

    constructor ()
      ensures View().events == map[] && Fresh(View()) && capacity == 256 && registry == {}
    {
      fdEventMaps, kernel, refused, capacity, registry := map[], map[], 0, 256, {};
      new;
      assert View().events == map[];
    }

    ghost function View(): PollerModel.Poller<EpollFdEvent>
      reads this, registry
    {
      PollerModel.Poller(map e | e in registry :: e.Value(), fdEventMaps, kernel, refused)
    }

    /** `update`: one `epoll_ctl`, whose error is only logged. */
    method Update(op: CtlOp, e: EpollFdEvent)
      requires e in registry
      modifies this`kernel, this`refused
      ensures View() == Ctl(old(View()), op, e)
    {
      var legal := if op == CtlAdd then e.fd !in kernel else e.fd in kernel;
      if !legal {
        refused := refused + 1;
      } else if op == CtlDel {
        kernel := kernel - {e.fd};
      } else {
        kernel := kernel[e.fd := Interest(e.events, e)];
      }
    }

    method UpdateEvent(e: EpollFdEvent)
      requires e in registry && e.poller == this && UpdateAsserts(View(), e)
      modifies this`fdEventMaps, this`kernel, this`refused, e`index
      ensures View() == PollerModel.UpdateEvent(old(View()), e)
    {
      hide Ctl, With;
      ghost var was := View();
      var index := e.index;
      if index == New || index == Deleted {
        if index == New {
          fdEventMaps := fdEventMaps[e.fd := e];
        }
        assert View() == was.(fdMap := fdEventMaps);
        e.SetIndex(Added);
        Update(CtlAdd, e);
      } else {
        if e.events == NONE {
          Update(CtlDel, e);
          e.SetIndex(Deleted);
        } else {
          Update(CtlMod, e);
        }
      }
    }

    method RemoveEvent(e: EpollFdEvent)
      requires e in registry && e.poller == this && RemoveAsserts(View(), e)
      modifies this`fdEventMaps, this`kernel, this`refused, e`index
      ensures View() == PollerModel.RemoveEvent(old(View()), e)
    {
      hide Ctl, With;
      ghost var was := View();
      var index := e.index;
      fdEventMaps := fdEventMaps - {e.fd};
      assert View() == was.(fdMap := fdEventMaps);
      if index == Added {
        Update(CtlDel, e);
      }
      e.SetIndex(New);
    }

    ghost predicate Valid()
      reads this, registry
    {
      forall e | e in registry :: e.poller == this
    }

    method MakeCall(call: Call<EpollFdEvent>)
      requires Valid() && call.e in registry && Asserts(View(), call)
      modifies this`fdEventMaps, this`kernel, this`refused, registry
      ensures View() == Apply(old(View()), call)
    {
      hide Apply, Asserts;
      match call
      case EnableReading(e) => e.EnableReading();
      case EnableWriting(e) => e.EnableWriting();
      case DisableReading(e) => e.DisableReading();
      case DisableWriting(e) => e.DisableWriting();
      case DisableAll(e) => e.DisableAll();
      case Remove(e) => e.Remove();
    }

    /** Calls made one after the other, each meeting the asserts. */
    method MakeCalls(calls: seq<Call<EpollFdEvent>>)
      requires Valid() && AllAsserts(View(), calls) && forall i | 0 <= i < |calls| :: calls[i].e in registry
      modifies this`fdEventMaps, this`kernel, this`refused, registry
      ensures View() == ApplyAll(old(View()), calls)
    {
      hide Apply, Asserts;
      for i := 0 to |calls|
        invariant forall k | 0 <= k < |calls| :: calls[k].e in View().events
        invariant AllAsserts(View(), calls[i..]) && ApplyAll(View(), calls[i..]) == ApplyAll(old(View()), calls)
      {
        assert calls[i..][1..] == calls[i + 1..];
        ApplyShape(View(), calls[i]);
        MakeCall(calls[i]);
      }
    }

    /** `fillActiveEvents`: stores the reported masks in the events and lists the events. */
    method FillActiveEvents(reported: seq<(EpollFdEvent, Mask)>) returns (active: seq<EpollFdEvent>)
      requires Valid() && forall i | 0 <= i < |reported| :: reported[i].0 in registry
      modifies registry
      ensures View() == ReportAll(old(View()), reported)
      ensures |active| == |reported| && forall i | 0 <= i < |reported| :: active[i] == reported[i].0
    {
      hide ReportAll;
      active := [];
      ReportNothing(View());
      assert reported[..0] == [];
      for i := 0 to |reported|
        invariant forall k | 0 <= k < |reported| :: reported[k].0 in old(View().events)
        invariant View() == ReportAll(old(View()), reported[..i])
        invariant |active| == i && forall k | 0 <= k < i :: active[k] == reported[k].0
      {
        ReportStep(old(View()), reported, i);
        reported[i].0.SetRevents(reported[i].1);
        active := active + [reported[i].0];
      }
      assert reported[..|reported|] == reported;
    }

    /** `poll`: epoll reports at most `capacity` events, and a full report doubles the room for the next. */
    method Poll(reported: seq<(EpollFdEvent, Mask)>) returns (active: seq<EpollFdEvent>)
      requires 0 < capacity && |reported| <= capacity
      requires Valid() && forall i | 0 <= i < |reported| :: reported[i].0 in registry
      modifies this`capacity, registry
      ensures View() == ReportAll(old(View()), reported)
      ensures |active| == |reported| && forall i | 0 <= i < |reported| :: active[i] == reported[i].0
      ensures capacity >= old(capacity) && |reported| < capacity
    {
      active := [];
      if |reported| > 0 {
        active := FillActiveEvents(reported);
        if |reported| == capacity {
          capacity := 2 * capacity;
        }
      }
    }
  }
}
