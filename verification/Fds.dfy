/**
 `Fd` and its shared `Detail` as objects. A `Process` stands for the program's memory: the handles that are alive, the
 details that are allocated, and the closes made. Every member function is proved against `FdModel`.
 */
module Fds {
  import opened Prelude
  import opened FdModel

  class Detail {
    var fd: int
    var refCount: int
    var closeFunc: bool

    constructor (fd: int, closeFunc: bool)
      ensures this.fd == fd && refCount == 1 && this.closeFunc == closeFunc
    {
      this.fd, refCount, this.closeFunc := fd, 1, closeFunc;
    }

    function Value(): FdModel.Detail
      reads this
    {
      FdModel.Detail(fd, refCount, closeFunc)
    }
  }

  class Fd {
    var detail: Detail?

    constructor ()
      ensures detail == null
    {
      detail := null;
    }

    ghost function Target(): Option<Detail>
      reads this
    {
      if detail == null then None else Some(detail)
    }
  }

  class Process {
    var closings: seq<Closing<Detail>>
    ghost var live: set<Fd>
    ghost var details: set<Detail>
    ghost var created: map<Detail, int>

    constructor ()
      ensures View() == World(map[], map[], map[], [])
    {
      closings, live, details, created := [], {}, {}, map[];
      new;
      assert View() == World(map[], map[], map[], []);
    }

    ghost function View(): World<Fd, Detail>
      reads this, live, details
    {
      World(map h | h in live :: h.Target(), map d | d in details :: d.Value(), created, closings)
    }

    /** Objects that are alive are not new, and every detail that ever was is remembered. */
    ghost predicate Valid()
      reads this, live, details
    {
      Safe(View()) && details <= created.Keys
    }

    lemma TargetAllocated(h: Fd)
      requires Valid() && h in live
      ensures h.detail != null ==> h.detail in details && View().handles[h] == Some(h.detail)
      ensures h.detail == null ==> View().handles[h] == None
    {
      assert View().handles[h] == h.Target();
      if h.detail != null { assert h.detail in View().details; }
    }

    // ----- assignments to the fields

    method PointAt(h: Fd, target: Detail?)
      requires h in live
      modifies h
      ensures h.detail == target && View() == Point(old(View()), h, h.Target())
    {
      ghost var was := View();
      h.detail := target;
      assert View().handles == was.handles[h := h.Target()];
      assert View().details == was.details;
    }

    method AddRef(d: Detail, delta: int)
      requires d in details
      modifies d
      ensures d.refCount == old(d.refCount) + delta && d.fd == old(d.fd) && d.closeFunc == old(d.closeFunc)
      ensures View() == Count(old(View()), d, delta)
    {
      ghost var was := View();
      d.refCount := d.refCount + delta;
      assert View().details == was.details[d := d.Value()];
      assert View().handles == was.handles;
    }

    /** `delete detail_` */
    ghost method Delete(d: Detail)
      modifies this`details
      ensures details == old(details) - {d}
      ensures View() == old(View()).(details := old(View()).details - {d})
    {
      ghost var was := View();
      details := details - {d};
      assert View().details == was.details - {d};
    }

    /** The call of the close function or of `::close`. */
    method Record(c: Closing<Detail>)
      modifies this`closings
      ensures View() == old(View()).(closings := old(View()).closings + [c])
    {
      ghost var was := View();
      closings := closings + [c];
      assert View().handles == was.handles && View().details == was.details;
    }

    ghost method Enter(h: Fd)
      modifies this`live
      ensures live == old(live) + {h}
      ensures View() == Point(old(View()), h, h.Target())
    {
      ghost var was := View();
      live := live + {h};
      assert View().handles == was.handles[h := h.Target()];
      assert View().details == was.details;
    }

    ghost method Allocate(d: Detail)
      modifies this`details, this`created
      ensures details == old(details) + {d} && created == old(created)[d := d.fd]
      ensures View() == old(View()).(details := old(View()).details[d := d.Value()], created := created)
    {
      ghost var was := View();
      details, created := details + {d}, created[d := d.fd];
      assert View().handles == was.handles;
      assert View().details == was.details[d := d.Value()];
    }

    // ----- constructors

    method Construct() returns (h: Fd)
      requires Valid()
      modifies this`live
      ensures fresh(h) && live == old(live) + {h} && h.detail == null
      ensures View() == Apply(old(View()), FdModel.Construct(h))
    {
      h := new Fd();
      Enter(h);
    }

    /** `Fd(int)` and `Fd(int, const CloseFunc&)`. */
    method ConstructFd(fd: int, closeFunc: bool) returns (h: Fd)
      requires Valid()
      modifies this`live, this`details, this`created
      ensures fresh(h) && live == old(live) + {h} && h.detail != null && fresh(h.detail)
      ensures View() == Apply(old(View()), FdModel.ConstructFd(h, h.detail, fd, closeFunc))
    {
      ghost var was := View();
      h := new Fd();
      h.detail := new Detail(fd, closeFunc);
      hide Safe;
      Allocate(h.detail);
      ghost var grown := View();
      assert grown == was.(details := was.details[h.detail := FdModel.Detail(fd, 1, closeFunc)],
                               created := was.created[h.detail := fd]);
      Enter(h);
      assert View() == Point(grown, h, Some(h.detail));
    }

    method CopyConstruct(other: Fd) returns (h: Fd)
      requires Valid() && other in live
      modifies this`live, details
      ensures fresh(h) && live == old(live) + {h}
      ensures View() == Apply(old(View()), FdModel.CopyConstruct(h, other))
    {
      TargetAllocated(other);
      h := Construct();
      if other.detail != null {
        AddRef(other.detail, 1);
        PointAt(h, other.detail);
      }
    }

    /** `Fd(Fd&&)`: a null handle that swaps with the other. */
    method MoveConstruct(other: Fd) returns (h: Fd)
      requires Valid() && other in live
      modifies this`live, other
      ensures fresh(h) && live == old(live) + {h}
      ensures View() == Apply(old(View()), FdModel.MoveConstruct(h, other))
    {
      ghost var was := View();
      hide Safe;
      h := Construct();
      Swap(h, other);
      assert View().handles == was.handles[h := was.handles[other]][other := None];
    }

    // ----- assignments, swap, reset, close

    method CopyAssign(h: Fd, other: Fd)
      requires Valid() && h in live && other in live
      modifies h, details
      ensures View() == Apply(old(View()), FdModel.CopyAssign(h, other))
    {
      TargetAllocated(other);
      if h != other {
        if other.detail != null {
          AddRef(other.detail, 1);
          PointAt(h, other.detail);
        }
      }
    }

    method Swap(h: Fd, other: Fd)
      requires h in live && other in live
      modifies h, other
      ensures View() == Point(Point(old(View()), h, old(other.Target())), other, old(h.Target()))
      ensures h.detail == old(other.detail) && other.detail == old(h.detail)
    {
      var target := h.detail;
      PointAt(h, other.detail);
      PointAt(other, target);
    }

    /** What `~Fd()` does with the detail of the handle. */
    method Release(d: Detail)
      requires d in details
      modifies this`closings, this`details, d
      ensures details <= old(details)
      ensures View() == FdModel.Release(old(View()), d)
    {
      if d.refCount > 0 {
        AddRef(d, -1);
      }
      if d.refCount == 0 {
        if d.fd >= 0 {
          Record(Closing(d, d.fd, false, d.closeFunc));
        }
        Delete(d);
      }
    }

    /** `~Fd()` */
    method Destroy(h: Fd)
      requires Valid() && h in live
      modifies this`live, this`closings, this`details, details
      ensures live == old(live) - {h} && details <= old(details)
      ensures View() == Apply(old(View()), FdModel.Destroy(h))
    {
      TargetAllocated(h);
      if h.detail != null {
        Release(h.detail);
      }
      Leave(h);
    }

    ghost method Leave(h: Fd)
      modifies this`live
      ensures live == old(live) - {h}
      ensures View() == old(View()).(handles := old(View()).handles - {h})
    {
      ghost var was := View();
      live := live - {h};
      assert View().handles == was.handles - {h};
      assert View().details == was.details;
    }

    /** `reset()`: swap with a temporary null handle, which then goes out of scope. */
    method Reset(h: Fd)
      requires Valid() && h in live
      modifies this`live, this`closings, this`details, h, details
      ensures live == old(live) && details <= old(details) && h.detail == null
      ensures View() == Apply(old(View()), FdModel.Reset(h))
    {
      ghost var was := View();
      var tmp := Construct();
      ResetBySwap(was, h, tmp);
      hide Safe, FdModel.Apply;
      Swap(h, tmp);
      hide *;
      Destroy(tmp);
    }

    method MoveAssign(h: Fd, other: Fd)
      requires Valid() && h in live && other in live
      modifies this`live, this`closings, this`details, h, other, details
      ensures View() == Apply(old(View()), FdModel.MoveAssign(h, other))
    {
      if h != other {
        MoveByReset(View(), h, other);
        Reset(h);
        hide *;
        Swap(h, other);
      }
    }

    /** The detail gives up its descriptor and its close function. */
    method MarkClosed(d: Detail)
      requires d in details
      modifies d
      ensures d.fd == -1 && !d.closeFunc && d.refCount == old(d.refCount)
      ensures View() == old(View()).(details := old(View()).details[d := old(d.Value()).(fd := -1, closeFunc := false)])
    {
      ghost var was := View();
      if d.closeFunc {
        d.closeFunc := false;
      }
      d.fd := -1;
      assert View().details == was.details[d := d.Value()];
      assert View().handles == was.handles;
    }

    /** `close()`: at once, whatever other handles there are. */
    method Close(h: Fd)
      requires Valid() && h in live
      modifies this`closings, details
      ensures View() == Apply(old(View()), FdModel.Close(h))
    {
      TargetAllocated(h);
      var d := h.detail;
      if d != null && d.fd >= 0 {
        Record(Closing(d, d.fd, true, d.closeFunc));
        MarkClosed(d);
      }
    }
  }

  /** Swapping with a new null handle and destroying that handle is what `reset` is meant to do. */
  lemma ResetBySwap<H, D>(w: World<H, D>, h: H, tmp: H)
    requires Safe(w) && h in w.handles && tmp !in w.handles
    ensures var c := Apply(w, FdModel.Construct(tmp));
            var q := Point(Point(c, h, None), tmp, w.handles[h]);
            && c.handles[tmp] == None && c.handles[h] == w.handles[h]
            && Safe(q) && Apply(q, FdModel.Destroy(tmp)) == Apply(w, FdModel.Reset(h))
  {
    var c := Apply(w, FdModel.Construct(tmp));
    var q := Apply(c, FdModel.Swap(h, tmp));
    StepSafe(w, FdModel.Construct(tmp));
    StepSafe(c, FdModel.Swap(h, tmp));
    DestroySwapped(w, q, h, tmp);
  }

  lemma DestroySwapped<H, D>(w: World<H, D>, q: World<H, D>, h: H, tmp: H)
    requires Safe(w) && Safe(q) && h in w.handles && tmp !in w.handles
    requires q == w.(handles := w.handles[tmp := None][h := None][tmp := w.handles[h]])
    ensures Apply(q, FdModel.Destroy(tmp)) == Apply(w, FdModel.Reset(h))
  {
    assert q.handles - {tmp} == w.handles[h := None];
    ReleaseSwapped(w, q, h, tmp);
    hide Safe, ReleaseTarget, NoneDangling;
  }

  /** Giving up a detail does not depend on the handles. */
  lemma ReleaseSwapped<H, D>(w: World<H, D>, q: World<H, D>, h: H, tmp: H)
    requires NoneDangling(w) && h in w.handles && q == w.(handles := q.handles) && tmp in q.handles
    requires q.handles[tmp] == w.handles[h]
    ensures w.handles[h].Some? ==> w.handles[h].value in w.details
    ensures ReleaseTarget(q, q.handles[tmp]) == ReleaseTarget(w, w.handles[h]).(handles := q.handles)
  {}

  /** Resetting the target and swapping is what move assignment is meant to do. */
  lemma MoveByReset<H, D>(w: World<H, D>, h: H, other: H)
    requires Safe(w) && h in w.handles && other in w.handles && h != other
    ensures var r := Apply(w, FdModel.Reset(h));
            && r.handles[h] == None && r.handles[other] == w.handles[other]
            && Point(Point(r, h, r.handles[other]), other, None) == Apply(w, FdModel.MoveAssign(h, other))
  {
    var r := Apply(w, FdModel.Reset(h));
    assert r.handles[h := r.handles[other]] == w.handles[h := w.handles[other]];
  }
}
