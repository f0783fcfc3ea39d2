/**
 The reference-counted descriptor handles as values: which handle points at which shared detail, the details that are
 allocated, and every close the operating system was asked for. `H` identifies a handle, `D` a detail.
 */
module FdModel {

  import opened Prelude

  datatype Detail = Detail(fd: int, refCount: int, closeFunc: bool)

  /** A close, asked for by `Fd::close` or made when the count reached zero, through a custom function or `::close`. */
  datatype Closing<D> = Closing(detail: D, fd: int, asked: bool, custom: bool)

  /** `created` remembers the descriptor every detail was created with. */
  datatype World<H, D> = World(handles: map<H, Option<D>>, details: map<D, Detail>, created: map<D, int>,
                               closings: seq<Closing<D>>)

  datatype Op<H, D> =
    | Construct(h: H)
    | ConstructFd(h: H, d: D, fd: int, closeFunc: bool)
    | CopyConstruct(h: H, other: H)
    | MoveConstruct(h: H, other: H)
    | CopyAssign(h: H, other: H)
    | MoveAssign(h: H, other: H)
    | Swap(h: H, other: H)
    | Reset(h: H)
    | Close(h: H)
    | Destroy(h: H)

  /** The object the operation runs on exists, or is new when it is a constructor; a new detail has its own identity. */
  predicate Possible<H, D(==)>(w: World<H, D>, op: Op<H, D>) {
    match op
    case Construct(h) => h !in w.handles
    case ConstructFd(h, d, _, _) => h !in w.handles && d !in w.created
    case CopyConstruct(h, other) => h !in w.handles && other in w.handles
    case MoveConstruct(h, other) => h !in w.handles && other in w.handles
    case CopyAssign(h, other) => h in w.handles && other in w.handles
    case MoveAssign(h, other) => h in w.handles && other in w.handles
    case Swap(h, other) => h in w.handles && other in w.handles
    case Reset(h) => h in w.handles
    case Close(h) => h in w.handles
    case Destroy(h) => h in w.handles
  }

  /** Every handle is null or points at an allocated detail. */
  ghost predicate NoneDangling<H, D>(w: World<H, D>) {
    forall h | h in w.handles :: w.handles[h].Some? ==> w.handles[h].value in w.details
  }

  function Point<H, D(==)>(w: World<H, D>, h: H, to: Option<D>): World<H, D> {
    w.(handles := w.handles[h := to])
  }

  function Count<H, D(==)>(w: World<H, D>, d: D, delta: int): World<H, D>
    requires d in w.details
  {
    w.(details := w.details[d := w.details[d].(refCount := w.details[d].refCount + delta)])
  }

  /** What the destructor does with the detail it points at. */
  function Release<H, D(==)>(w: World<H, D>, d: D): World<H, D>
    requires d in w.details
  {
    var down := if w.details[d].refCount > 0 then Count(w, d, -1) else w;
    if down.details[d].refCount == 0 then
      down.(details := down.details - {d},
            closings := if w.details[d].fd < 0 then w.closings
                       else w.closings + [Closing(d, w.details[d].fd, false, w.details[d].closeFunc)])
    else down
  }

  function ReleaseTarget<H, D(==)>(w: World<H, D>, target: Option<D>): World<H, D>
    requires target.Some? ==> target.value in w.details
  {
    if target.Some? then Release(w, target.value) else w
  }

  function CopyTo<H, D(==)>(w: World<H, D>, h: H, target: Option<D>): World<H, D>
    requires target.Some? ==> target.value in w.details
  {
    if target.Some? then Point(Count(w, target.value, 1), h, target) else w
  }

  function Apply<H, D(==)>(w: World<H, D>, op: Op<H, D>): World<H, D>
    requires Possible(w, op) && NoneDangling(w)
  {
    match op
    case Construct(h) => Point(w, h, None)
    case ConstructFd(h, d, fd, closeFunc) =>
      Point(w.(details := w.details[d := Detail(fd, 1, closeFunc)], created := w.created[d := fd]), h, Some(d))
    case CopyConstruct(h, other) => CopyTo(Point(w, h, None), h, w.handles[other])
    case MoveConstruct(h, other) => Point(Point(w, h, w.handles[other]), other, None)
    case CopyAssign(h, other) => if h != other then CopyTo(w, h, w.handles[other]) else w
    case MoveAssign(h, other) =>
      if h != other then Point(Point(ReleaseTarget(w, w.handles[h]), h, w.handles[other]), other, None) else w
    case Swap(h, other) => Point(Point(w, h, w.handles[other]), other, w.handles[h])
    case Reset(h) => Point(ReleaseTarget(w, w.handles[h]), h, None)
    case Close(h) =>
      if w.handles[h].None? || w.details[w.handles[h].value].fd < 0 then w
      else
        var d := w.handles[h].value;
        w.(details := w.details[d := w.details[d].(fd := -1, closeFunc := false)],
           closings := w.closings + [Closing(d, w.details[d].fd, true, w.details[d].closeFunc)])
    case Destroy(h) => var r := ReleaseTarget(w, w.handles[h]); r.(handles := r.handles - {h})
  }

  // ----- counting

  /** The live handles on a detail. */
  function Holders<H, D(==)>(w: World<H, D>, d: D): set<H> {
    set h | h in w.handles && w.handles[h] == Some(d)
  }

  /** By how much a count exceeds the live handles. */
  function Surplus<H, D(==)>(w: World<H, D>, d: D): int
    requires d in w.details
  {
    w.details[d].refCount - |Holders(w, d)|
  }

  /** No handle dangles, and the counts are positive and never below the live handles. */
  ghost predicate Safe<H, D>(w: World<H, D>) {
    && NoneDangling(w)
    && forall d | d in w.details :: d in w.created && w.details[d].refCount > 0 && Surplus(w, d) >= 0
  }

  /** The counts are the live handles. */
  ghost predicate Exact<H, D>(w: World<H, D>) {
    Safe(w) && forall d | d in w.details :: Surplus(w, d) == 0
  }

  /** Copy-assigning over a handle that points somewhere does not give up what it pointed at. */
  predicate Leaks<H, D(==)>(w: World<H, D>, op: Op<H, D>)
    requires Possible(w, op)
  {
    op.CopyAssign? && op.h != op.other && w.handles[op.other].Some? && w.handles[op.h].Some?
  }

  function Held<H, D(==)>(w: World<H, D>, h: H, d: D): int {
    if h in w.handles && w.handles[h] == Some(d) then 1 else 0
  }

  lemma PointHolders<H, D>(w: World<H, D>, h: H, to: Option<D>, d: D)
    ensures |Holders(Point(w, h, to), d)| == |Holders(w, d)| - Held(w, h, d) + (if to == Some(d) then 1 else 0)
  {
    var was, now := Holders(w, d), Holders(Point(w, h, to), d);
    var rest := was - {h};
    assert was == if h in was then rest + {h} else rest;
    assert now == if to == Some(d) then rest + {h} else rest;
  }

  lemma DropHolders<H, D>(w: World<H, D>, h: H, d: D)
    ensures |Holders(w.(handles := w.handles - {h}), d)| == |Holders(w, d)| - Held(w, h, d)
  {
    var was, now := Holders(w, d), Holders(w.(handles := w.handles - {h}), d);
    assert now == was - {h};
  }

  /** How an operation changes the number of live handles on a detail. */
  function HoldersChange<H, D(==)>(w: World<H, D>, op: Op<H, D>, d: D): int
    requires Possible(w, op)
  {
    match op
    case Construct(h) => 0
    case ConstructFd(h, d', _, _) => if d == d' then 1 else 0
    case CopyConstruct(h, other) => Held(w, other, d)
    case MoveConstruct(h, other) => 0
    case CopyAssign(h, other) => if h != other && w.handles[other].Some? then Held(w, other, d) - Held(w, h, d) else 0
    case MoveAssign(h, other) => if h != other then -Held(w, h, d) else 0
    case Swap(h, other) => 0
    case Reset(h) => -Held(w, h, d)
    case Close(h) => 0
    case Destroy(h) => -Held(w, h, d)
  }

  lemma ApplyHolders<H, D>(w: World<H, D>, op: Op<H, D>, d: D)
    requires Possible(w, op) && NoneDangling(w)
    ensures |Holders(Apply(w, op), d)| == |Holders(w, d)| + HoldersChange(w, op, d)
  {
    var q := Apply(w, op);
    match op
    case Construct(h) => PointHolders(w, h, None, d);
    case ConstructFd(h, d', _, _) => PointHolders(w, h, Some(d'), d);
    case CopyConstruct(h, other) =>
      PointHolders(w, h, None, d);
      PointHolders(Point(w, h, None), h, w.handles[other], d);
    case MoveConstruct(h, other) =>
      PointHolders(w, h, w.handles[other], d);
      PointHolders(Point(w, h, w.handles[other]), other, None, d);
    case CopyAssign(h, other) => PointHolders(w, h, w.handles[other], d);
    case MoveAssign(h, other) =>
      PointHolders(w, h, w.handles[other], d);
      PointHolders(Point(w, h, w.handles[other]), other, None, d);
    case Swap(h, other) =>
      PointHolders(w, h, w.handles[other], d);
      PointHolders(Point(w, h, w.handles[other]), other, w.handles[h], d);
    case Reset(h) => PointHolders(w, h, None, d);
    case Close(h) =>
    case Destroy(h) => DropHolders(w, h, d);
  }

  /** The operations that give up what their handle points at. */
  predicate GivesUp<H(==), D>(op: Op<H, D>) {
    op.Reset? || op.Destroy? || (op.MoveAssign? && op.h != op.other)
  }

  /** How an operation changes the count of a detail. */
  function CountChange<H, D(==)>(w: World<H, D>, op: Op<H, D>, d: D): int
    requires Possible(w, op)
  {
    if op.CopyConstruct? || (op.CopyAssign? && op.h != op.other) then Held(w, op.other, d)
    else if GivesUp(op) then -Held(w, op.h, d)
    else 0
  }

  /** What giving up a detail does, when its count is positive. */
  lemma ReleaseIs<H, D>(w: World<H, D>, d: D)
    requires d in w.details && w.details[d].refCount > 0
    ensures var q, v := Release(w, d), w.details[d];
            && q.handles == w.handles && q.created == w.created
            && q.details == (if v.refCount == 1 then w.details - {d} else w.details[d := v.(refCount := v.refCount - 1)])
            && q.closings == (if v.refCount == 1 && v.fd >= 0 then w.closings + [Closing(d, v.fd, false, v.closeFunc)]
                              else w.closings)
  {
    assert w.details[d := w.details[d].(refCount := 0)] - {d} == w.details - {d};
  }

  lemma ReleasedTarget<H, D>(w: World<H, D>, op: Op<H, D>)
    requires Safe(w) && Possible(w, op)
    ensures GivesUp(op) && w.handles[op.h].Some? ==>
              w.handles[op.h].value in w.details && w.details[w.handles[op.h].value].refCount > 0
  {}

  /** A detail goes away exactly when its count would reach zero; counts of the others move as stated. */
  lemma ApplyCounts<H, D>(w: World<H, D>, op: Op<H, D>, d: D)
    requires Safe(w) && Possible(w, op) && d in w.details
    ensures var q := Apply(w, op);
            && (d in q.details <==> w.details[d].refCount + CountChange(w, op, d) > 0)
            && (d in q.details ==> q.details[d].refCount == w.details[d].refCount + CountChange(w, op, d))
  {
    assert w.details[d].refCount > 0;
    ReleasedTarget(w, op);
    if GivesUp(op) && w.handles[op.h].Some? { ReleaseIs(w, w.handles[op.h].value); }
    hide Release, Holders, Surplus;
  }

  lemma ApplyKeys<H, D>(w: World<H, D>, op: Op<H, D>)
    requires Possible(w, op) && NoneDangling(w)
    ensures var q := Apply(w, op);
            && (forall d | d in q.details :: d in w.details || (op.ConstructFd? && d == op.d))
            && (op.ConstructFd? ==> op.d in q.details && q.details[op.d].refCount == 1)
            && (forall h | h in q.handles && q.handles[h].Some? ::
                  || (op.ConstructFd? && h == op.h && q.handles[h].value == op.d)
                   || exists g :: g in w.handles && w.handles[g] == q.handles[h])
            && (forall d | d in w.created :: d in q.created && q.created[d] == w.created[d])
            && (forall d | d in q.created :: d in w.created || (op.ConstructFd? && d == op.d))
            && (op.ConstructFd? ==> op.d in q.created && q.created[op.d] == op.fd)
  {
    hide Holders, Surplus;
  }

  /** In a safe state one more handle on a detail means a count above it. */
  lemma HolderCounts<H, D>(w: World<H, D>, h: H, d: D)
    requires h in Holders(w, d)
    ensures |Holders(w, d)| >= 1
  {
    assert Holders(w, d) == (Holders(w, d) - {h}) + {h};
  }

  /** How one operation changes the surplus of a detail: only a leaking copy assignment raises it, by one. */
  lemma SurplusStep<H, D>(w: World<H, D>, op: Op<H, D>, d: D)
    requires Safe(w) && Possible(w, op) && d in Apply(w, op).details
    ensures Surplus(Apply(w, op), d) ==
            if d in w.details then Surplus(w, d) + (if Leaks(w, op) && w.handles[op.h] == Some(d) then 1 else 0) else 0
  {
    ApplyHolders(w, op, d);
    ApplyKeys(w, op);
    if d in w.details {
      ApplyCounts(w, op, d);
    } else {
      assert Holders(w, d) == {};
    }
  }

  /** Every operation keeps the counts safe, copy assignment over a handle in use included. */
  lemma StepSafe<H, D>(w: World<H, D>, op: Op<H, D>)
    requires Safe(w) && Possible(w, op)
    ensures Safe(Apply(w, op))
  {
    var q := Apply(w, op);
    ApplyKeys(w, op);
    forall d | d in q.details ensures d in q.created && q.details[d].refCount > 0 && Surplus(q, d) >= 0 {
      SurplusStep(w, op, d);
      if d in w.details { ApplyCounts(w, op, d); }
    }
    forall h | h in q.handles && q.handles[h].Some? ensures q.handles[h].value in q.details {
      var d := q.handles[h].value;
      if d in w.details {
        ApplyCounts(w, op, d);
        ApplyHolders(w, op, d);
        HolderCounts(q, h, d);
      }
    }
  }

  /** It keeps them exact exactly when it is not a copy assignment over a handle in use. */
  lemma StepExact<H, D>(w: World<H, D>, op: Op<H, D>)
    requires Exact(w) && Possible(w, op)
    ensures Exact(Apply(w, op)) <==> !Leaks(w, op)
  {
    StepSafe(w, op);
    var q := Apply(w, op);
    forall d | d in q.details
      ensures Surplus(q, d) == if d in w.details && Leaks(w, op) && w.handles[op.h] == Some(d) then 1 else 0
    {
      SurplusStep(w, op, d);
    }
    if Leaks(w, op) {
      ApplyCounts(w, op, w.handles[op.h].value);
    }
  }

  // ----- who points where

  /** A move hands the target over: the new handle holds it in place of the other, which holds nothing. */
  lemma MoveConstructs<H, D>(w: World<H, D>, h: H, other: H, d: D)
    requires Safe(w) && Possible(w, MoveConstruct(h, other))
    ensures var q := Apply(w, MoveConstruct(h, other));
            && Holders(q, d) == (if other in Holders(w, d) then Holders(w, d) - {other} + {h} else Holders(w, d))
            && q.details == w.details && q.closings == w.closings
  {}

  /** So does a move assignment, after giving up what the handle held. */
  lemma MoveAssigns<H, D>(w: World<H, D>, h: H, other: H, d: D)
    requires Safe(w) && Possible(w, MoveAssign(h, other)) && h != other
    ensures Holders(Apply(w, MoveAssign(h, other)), d)
            == (if other in Holders(w, d) then Holders(w, d) - {other} + {h} else Holders(w, d) - {h})
  {}

  /** Copies add a holder, a swap exchanges two. */
  lemma CopiesAndSwaps<H, D>(w: World<H, D>, h: H, other: H, d: D)
    requires Safe(w)
    ensures Possible(w, CopyConstruct(h, other)) ==>
              Holders(Apply(w, CopyConstruct(h, other)), d)
              == Holders(w, d) + if other in Holders(w, d) then {h} else {}
    ensures Possible(w, Swap(h, other)) ==>
              var q := Apply(w, Swap(h, other));
              && (h in Holders(q, d) <==> other in Holders(w, d)) && (other in Holders(q, d) <==> h in Holders(w, d))
              && Holders(q, d) - {h, other} == Holders(w, d) - {h, other}
  {}

  // ----- custom close functions

  /** Open details of `custom`, and no other ones, have a close function, and every close of one went through it. */
  ghost predicate FuncsKept<H, D>(w: World<H, D>, custom: set<D>) {
    OpenFuncs(w, custom) && ClosedFuncs(w, custom) && forall d | d in custom :: d in w.created
  }

  ghost predicate OpenFuncs<H, D>(w: World<H, D>, custom: set<D>) {
    forall d | d in w.details && w.details[d].fd >= 0 :: w.details[d].closeFunc <==> d in custom
  }

  ghost predicate ClosedFuncs<H, D>(w: World<H, D>, custom: set<D>) {
    forall i | 0 <= i < |w.closings| ::
      w.closings[i].detail in w.created && (w.closings[i].custom <==> w.closings[i].detail in custom)
  }

  function Given<H, D(==)>(op: Op<H, D>): set<D> {
    if op.ConstructFd? && op.closeFunc then {op.d} else {}
  }

  /** The details a run creates with a close function of their own. */
  function AllGiven<H, D(==)>(ops: seq<Op<H, D>>): set<D> {
    if ops == [] then {} else Given(ops[0]) + AllGiven(ops[1..])
  }

  lemma StepFuncs<H, D>(w: World<H, D>, op: Op<H, D>, custom: set<D>)
    requires Safe(w) && Possible(w, op) && FuncsKept(w, custom)
    ensures FuncsKept(Apply(w, op), custom + Given(op))
  {
    ApplyKeys(w, op);
    StepOpenFuncs(w, op, custom);
    StepClosedFuncs(w, op, custom);
    hide Apply, Safe, OpenFuncs, ClosedFuncs;
  }

  lemma StepOpenFuncs<H, D>(w: World<H, D>, op: Op<H, D>, custom: set<D>)
    requires Safe(w) && Possible(w, op) && OpenFuncs(w, custom) && forall d | d in custom :: d in w.created
    ensures OpenFuncs(Apply(w, op), custom + Given(op))
  {
    ApplyKeys(w, op);
    ApplyFuncs(w, op);
    hide Apply, Safe, Closes;
  }

  lemma StepClosedFuncs<H, D>(w: World<H, D>, op: Op<H, D>, custom: set<D>)
    requires Safe(w) && Possible(w, op) && OpenFuncs(w, custom) && ClosedFuncs(w, custom)
    ensures ClosedFuncs(Apply(w, op), custom + Given(op))
  {
    ApplyKeys(w, op);
    ApplyFuncs(w, op);
    ClosingsGrow(w, op);
    assert forall d | d in w.created :: d !in Given(op);
    assert Closes(w, op) != [] ==> Closes(w, op)[0].detail in w.created;
    hide Apply, Safe, Closes, Possible, Given;
    var q, n := Apply(w, op), |w.closings|;
    forall i | 0 <= i < |q.closings|
      ensures q.closings[i].detail in q.created
              && (q.closings[i].custom <==> q.closings[i].detail in custom + Given(op))
    {
      if i < n {
        assert q.closings[i] == w.closings[i];
      } else {
        assert q.closings[i] == Closes(w, op)[0];
      }
    }
  }

  /** An open detail keeps its close function, and a new one has what it was given. */
  lemma ApplyFuncs<H, D>(w: World<H, D>, op: Op<H, D>)
    requires Safe(w) && Possible(w, op)
    ensures var q := Apply(w, op);
            && (forall d | d in w.details && d in q.details && q.details[d].fd >= 0 ::
                  w.details[d].fd >= 0 && q.details[d].closeFunc == w.details[d].closeFunc)
            && (op.ConstructFd? ==> q.details[op.d].closeFunc == op.closeFunc)
            && (forall d | d in w.details :: d in w.created)
            && (Closes(w, op) != [] ==>
                  var c := Closes(w, op)[0];
                  c.detail in w.details && w.details[c.detail].fd >= 0 && c.custom == w.details[c.detail].closeFunc)
  {
    ReleasedTarget(w, op);
    if GivesUp(op) && w.handles[op.h].Some? { ReleaseIs(w, w.handles[op.h].value); }
    hide Release, Holders, Surplus;
  }

  /** `close` asks for one close if the descriptor is open, and none again; the close function is given up with it. */
  lemma CloseOnce<H, D>(w: World<H, D>, h: H)
    requires Safe(w) && h in w.handles && w.handles[h].Some?
    ensures var q, v := Apply(w, Close(h)), w.details[w.handles[h].value];
            && w.handles[h].value in q.details && q.details[w.handles[h].value].fd < 0
            && (v.fd >= 0 ==> !q.details[w.handles[h].value].closeFunc)
            && |q.closings| == |w.closings| + (if v.fd >= 0 then 1 else 0)
            && q.handles == w.handles && NoneDangling(q) && Apply(q, Close(h)) == q
  {}

  // ----- closing

  ghost predicate WasClosed<H, D>(w: World<H, D>, d: D) {
    exists i :: 0 <= i < |w.closings| && w.closings[i].detail == d
  }

  /**
   The closes are those of details that were created with a descriptor and no longer have it, each once and with that
   descriptor; a close nobody asked for belongs to a detail that is gone.
   */
  ghost predicate Closings<H, D>(w: World<H, D>) {
    ClosedOnce(w) && ClosedRightly(w) && AllClosed(w) && FdsKept(w)
  }

  ghost predicate ClosedOnce<H, D>(w: World<H, D>) {
    forall i, j | 0 <= i < j < |w.closings| :: w.closings[i].detail != w.closings[j].detail
  }

  ghost predicate ClosedRightly<H, D>(w: World<H, D>) {
    forall i | 0 <= i < |w.closings| :: RightlyClosed(w, w.closings[i])
  }

  predicate RightlyClosed<H, D(==)>(w: World<H, D>, c: Closing<D>) {
    && c.detail in w.created && c.fd == w.created[c.detail] >= 0
    && (c.detail in w.details ==> c.asked && w.details[c.detail].fd < 0)
  }

  ghost predicate AllClosed<H, D>(w: World<H, D>) {
    forall d | d in w.created && w.created[d] >= 0 && (d in w.details ==> w.details[d].fd < 0) :: WasClosed(w, d)
  }

  /** A detail has the descriptor it was created with, or none. */
  ghost predicate FdsKept<H, D>(w: World<H, D>) {
    forall d | d in w.details :: d in w.created && (w.details[d].fd == w.created[d] || w.details[d].fd < 0)
  }

  /** The close an operation asks the operating system for. */
  function Closes<H, D(==)>(w: World<H, D>, op: Op<H, D>): seq<Closing<D>>
    requires Possible(w, op)
  {
    if (GivesUp(op) || op.Close?) && w.handles[op.h].Some? && w.handles[op.h].value in w.details then
      var d := w.handles[op.h].value;
      var v := w.details[d];
      if v.fd >= 0 && (op.Close? || v.refCount == 1) then [Closing(d, v.fd, op.Close?, v.closeFunc)] else []
    else []
  }

  lemma ApplyCloses<H, D>(w: World<H, D>, op: Op<H, D>)
    requires Safe(w) && Possible(w, op)
    ensures var q, closes := Apply(w, op), Closes(w, op);
            && q.closings == w.closings + closes
            && (forall d | d in w.details && d in q.details ::
                  q.details[d].fd == if closes != [] && closes[0].detail == d then -1 else w.details[d].fd)
            && (forall d | d in w.details && d !in q.details ::
                  if w.details[d].fd >= 0 then closes != [] && closes[0].detail == d else closes == [])
            && (closes != [] && !op.Close? ==> closes[0].detail !in q.details)
            && (op.ConstructFd? ==> q.details[op.d].fd == op.fd)
  {
    ReleasedTarget(w, op);
    if GivesUp(op) && w.handles[op.h].Some? { ReleaseIs(w, w.handles[op.h].value); }
    hide Release, Holders, Surplus;
  }

  lemma StepFdsKept<H, D>(w: World<H, D>, op: Op<H, D>)
    requires Safe(w) && FdsKept(w) && Possible(w, op)
    ensures FdsKept(Apply(w, op))
  {
    ApplyCloses(w, op);
    ApplyKeys(w, op);
    hide Apply, Safe, Closes;
  }

  /** What an operation closes was not closed before. */
  lemma NotClosedBefore<H, D>(w: World<H, D>, op: Op<H, D>)
    requires Safe(w) && ClosedRightly(w) && FdsKept(w) && Possible(w, op) && Closes(w, op) != []
    ensures var c := Closes(w, op)[0]; c.detail in w.created && c.fd == w.created[c.detail] >= 0 && !WasClosed(w, c.detail)
  {}

  lemma StepClosedOnce<H, D>(w: World<H, D>, op: Op<H, D>)
    requires Safe(w) && ClosedOnce(w) && ClosedRightly(w) && FdsKept(w) && Possible(w, op)
    ensures ClosedOnce(Apply(w, op))
  {
    ApplyCloses(w, op);
    if Closes(w, op) != [] { NotClosedBefore(w, op); }
    hide Apply, Safe, ClosedRightly, FdsKept;
    assert |Closes(w, op)| <= 1;
    hide Closes;
  }

  /** What was rightly closed stays so: its detail does not come back, nor gets a descriptor again. */
  lemma StaysRightlyClosed<H, D>(w: World<H, D>, op: Op<H, D>, c: Closing<D>)
    requires Safe(w) && Possible(w, op) && RightlyClosed(w, c)
    ensures RightlyClosed(Apply(w, op), c)
  {
    ApplyCloses(w, op);
    ApplyKeys(w, op);
    hide Apply, Closes;
  }

  lemma NewlyRightlyClosed<H, D>(w: World<H, D>, op: Op<H, D>)
    requires Safe(w) && ClosedRightly(w) && FdsKept(w) && Possible(w, op) && Closes(w, op) != []
    ensures RightlyClosed(Apply(w, op), Closes(w, op)[0])
  {
    ApplyCloses(w, op);
    ApplyKeys(w, op);
    NotClosedBefore(w, op);
    assert Closes(w, op)[0].asked == op.Close? && Closes(w, op)[0].detail in w.details;
    hide Apply, Safe, Closes, FdsKept, ClosedRightly;
  }

  /** The closes so far, and at most one more. */
  lemma ClosingsGrow<H, D>(w: World<H, D>, op: Op<H, D>)
    requires Safe(w) && Possible(w, op)
    ensures Apply(w, op).closings == w.closings + Closes(w, op) && |Closes(w, op)| <= 1
    ensures forall i | 0 <= i < |w.closings| :: Apply(w, op).closings[i] == w.closings[i]
  {
    ApplyCloses(w, op);
    hide Apply;
  }

  lemma StepClosedRightly<H, D>(w: World<H, D>, op: Op<H, D>)
    requires Safe(w) && ClosedRightly(w) && FdsKept(w) && Possible(w, op)
    ensures ClosedRightly(Apply(w, op))
  {
    ClosingsGrow(w, op);
    if Closes(w, op) != [] { NewlyRightlyClosed(w, op); }
    var q, n := Apply(w, op), |w.closings|;
    assert forall i | 0 <= i < n :: RightlyClosed(w, w.closings[i]);
    hide Apply, Safe, Closes, FdsKept, RightlyClosed;
    forall i | 0 <= i < |q.closings| ensures RightlyClosed(q, q.closings[i]) {
      if i < n { StaysRightlyClosed(w, op, w.closings[i]); }
    }
  }

  lemma StaysClosed<H, D>(w: World<H, D>, op: Op<H, D>, d: D)
    requires Safe(w) && Possible(w, op) && WasClosed(w, d)
    ensures WasClosed(Apply(w, op), d)
  {
    ClosingsGrow(w, op);
    var i :| 0 <= i < |w.closings| && w.closings[i].detail == d;
    assert Apply(w, op).closings[i].detail == d;
  }

  /** A detail that loses its descriptor, or goes with it, has it closed. */
  lemma NewlyClosed<H, D>(w: World<H, D>, op: Op<H, D>, d: D)
    requires Safe(w) && Possible(w, op) && d in w.details && w.details[d].fd >= 0
    requires d in Apply(w, op).details ==> Apply(w, op).details[d].fd < 0
    ensures WasClosed(Apply(w, op), d)
  {
    ClosingsGrow(w, op);
    ApplyCloses(w, op);
    hide Apply, Safe, Closes;
    assert Apply(w, op).closings[|w.closings|].detail == d;
  }

  /** No other detail can be without its descriptor unless it was before. */
  lemma ClosedAlready<H, D>(w: World<H, D>, op: Op<H, D>, d: D)
    requires Safe(w) && Possible(w, op) && d in Apply(w, op).created && Apply(w, op).created[d] >= 0
    requires d in Apply(w, op).details ==> Apply(w, op).details[d].fd < 0
    requires d in w.details ==> w.details[d].fd < 0
    ensures d in w.created && w.created[d] >= 0
  {
    ApplyKeys(w, op);
    ApplyCloses(w, op);
    hide Apply, Safe, Closes, WasClosed, Possible;
  }

  lemma StepAllClosed<H, D>(w: World<H, D>, op: Op<H, D>)
    requires Safe(w) && AllClosed(w) && Possible(w, op)
    ensures AllClosed(Apply(w, op))
  {
    var q := Apply(w, op);
    hide Apply, Safe, WasClosed, Possible;
    forall d | d in q.created && q.created[d] >= 0 && (d in q.details ==> q.details[d].fd < 0) ensures WasClosed(q, d) {
      if d in w.details && w.details[d].fd >= 0 {
        NewlyClosed(w, op, d);
      } else {
        ClosedAlready(w, op, d);
        StaysClosed(w, op, d);
      }
    }
  }

  lemma StepClosings<H, D>(w: World<H, D>, op: Op<H, D>)
    requires Safe(w) && Closings(w) && Possible(w, op)
    ensures Closings(Apply(w, op))
  {
    hide Safe, Apply, ClosedOnce, ClosedRightly, AllClosed, FdsKept;
    StepFdsKept(w, op);
    StepClosedOnce(w, op);
    StepClosedRightly(w, op);
    StepAllClosed(w, op);
  }

  /** A close nobody asked for happens only as the last live handle on its detail goes. */
  lemma ImplicitCloseIsLast<H, D>(w: World<H, D>, op: Op<H, D>)
    requires Safe(w) && Possible(w, op) && !op.Close? && Apply(w, op).closings != w.closings
    ensures var d := Apply(w, op).closings[|w.closings|].detail;
            Holders(w, d) == {op.h} && Holders(Apply(w, op), d) == {}
  {
    ApplyCloses(w, op);
    StepSafe(w, op);
    var d := Closes(w, op)[0].detail;
    HolderCounts(w, op.h, d);
    assert Holders(w, d) == (Holders(w, d) - {op.h}) + {op.h};
    assert |Holders(w, d) - {op.h}| == 0;
    assert forall h | h in Apply(w, op).handles :: h !in Holders(Apply(w, op), d);
  }

  // ----- whole runs

  ghost predicate AllPossible<H, D>(w: World<H, D>, ops: seq<Op<H, D>>)
    requires Safe(w)
    decreases |ops|
  {
    ops == [] || (Possible(w, ops[0]) && (StepSafe(w, ops[0]); AllPossible(Apply(w, ops[0]), ops[1..])))
  }

  ghost function Run<H, D>(w: World<H, D>, ops: seq<Op<H, D>>): World<H, D>
    requires Safe(w) && AllPossible(w, ops)
    decreases |ops|
  {
    if ops == [] then w
    else
      StepSafe(w, ops[0]);
      Run(Apply(w, ops[0]), ops[1..])
  }

  ghost predicate NoLeaks<H, D>(w: World<H, D>, ops: seq<Op<H, D>>)
    requires Safe(w) && AllPossible(w, ops)
    decreases |ops|
  {
    ops == [] || (!Leaks(w, ops[0]) && (StepSafe(w, ops[0]); NoLeaks(Apply(w, ops[0]), ops[1..])))
  }

  /** Over any sequence of operations: counts never too low, no handle dangles, every descriptor is closed at most once. */
  lemma {:induction false} RunSafe<H, D>(w: World<H, D>, ops: seq<Op<H, D>>)
    requires Safe(w) && Closings(w) && AllPossible(w, ops)
    ensures Safe(Run(w, ops)) && Closings(Run(w, ops))
    decreases |ops|
  {
    if ops != [] {
      StepSafe(w, ops[0]);
      StepClosings(w, ops[0]);
      RunSafe(Apply(w, ops[0]), ops[1..]);
    }
  }

  /** And as long as no copy assignment overwrites a handle in use, the counts are the live handles throughout. */
  lemma {:induction false} RunExact<H, D>(w: World<H, D>, ops: seq<Op<H, D>>)
    requires Exact(w) && AllPossible(w, ops) && NoLeaks(w, ops)
    ensures Exact(Run(w, ops))
    decreases |ops|
  {
    if ops != [] {
      StepSafe(w, ops[0]);
      StepExact(w, ops[0]);
      RunExact(Apply(w, ops[0]), ops[1..]);
    }
  }

  /** A descriptor is closed through its own close function exactly when it was given one at creation. */
  lemma {:induction false} RunCustom<H, D>(w: World<H, D>, ops: seq<Op<H, D>>, custom: set<D>)
    requires Safe(w) && FuncsKept(w, custom) && AllPossible(w, ops)
    ensures FuncsKept(Run(w, ops), custom + AllGiven(ops))
    decreases |ops|
  {
    if ops == [] {
      assert custom + AllGiven(ops) == custom;
    } else {
      StepSafe(w, ops[0]);
      StepFuncs(w, ops[0], custom);
      RunCustom(Apply(w, ops[0]), ops[1..], custom + Given(ops[0]));
      assert custom + Given(ops[0]) + AllGiven(ops[1..]) == custom + AllGiven(ops);
    }
  }

  lemma ClosedThroughOwn<H, D>(w: World<H, D>, ops: seq<Op<H, D>>)
    requires w.handles == map[] && w.details == map[] && w.closings == [] && AllPossible(w, ops)
    ensures forall i | 0 <= i < |Run(w, ops).closings| ::
              Run(w, ops).closings[i].custom <==> Run(w, ops).closings[i].detail in AllGiven(ops)
  {
    RunCustom(w, ops, {});
    assert {} + AllGiven(ops) == AllGiven(ops);
  }

  /** Then, once the last handle is gone, nothing is allocated and every descriptor has been closed. */
  lemma AllReleased<H, D>(w: World<H, D>)
    requires Exact(w) && Closings(w) && w.handles == map[]
    ensures w.details == map[] && forall d | d in w.created && w.created[d] >= 0 :: WasClosed(w, d)
  {
    assert forall d | d in w.details :: |Holders(w, d)| == 0;
  }

  /** The two handles of a leak, concretely: one points at detail 0, the other at detail 1. */
  function TwoHandles(): World<bool, int> {
    World(map[false := Some(0), true := Some(1)], map[0 := Detail(3, 1, false), 1 := Detail(4, 1, false)],
          map[0 := 3, 1 := 4], [])
  }

  /** Assigning the second to the first leaves detail 0 allocated and its descriptor open, with no handle on it. */
  lemma CopyAssignmentLeaks()
    ensures Exact(TwoHandles()) && Closings(TwoHandles())
    ensures var w := Apply(TwoHandles(), CopyAssign(false, true));
            0 in w.details && w.details[0] == Detail(3, 1, false) && Holders(w, 0) == {} && !Exact(w)
  {
    TwoHandlesExact();
    hide Closings;
    StepExact(TwoHandles(), CopyAssign(false, true));
  }

  lemma TwoHandlesExact()
    ensures Exact(TwoHandles()) && Closings(TwoHandles())
  {
    var w := TwoHandles();
    assert Holders(w, 0) == {false} && Holders(w, 1) == {true};
  }
}
