/** `SafeQueue`: every operation runs under the queue's own mutex, so each is one atomic step. */
module SafeQueue {

  import opened Prelude

  /** The front of a queue and the rest, if there is one. */
  function Front<T>(q: seq<T>): Option<(T, seq<T>)> {
    if q == [] then None else Some((q[0], q[1..]))
  }

  class SafeQueue<T> {
    var queue: seq<T>

    constructor ()
      ensures queue == []
    {
      queue := [];
    }

    method Empty() returns (r: bool)
      ensures r <==> queue == []
    {
      r := queue == [];
    }

    method Size() returns (n: nat)
      ensures n == |queue|
    {
      n := |queue|;
    }

    method Enqueue(t: T)
      modifies this
      ensures queue == old(queue) + [t]
    {
      queue := queue + [t];
    }

    /** `dequeue(T& t)`: the caller's variable keeps its value when the queue is empty. */
    method Dequeue(t: T) returns (ok: bool, t': T)
      modifies this
      ensures ok <==> old(queue) != []
      ensures ok ==> old(queue) == [t'] + queue
      ensures !ok ==> queue == old(queue) && t' == t
      ensures if ok then Front(old(queue)) == Some((t', queue)) else Front(old(queue)) == None
    {
      if queue == [] {
        return false, t;
      }
      t' := queue[0];
      queue := queue[1..];
      ok := true;
    }
  }
}
