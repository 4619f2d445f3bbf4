/** The queue that the threads share. Each method runs under the mutex of the queue, so it is one
    step of the whole; waiting for an element is not modelled, only the answer without waiting. */
module BlockingQueues {

  datatype Option<T> = None | Some(value: T)

  /** What `std::list::remove` leaves: every equal element goes. */
  function Without<T(==)>(q: seq<T>, e: T): (r: seq<T>)
    ensures |r| <= |q| && e !in r
  {
    if q == [] then []
    else
      var rest := Without(q[..|q| - 1], e);
      if q[|q| - 1] == e then rest else rest + [q[|q| - 1]]
  }

  /** Nothing else is lost, and nothing appears. */
  lemma {:induction false} WithoutKeeps<T>(q: seq<T>, e: T)
    ensures multiset(Without(q, e)) == multiset(q)[e := 0]
  {
    if q != [] {
      WithoutKeeps(q[..|q| - 1], e);
      assert q == q[..|q| - 1] + [q[|q| - 1]];
    }
  }

  class BlockingQueue<T(==)> {
    var queue: seq<T>

    constructor ()
      ensures queue == []
    {
      queue := [];
    }

    method Add(e: T)
      modifies this
      ensures queue == old(queue) + [e]
    {
      queue := queue + [e];
    }

    method Get() returns (r: Option<T>)
      modifies this
      ensures r.None? <==> old(queue) == []
      ensures r.None? ==> queue == []
      ensures r.Some? ==> old(queue) == [r.value] + queue
    {
      if queue == [] {
        return None;
      }
      var value := queue[0];
      queue := queue[1..];
      return Some(value);
    }

    method Remove(e: T)
      modifies this
      ensures queue == Without(old(queue), e)
    {
      var kept, i := [], 0;
      while i < |queue|
        invariant 0 <= i <= |queue| && kept == Without(queue[..i], e)
      {
        assert queue[..i + 1][..i] == queue[..i];
        if queue[i] != e {
          kept := kept + [queue[i]];
        }
        i := i + 1;
      }
      assert queue[..i] == queue;
      queue := kept;
    }

    method Clear()
      modifies this
      ensures queue == []
    {
      queue := [];
    }
  }
}
