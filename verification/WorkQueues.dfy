/**
 The rate-limited work queue. An item added while it is being processed is only marked dirty and goes back
 to waiting when it is done; an item that waits already is not added twice; a closed queue takes nothing in
 but still hands out what waits. The delay of a rate-limited addition is a separate, unordered stage.
 */
module WorkQueues {
  import opened Common

  datatype Queue<T> = Queue(delayed: set<T>, waiting: seq<T>, dirty: set<T>, processing: set<T>, closed: bool)

  /** What every operation keeps: the waiting items are the dirty ones nobody is processing, each once. */
  ghost predicate WellFormed<T>(q: Queue<T>) {
    && NoDuplicates(q.waiting)
    && (set x | x in q.waiting) == q.dirty - q.processing
  }

  function Empty<T>(): Queue<T> {
    Queue({}, [], {}, {}, false)
  }

  function Add<T>(q: Queue<T>, x: T): Queue<T> {
    if q.closed || x in q.dirty then q
    else if x in q.processing then q.(dirty := q.dirty + {x})
    else q.(dirty := q.dirty + {x}, waiting := q.waiting + [x])
  }

  function AddRateLimited<T>(q: Queue<T>, x: T): Queue<T> {
    if q.closed then q else q.(delayed := q.delayed + {x})
  }

  /** The delay of `x` is over. */
  function Fire<T>(q: Queue<T>, x: T): Queue<T>
    requires x in q.delayed
  {
    Add(q.(delayed := q.delayed - {x}), x)
  }

  function Take<T>(q: Queue<T>): Queue<T>
    requires q.waiting != []
  {
    var x := q.waiting[0];
    q.(waiting := q.waiting[1..], dirty := q.dirty - {x}, processing := q.processing + {x})
  }

  function Done<T>(q: Queue<T>, x: T): Queue<T> {
    var released := q.(processing := q.processing - {x});
    if x in q.dirty then released.(waiting := q.waiting + [x]) else released
  }

  function ShutDown<T>(q: Queue<T>): Queue<T> {
    q.(closed := true)
  }

  lemma AddKeepsWellFormed<T>(q: Queue<T>, x: T)
    requires WellFormed(q)
    ensures WellFormed(Add(q, x))
  {
    if !q.closed && x !in q.dirty && x !in q.processing {
      ListingGrows(q.waiting, q.dirty - q.processing, x);
    }
  }

  lemma FireKeepsWellFormed<T>(q: Queue<T>, x: T)
    requires WellFormed(q) && x in q.delayed
    ensures WellFormed(Fire(q, x))
  {
    AddKeepsWellFormed(q.(delayed := q.delayed - {x}), x);
  }

  /** The item taken waited, was held by nobody, and is no longer dirty. */
  lemma TakeKeepsWellFormed<T>(q: Queue<T>)
    requires WellFormed(q) && q.waiting != []
    ensures WellFormed(Take(q))
    ensures q.waiting[0] in q.dirty && q.waiting[0] !in q.processing
  {
    var x := q.waiting[0];
    assert x in q.waiting;
    assert x in q.dirty - q.processing;
    assert forall i :: 0 <= i < |q.waiting| - 1 ==> q.waiting[1..][i] == q.waiting[i + 1];
    forall y
      ensures y in q.waiting[1..] <==> y in q.waiting && y != x
    {
      assert y in q.waiting <==> y == x || y in q.waiting[1..];
    }
    assert (set y | y in q.waiting[1..]) == (set y | y in q.waiting) - {x};
  }

  /** Releasing a held item that was added meanwhile puts it back to waiting. */
  lemma DoneKeepsWellFormed<T>(q: Queue<T>, x: T)
    requires WellFormed(q) && x in q.processing
    ensures WellFormed(Done(q, x))
    ensures x in q.dirty <==> x in Done(q, x).waiting
  {
    assert x !in q.waiting by {
      assert x in q.waiting <==> x in (set y | y in q.waiting);
    }
    if x in q.dirty {
      ListingGrows(q.waiting, q.dirty - q.processing, x);
      assert Done(q, x).waiting[|q.waiting|] == x;
    }
  }

  /** The queue object the controller owns. */
  class WorkQueue<T(==)> {
    var delayed: set<T>
    var waiting: seq<T>
    var dirty: set<T>
    var processing: set<T>
    var closed: bool

    ghost function Model(): (q: Queue<T>)
      reads this
      ensures q.delayed == delayed && q.waiting == waiting && q.dirty == dirty
      ensures q.processing == processing && q.closed == closed
    {
      Queue(delayed, waiting, dirty, processing, closed)
    }

    constructor ()
      ensures Model() == Empty()
    {
      delayed, waiting, dirty, processing, closed := {}, [], {}, {}, false;
    }

    method AddLater(x: T)
      modifies this
      ensures Model() == AddRateLimited(old(Model()), x)
      ensures delayed == if old(closed) then old(delayed) else old(delayed) + {x}
    {
      if !closed {
        delayed := delayed + {x};
      }
    }

    /** Blocks while the queue is open and empty, which the precondition stands for. */
    method Get() returns (x: Option<T>)
      requires waiting != [] || closed
      modifies this
      ensures old(waiting) == [] ==> x == None && Model() == old(Model())
      ensures old(waiting) != [] ==> x == Some(old(waiting)[0]) && Model() == Take(old(Model()))
    {
      if waiting == [] {
        return None;
      }
      x := Some(waiting[0]);
      processing := processing + {waiting[0]};
      dirty := dirty - {waiting[0]};
      waiting := waiting[1..];
    }

    method Release(x: T)
      modifies this
      ensures Model() == Done(old(Model()), x)
      ensures waiting == if x in old(dirty) then old(waiting) + [x] else old(waiting)
    {
      processing := processing - {x};
      if x in dirty {
        waiting := waiting + [x];
      }
    }

    method Close()
      modifies this
      ensures Model() == ShutDown(old(Model()))
    {
      closed := true;
    }
  }
}
