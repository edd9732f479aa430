/** One subscriber's queue and wake-up token (internal/eventlog/subscriber.go). Each method is one
section the source runs under the subscriber's lock, or one non-blocking send on its channel. */
module Subscriber {
  import opened Events

  /** The fields the lock guards. */
  datatype Queue = Queue(items: seq<Event>, lagged: bool, lastSeq: nat)

  datatype Batch = Batch(events: seq<Event>, lastSeq: nat, lagged: bool)

  const EMPTY: Queue := Queue([], false, 0)

  /** offer: a full queue is dropped, and the drop is remembered. */
  function Offered(q: Queue, cap: nat, ev: Event): (r: Queue)
    ensures r.items != [] && r.items[|r.items| - 1] == ev
    ensures cap > 0 && |q.items| <= cap ==> |r.items| <= cap
  {
    if |q.items| >= cap then Queue([ev], true, ev.seqNo) else Queue(q.items + [ev], q.lagged, ev.seqNo)
  }

  function Taken(q: Queue): Batch {
    Batch(if q.lagged then [] else q.items, q.lastSeq, q.lagged)
  }

  class Inbox {
    var queue: seq<Event>
    var lagged: bool
    var lastSeq: nat
    const cap: nat
    /** The notify channel, which has room for one token. */
    var token: bool

    constructor (cap: nat)
      ensures Value() == EMPTY && !token && this.cap == cap
    {
      this.cap := cap;
      queue, lagged, lastSeq, token := [], false, 0, false;
    }

    function Value(): Queue
      reads this
    {
      Queue(queue, lagged, lastSeq)
    }

    method Offer(ev: Event)
      modifies this`queue, this`lagged, this`lastSeq
      ensures Value() == Offered(old(Value()), cap, ev)
    {
      if |queue| >= cap {
        queue := [];
        lagged := true;
      }
      queue := queue + [ev];
      lastSeq := ev.seqNo;
    }

    /** The send on notify: it succeeds or finds a token already there. */
    method Notify()
      modifies this`token
      ensures token
    {
      if !token {
        token := true;
      }
    }

    method Drain() returns (b: Batch)
      modifies this`queue, this`lagged
      ensures b == Taken(old(Value())) && Value() == Queue([], false, old(lastSeq))
    {
      b := Batch(queue, lastSeq, lagged);
      queue, lagged := [], false;
      if b.lagged {
        b := b.(events := []);
      }
    }
  }
}
