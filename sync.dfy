/** The Go runtime objects the lister and the workers share: the atomic
    counters, the WaitGroup the workers signal on exit, and the string channel
    that carries keys from the lister to the workers. In this sequential model
    each is a plain object whose methods are the operations the source calls. */
module Sync {

  /** atomic.Int64 as used for TotalFiles and FinishedFiles. */
  class Counter {
    var value: int

    constructor (v: int)
      ensures value == v
    {
      value := v;
    }

    /** Add: increments and returns the new value. */
    method Add(delta: int) returns (n: int)
      modifies this
      ensures value == old(value) + delta && n == value
    {
      value := value + delta;
      n := value;
    }

    /** Load: reads the current value. */
    function Load(): (v: int)
      reads this
      ensures v == value
    {
      value
    }
  }

  /** sync.WaitGroup, reduced to the counter that Done decrements. */
  class WaitGroup {
    var count: int

    constructor (n: int)
      ensures count == n
    {
      count := n;
    }

    /** Done: Go panics when the counter would become negative. */
    method Done()
      requires count > 0
      modifies this
      ensures count == old(count) - 1
    {
      count := count - 1;
    }
  }

  /** A `chan string`: everything ever sent, in order; how many of those a
      receiver has taken; and whether the channel is closed. Capacity and
      blocking are not modelled: a send never blocks, and a receive is only
      made when it would not block. For the proofs, each send also records
      the value a counter of the sender's choosing held at that moment. */
  class KeyChannel {
    var sent: seq<string>
    var received: nat
    var closed: bool
    ghost var countsAtSend: seq<int>

    ghost predicate Valid()
      reads this
    {
      received <= |sent| && |countsAtSend| == |sent|
    }

    constructor ()
      ensures Valid() && sent == [] && received == 0 && !closed && countsAtSend == []
    {
      sent, received, closed := [], 0, false;
      countsAtSend := [];
    }

    /** `ch <- key`, with `countNow` the sender's counter at this moment:
        sending on a closed channel panics in Go. */
    method Send(key: string, ghost countNow: int)
      requires Valid() && !closed
      modifies this
      ensures Valid()
      ensures sent == old(sent) + [key] && received == old(received) && !closed
      ensures countsAtSend == old(countsAtSend) + [countNow]
    {
      sent := sent + [key];
      countsAtSend := countsAtSend + [countNow];
    }

    /** close(ch): closing a closed channel panics in Go. */
    method Close()
      requires !closed
      modifies this
      ensures closed && sent == old(sent) && received == old(received)
      ensures countsAtSend == old(countsAtSend)
    {
      closed := true;
    }

    /** `key, ok := <-ch`: the oldest unreceived key, or ok == false once the
        channel is closed and drained. */
    method Receive() returns (key: string, ok: bool)
      requires Valid() && (closed || received < |sent|)
      modifies this
      ensures Valid() && sent == old(sent) && closed == old(closed)
      ensures countsAtSend == old(countsAtSend)
      ensures ok == (old(received) < |sent|)
      ensures ok ==> key == sent[old(received)] && received == old(received) + 1
      ensures !ok ==> received == old(received)
    {
      if received < |sent| {
        key, ok := sent[received], true;
        received := received + 1;
      } else {
        key, ok := "", false;
      }
    }
  }
}
