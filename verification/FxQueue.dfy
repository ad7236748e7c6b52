/** The fx queue of an element: queue, dequeue and the progress sentinel
    (src/main/webapp/javascript/jquery-1.10.2.js). */
module FxQueues {

  /** An entry of the stored array: the string "inprogress" or a queued function. */
  datatype Entry = InProgress | Run(fn: nat)

  function Runs(fns: seq<nat>): seq<Entry> { seq(|fns|, i requires 0 <= i < |fns| => Run(fns[i])) }

  class FxQueue {
    /** The array kept for the element; no array and an empty one are alike to the code below. */
    var queue: seq<Entry>
    /** Functions called so far, in order. */
    var calls: seq<nat>
    /** How often the empty hook fired. */
    var drained: nat
    /** Functions enqueued (the same one may be enqueued again), and how many of those called
        have called next. */
    ghost var enqueued: seq<nat>
    ghost var finished: nat

    /** Functions start in the order of enqueueing; at most the last started has not called next;
        the sentinel stands at the head exactly while it has not, and nowhere else; without it
        the queue is empty. */
    ghost predicate Valid()
      reads this
    {
      && calls <= enqueued && finished <= |calls| <= finished + 1
      && queue == (if |calls| > finished then [InProgress] else []) + Runs(enqueued[|calls|..])
      && (|calls| == finished ==> calls == enqueued)
    }

    constructor ()
      ensures Valid() && enqueued == [] && drained == 0
    {
      queue, calls, drained, enqueued, finished := [], [], 0, [], 0;
    }

    /** jQuery( elem ).queue( fn ): an idle queue is set going at once. */
    method Enqueue(fn: nat)
      requires Valid()
      modifies this
      ensures Valid()
      ensures enqueued == old(enqueued) + [fn] && finished == old(finished) && drained == old(drained)
      ensures calls == old(calls) + if old(|calls| == finished) then [fn] else []
    {
      queue := queue + [Run(fn)];
      enqueued := enqueued + [fn];
      assert enqueued[|calls|..] == old(enqueued)[|calls|..] + [fn];
      if queue[0] != InProgress {
        Dequeue();
      }
    }

    /** The function in progress calls next, from within its body or later. */
    method Next()
      requires Valid() && |calls| > finished
      modifies this
      ensures Valid() && enqueued == old(enqueued) && finished == old(finished) + 1
      ensures calls == old(calls) + if old(|calls|) < |enqueued| then [enqueued[old(|calls|)]] else []
      ensures drained == old(drained) + if old(|calls|) < |enqueued| then 0 else 1
    {
      finished := finished + 1;
      Dequeue();
    }

    /** jQuery.dequeue( elem, "fx" ), called when no function started earlier is still to call
        next.  The call of fn itself happens outside: its effects come as further calls. */
    method Dequeue()
      requires finished == |calls| && calls <= enqueued
      requires queue == [InProgress] + Runs(enqueued[|calls|..]) || queue == Runs(enqueued[|calls|..])
      modifies this
      ensures Valid() && enqueued == old(enqueued) && finished == old(finished)
      ensures calls == old(calls) + if old(|calls|) < |enqueued| then [enqueued[old(|calls|)]] else []
      ensures drained == old(drained) + if old(|calls|) < |enqueued| then 0 else 1
    {
      var startLength := |queue|;
      var fn: seq<Entry> := [];
      if |queue| > 0 { fn, queue := [queue[0]], queue[1..]; }
      if fn == [InProgress] {
        fn := [];
        if |queue| > 0 { fn, queue := [queue[0]], queue[1..]; }
        startLength := startLength - 1;
      }
      if fn != [] {
        queue := [InProgress] + queue;
        calls := calls + [fn[0].fn];
      }
      if startLength == 0 {
        queue := [];
        drained := drained + 1;
      }
    }
  }
}
