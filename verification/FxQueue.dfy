/** The fx queue of an element: functions run one after the other, each starting the next by calling
    what it was given.

    A queued function may call `next` before it returns or later, and may queue more; either way the
    rest of `dequeue` after it has nothing left to do, so calls made from inside a function are steps
    like any other. Each function calls `next` at most once, and nothing else dequeues or clears.
 */
module FxQueue {

  datatype Item = InProgress | Fn(id: nat)

  class Queue {
    var queue: seq<Item>
    ghost var enqueued: seq<nat>
    ghost var started: seq<nat>
    /** Whether the function started last has yet to call `next`. */
    ghost var unfinished: bool

    constructor ()
      ensures Valid() && enqueued == [] && started == []
    {
      queue, enqueued, started, unfinished := [], [], [], false;
    }

    /** The sentinel is at the head exactly while a function is unfinished, and nowhere else; behind
        it wait the functions not yet started, in order; and none waits while none runs. */
    ghost predicate Valid()
      reads this
    {
      && |started| <= |enqueued| && started == enqueued[..|started|]
      && queue == (if unfinished then [InProgress] else []) + Fns(enqueued[|started|..])
      && (!unfinished ==> |started| == |enqueued|)
    }

    method Dequeue()
      requires started <= enqueued
      requires queue == (if unfinished then [InProgress] else []) + Fns(enqueued[|started|..])
      modifies this
      ensures enqueued == old(enqueued) && Valid()
      ensures if |old(started)| < |enqueued| then unfinished && started == old(started) + [enqueued[|old(started)|]]
              else !unfinished && started == old(started)
    {
      ghost var waiting := enqueued[|started|..];
      if queue == [] {
        return;
      }
      var fn := queue[0];
      queue := queue[1..];
      if fn == InProgress {
        if queue == [] {
          unfinished := false;
          return;
        }
        fn := queue[0];
        queue := queue[1..];
      }
      assert fn == Fn(waiting[0]) && queue == Fns(waiting[1..]);
      queue := [InProgress] + queue;
      started, unfinished := started + [fn.id], true;
      assert enqueued[|started|..] == waiting[1..];
      assert enqueued[..|started|] == started;
    }

    /** Queues a function; if nothing is in progress it starts at once. */
    method Enqueue(id: nat)
      requires Valid()
      modifies this
      ensures Valid() && enqueued == old(enqueued) + [id]
      ensures started == if old(unfinished) then old(started) else old(started) + [id]
      ensures unfinished
    {
      FnsSnoc(enqueued[|started|..], id);
      assert (enqueued + [id])[|started|..] == enqueued[|started|..] + [id];
      queue := queue + [Fn(id)];
      enqueued := enqueued + [id];
      if queue[0] != InProgress {
        Dequeue();
      }
    }

    /** The function started last calls `next`. */
    method Next()
      requires Valid() && unfinished
      modifies this
      ensures Valid() && enqueued == old(enqueued)
      ensures if |old(started)| < |enqueued| then unfinished && started == old(started) + [enqueued[|old(started)|]]
              else !unfinished && started == old(started)
    {
      Dequeue();
    }
  }

  ghost function Fns(ids: seq<nat>): seq<Item> {
    seq(|ids|, i requires 0 <= i < |ids| => Fn(ids[i]))
  }

  lemma FnsSnoc(ids: seq<nat>, id: nat)
    ensures Fns(ids + [id]) == Fns(ids) + [Fn(id)]
  {
  }
}
