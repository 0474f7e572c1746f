/** Barriers as kernel/locking/barrier.c writes them, on top of the kernel. */
module BarrierObjects {
  import opened Scheduler
  import opened Placement
  import opened Runs
  import K = Kernel
  import B = Barriers

  /** kernel/locking/barrier.c */
  class BarrierObject {
    const k: K.Kernel
    const q: nat
    const bound: int
    var curVal: int
    ghost var history: B.Barrier

    constructor (k: K.Kernel, q: nat, goal: int)
      requires k.Valid() && FIRST_OTHER_QUEUE <= q < k.queues.Length
      ensures this.k == k && this.q == q && bound == goal && Valid()
      ensures history == B.Barrier(k.Model(), 0, 0, 0, 0)
    {
      this.k, this.q, bound, curVal := k, q, goal, 0;
      history := B.Barrier(k.Model(), 0, 0, 0, 0);
    }

    ghost predicate Valid()
      reads this, k, k.pcb, k.queues, k.counter, k.upper
    {
      k.Valid() && FIRST_OTHER_QUEUE <= q < k.queues.Length && history.sys == k.Model() && history.cur == curVal
    }

    /** do_barrier_wait: one arrival of module Barriers */
    method Wait(now: nat, net: bool)
      requires Valid() && Inv(k.Model()) && k.current != 0
      modifies this`curVal, this`history, k.pcb, k.queues, k.upper, k.counter, k
      ensures Valid() && history == B.Arrive(old(history), q, bound, now, net)
    {
      curVal := curVal + 1;
      if curVal < bound {
        WaitForOthers(now, net);
      } else {
        LetThrough(now, net);
      }
    }

    /** The branch of an arrival before the last one of a round */
    method WaitForOthers(now: nat, net: bool)
      requires k.Valid() && FIRST_OTHER_QUEUE <= q < k.queues.Length && history.sys == k.Model() && history.cur + 1 == curVal < bound
      requires Inv(k.Model()) && k.current != 0
      modifies this`history, k.pcb, k.queues, k.upper, k.counter, k
      ensures Valid() && history == B.Arrive(old(history), q, bound, now, net)
    {
      ghost var h := history;
      k.BlockSelf(q, now, net);
      history := B.Arrive(h, q, bound, now, net);
    }

    /** The branch of the last arrival */
    method LetThrough(ghost now: nat, ghost net: bool)
      requires k.Valid() && FIRST_OTHER_QUEUE <= q < k.queues.Length && history.sys == k.Model() && history.cur + 1 == curVal >= bound
      modifies this`curVal, this`history, k.pcb, k.queues, k.upper, k`contents
      ensures Valid() && history == B.Arrive(old(history), q, bound, now, net)
    {
      ghost var h := history;
      curVal := 0;
      k.DoUnblockAll(q);
      history := B.Arrive(h, q, bound, now, net);
    }
  }
}
