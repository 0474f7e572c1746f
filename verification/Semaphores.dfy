/** Semaphores as kernel/locking/sem.c writes them, on top of the kernel.  Value and queue are proved to
    change as in the mailbox model. */
module Semaphores {
  import opened Scheduler
  import opened Placement
  import opened Runs
  import opened Sync
  import K = Kernel
  import M = Mailbox
  import S = Stranding

  /** kernel/locking/sem.c */
  class Semaphore {
    const k: K.Kernel
    const q: nat
    const init: int
    var value: int
    ghost var started: nat
    ghost var ups: nat

    constructor (k: K.Kernel, q: nat, val: int)
      ensures this.k == k && this.q == q && value == init == val && started == ups == 0
    {
      this.k, this.q, init, value := k, q, val, val;
      started, ups := 0, 0;
    }

    /** The value is what the tallies of started downs and ups say. */
    ghost predicate Valid()
      reads this, k, k.pcb, k.queues, k.counter, k.upper
    {
      k.Valid() && FIRST_OTHER_QUEUE <= q < k.queues.Length && value == init + ups - started
    }

    /** The semaphore as the mailbox model sees it. */
    ghost function Sem(): M.Sem
      requires q < |k.contents|
      reads this, k
    {
      M.Sem(value, k.contents[q])
    }

    /** do_semaphore_up: somebody is woken only if more downs were started than the initial value
        and all earlier ups cover; in a placed state the longest waiter leaves the queue. */
    method Up()
      requires Valid()
      modifies this`value, this`ups, k.pcb, k.queues, k.upper, k`contents
      ensures Valid() && ups == old(ups) + 1 && started == old(started)
      ensures k.Model() == if old(started) > init + old(ups) then UnblockOne(old(k.Model()), q) else old(k.Model())
      ensures old(KernelOk(k.Model())) ==> KernelOk(k.Model()) && Sem() == S.AfterUp(old(Sem()))
    {
      ghost var s := k.Model();
      value := value + 1;
      ups := ups + 1;
      if value <= 0 {
        k.DoUnblockOne(q);
        WakesFirst(s, q);
      }
    }

    /** The loop test of do_semaphore_down: block once more, or go on. */
    method Test(now: nat, net: bool) returns (passed: bool)
      requires Valid() && KernelOk(k.Model()) && k.current != 0
      modifies k.pcb, k.queues, k.upper, k.counter, k
      ensures Valid() && KernelOk(k.Model()) && value == old(value) && (passed <==> value >= 0)
      ensures k.Model() == if passed then old(k.Model()) else Block(old(k.Model()), q, now, net)
      ensures Sem() == if passed then old(Sem()) else S.AfterBlock(old(Sem()), old(k.current))
    {
      passed := !(value < 0);
      if !passed {
        BlockOn(k, q - FIRST_OTHER_QUEUE, now, net);
      }
    }

    /** do_semaphore_down up to its first block or its return */
    method Down(now: nat, net: bool) returns (passed: bool)
      requires Valid() && KernelOk(k.Model()) && k.current != 0
      modifies this`value, this`started, k.pcb, k.queues, k.upper, k.counter, k
      ensures Valid() && KernelOk(k.Model()) && started == old(started) + 1 && ups == old(ups)
      ensures passed <==> started <= init + ups
      ensures k.Model() == if passed then old(k.Model()) else Block(old(k.Model()), q, now, net)
      ensures Sem() == S.AfterDown(old(Sem()), old(k.current))
    {
      value := value - 1;
      started := started + 1;
      passed := Test(now, net);
    }
  }

  lemma WakesFirst(s: Sys, q: nat)
    requires WellFormed(s) && FIRST_OTHER_QUEUE <= q < |s.queues|
    ensures KernelOk(s) ==> KernelOk(UnblockOne(s, q)) && UnblockOne(s, q).queues[q] == Rest(s.queues[q])
  {
    if KernelOk(s) {
      OpenKernel(s);
      UnblockKeepsInv(s, q);
      QueuesAfterUnblock(s, q);
    }
  }
}
