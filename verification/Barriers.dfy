/** Barriers on the kernel: every round releases exactly as many processes as the bound asks
    for, and nobody leaves a round early. */
module Barriers {
  import opened Scheduler
  import opened Placement
  import opened Runs

  // ---------------------------------------------------------------- queues nobody touches

  lemma WakeLeaves(s: Sys, p: Pid, q: nat)
    requires WellFormed(s) && MAX_PRIORITY_NUM <= q < |s.queues|
    ensures Wake(s, p).queues[q] == s.queues[q]
  {
  }

  lemma UnblockOneLeaves(s: Sys, r: nat, q: nat)
    requires WellFormed(s) && r < |s.queues| && MAX_PRIORITY_NUM <= q < |s.queues| && q != r
    ensures UnblockOne(s, r).queues[q] == s.queues[q]
  {
    var c := DropExited(s.procs, s.queues[r]);
    if c != [] { WakeLeaves(WithQueue(s, r, c[1..]), c[0], q); }
  }

  lemma {:induction false} UnblockAllLeaves(s: Sys, r: nat, q: nat)
    requires WellFormed(s) && MAX_PRIORITY_NUM <= r < |s.queues| && MAX_PRIORITY_NUM <= q < |s.queues| && q != r
    ensures UnblockAll(s, r).queues[q] == s.queues[q]
    decreases |s.queues[r]|
  {
    if s.queues[r] != [] {
      UnblockOneLeaves(s, r, q);
      UnblockAllLeaves(UnblockOne(s, r), r, q);
    }
  }

  lemma {:induction false} ReleaseAllLeaves(s: Sys, held: seq<nat>, q: nat)
    requires WellFormed(s) && AreQueues(s, held) && MAX_PRIORITY_NUM <= q < |s.queues| && q !in held
    ensures ReleaseAll(s, held).queues[q] == s.queues[q]
    decreases |held|
  {
    if held != [] {
      UnblockOneLeaves(s, held[0], q);
      ReleaseAllLeaves(UnblockOne(s, held[0]), held[1..], q);
    }
  }

  lemma ChecksLeave(s: Sys, now: nat, net: bool, q: nat)
    requires WellFormed(s) && FIRST_WAIT_QUEUE <= q < |s.queues|
    ensures Checks(s, now, net).queues[q] == s.queues[q]
  {
    var c := s.queues[SLEEP_QUEUE];
    if c != [] {
      var u := WithQueue(s, SLEEP_QUEUE, c[1..]);
      WakeLeaves(WithProc(u, c[0], u.procs[c[0]].(awake := 0)), c[0], q);
    }
    var t := CheckSleeping(s, now);
    assert t.queues[q] == s.queues[q];
    var d := t.queues[RECV_QUEUE];
    if d != [] { WakeLeaves(WithQueue(t, RECV_QUEUE, d[1..]), d[0], q); }
  }

  /** A context switch touches only ready queues, the sleep queue and the network queue. */
  lemma ScheduleLeaves(s: Sys, now: nat, net: bool, q: nat)
    requires WellFormed(s) && FIRST_WAIT_QUEUE <= q < |s.queues|
    ensures |Schedule(s, now, net).queues| == |s.queues| && Schedule(s, now, net).queues[q] == s.queues[q]
  {
    var (idx, t) := Select(s);
    var c := DropExited(t.procs, t.queues[idx]);
    if c != [] { ChecksLeave(Requeue(TakeTop(t, idx, c)), now, net, q); }
  }

  /** Blocking pushes the running process to the end of one queue and leaves the others alone. */
  lemma BlockPushes(s: Sys, r: nat, now: nat, net: bool, q: nat)
    requires Inv(s) && s.current != 0 && MAX_PRIORITY_NUM <= r < |s.queues| && FIRST_WAIT_QUEUE <= q < |s.queues|
    ensures |Block(s, r, now, net).queues| == |s.queues|
    ensures Block(s, r, now, net).queues[q] == if q == r then s.queues[q] + [s.current] else s.queues[q]
  {
    HeldIsUnqueued(s, multiset{s.current}, s.current);
    ScheduleLeaves(BlockCurrent(s, r), now, net, q);
  }

  /** Does an event address queue q? */
  predicate Touches(e: Event, q: nat) {
    match e
    case DoBlock(r, _, _) => r == q
    case DoUnblockOne(r) => r == q
    case DoUnblockAll(r) => r == q
    case DoExit(held, _, _) => q in held
    case _ => false
  }

  /** Events that do not address a lock, semaphore, condition or barrier queue leave it alone. */
  lemma EventLeaves(s: Sys, e: Event, q: nat)
    requires Inv(s) && Enabled(s, e) && FIRST_OTHER_QUEUE <= q < |s.queues| && !Touches(e, q)
    ensures |Apply(s, e).queues| == |s.queues| && Apply(s, e).queues[q] == s.queues[q]
  {
    match e
    case Tick(now, net) => ScheduleLeaves(s, now, net, q);
    case DoSpawn(p) => SpawnLeaves(s, p, q);
    case DoBlock(r, now, net) => BlockPushes(s, r, now, net, q);
    case DoSleep(t, now, net) =>
      SleepLeaves(s, t, now, net, q);
    case DoWait(pid, now, net) => WaitLeaves(s, pid, now, net, q);
    case DoUnblockOne(r) => UnblockOneLeaves(s, r, q);
    case DoUnblockAll(r) => UnblockAllLeaves(s, r, q);
    case DoExit(held, now, net) => ExitLeaves(s, held, now, net, q);
  }

  lemma SpawnLeaves(s: Sys, p: nat, q: nat)
    requires WellFormed(s) && p < MAX_PRIORITY_NUM && FIRST_OTHER_QUEUE <= q < |s.queues|
    ensures |Spawn(s, p).queues| == |s.queues| && Spawn(s, p).queues[q] == s.queues[q]
  {
  }

  lemma WaitLeaves(s: Sys, pid: int, now: nat, net: bool, q: nat)
    requires Inv(s) && s.current != 0 && FIRST_OTHER_QUEUE <= q < |s.queues|
    ensures |WaitPid(s, pid, now, net).queues| == |s.queues| && WaitPid(s, pid, now, net).queues[q] == s.queues[q]
  {
    if 0 < pid < NUM_MAX_TASK && s.procs[pid].status.Live() {
      BlockPushes(s, FIRST_WAIT_QUEUE + pid, now, net, q);
    }
  }

  lemma SleepLeaves(s: Sys, t: nat, now: nat, net: bool, q: nat)
    requires Inv(s) && s.current != 0 && FIRST_OTHER_QUEUE <= q < |s.queues|
    ensures |Sleep(s, t, now, net).queues| == |s.queues| && Sleep(s, t, now, net).queues[q] == s.queues[q]
  {
    var x := s.procs[s.current].(awake := (t + now) % WORD);
    AfterHeldUpdate(s, multiset{s.current}, s.current, x);
    BlockPushes(WithProc(s, s.current, x), SLEEP_QUEUE, now, net, q);
  }

  lemma ExitLeaves(s: Sys, held: seq<nat>, now: nat, net: bool, q: nat)
    requires Inv(s) && Enabled(s, DoExit(held, now, net)) && FIRST_OTHER_QUEUE <= q < |s.queues| && q !in held
    ensures
      var t := Schedule(ExitCurrent(s, held), now, net);
      |t.queues| == |s.queues| && t.queues[q] == s.queues[q]
  {
    var t := WithProc(s, s.current, Proc(Exited, 1, WORD - 1));
    ReleaseAllLeaves(t, held, q);
    UnblockAllLeaves(ReleaseAll(t, held), FIRST_WAIT_QUEUE + s.current, q);
    ScheduleLeaves(ExitCurrent(s, held), now, net, q);
  }

  // ---------------------------------------------------------------- the barrier

  /** The kernel with one barrier, and what happened at it: arrivals, processes let through,
      and completed rounds. */
  datatype Barrier = Barrier(sys: Sys, cur: int, arrivals: nat, released: nat, rounds: nat)

  /** do_barrier_wait by the running process; q is the barrier's queue */
  function Arrive(b: Barrier, q: nat, bound: int, now: nat, net: bool): Barrier
    requires WellFormed(b.sys) && MAX_PRIORITY_NUM <= q < |b.sys.queues|
  {
    if b.cur + 1 < bound then
      b.(sys := Block(b.sys, q, now, net), cur := b.cur + 1, arrivals := b.arrivals + 1)
    else
      Barrier(UnblockAll(b.sys, q), 0, b.arrivals + 1, b.released + |b.sys.queues[q]| + 1, b.rounds + 1)
  }

  datatype BarrierEvent = Arrival(now: nat, net: bool) | Other(e: Event)

  ghost predicate CanHappen(b: Barrier, q: nat, e: BarrierEvent) {
    && WellFormed(b.sys) && FIRST_OTHER_QUEUE <= q < |b.sys.queues|
    && match e
       case Arrival(_, _) => b.sys.current != 0
       case Other(x) => Runs.Enabled(b.sys, x) && !Touches(x, q)
  }

  ghost function Next(b: Barrier, q: nat, bound: int, e: BarrierEvent): Barrier
    requires CanHappen(b, q, e)
  {
    match e
    case Arrival(now, net) => Arrive(b, q, bound, now, net)
    case Other(x) => b.(sys := Runs.Apply(b.sys, x))
  }

  ghost predicate IsBarrierRun(run: seq<Barrier>, events: seq<BarrierEvent>, q: nat, bound: int) {
    && |run| == |events| + 1
    && forall i :: 0 <= i < |events| ==>
         CanHappen(run[i], q, events[i]) && run[i + 1] == Next(run[i], q, bound, events[i])
  }

  /** The size of a round; a bound below one lets everybody through. */
  function Size(bound: int): nat { if bound < 1 then 1 else bound }

  function Times(m: nat, k: nat): nat { if k == 0 then 0 else Times(m, k - 1) + m }

  ghost predicate BarrierInv(b: Barrier, q: nat, bound: int) {
    && Inv(b.sys) && FIRST_OTHER_QUEUE <= q < |b.sys.queues|
    && b.cur == |b.sys.queues[q]| < Size(bound)
    && b.arrivals == b.released + b.cur
    && b.released == Times(Size(bound), b.rounds)
  }

  lemma StepKeepsBarrier(b: Barrier, q: nat, bound: int, e: BarrierEvent)
    requires BarrierInv(b, q, bound) && CanHappen(b, q, e)
    ensures BarrierInv(Next(b, q, bound, e), q, bound)
  {
    match e
    case Other(x) =>
      StepKeepsPlacement(b.sys, x);
      EventLeaves(b.sys, x, q);
    case Arrival(now, net) =>
      if b.cur + 1 < bound {
        ArrivalWaits(b, q, bound, now, net);
      } else {
        ArrivalCompletes(b, q, bound, now, net);
      }
  }

  lemma ArrivalWaits(b: Barrier, q: nat, bound: int, now: nat, net: bool)
    requires BarrierInv(b, q, bound) && b.sys.current != 0 && b.cur + 1 < bound
    ensures BarrierInv(Arrive(b, q, bound, now, net), q, bound)
  {
    AfterBlock(b.sys, q, now, net);
    BlockPushes(b.sys, q, now, net, q);
  }

  lemma UnblockAllEmpties(s: Sys, q: nat)
    requires Inv(s) && MAX_PRIORITY_NUM <= q < |s.queues|
    ensures Inv(UnblockAll(s, q)) && |UnblockAll(s, q).queues| == |s.queues| && UnblockAll(s, q).queues[q] == []
  {
    AfterUnblockAll(s, multiset{s.current}, q);
  }

  lemma ArrivalCompletes(b: Barrier, q: nat, bound: int, now: nat, net: bool)
    requires BarrierInv(b, q, bound) && b.cur + 1 >= bound
    ensures BarrierInv(Arrive(b, q, bound, now, net), q, bound)
  {
    UnblockAllEmpties(b.sys, q);
  }

  lemma {:induction false} RunKeepsBarrier(run: seq<Barrier>, events: seq<BarrierEvent>, q: nat, bound: int, n: nat)
    requires IsBarrierRun(run, events, q, bound) && n < |run| && BarrierInv(run[0], q, bound)
    ensures BarrierInv(run[n], q, bound)
  {
    if n > 0 {
      RunKeepsBarrier(run, events, q, bound, n - 1);
      StepKeepsBarrier(run[n - 1], q, bound, events[n - 1]);
    }
  }

  /** Batches, in every state of every run: the counter is the number of processes waiting and
      below the bound, and the processes let through are the bound times the whole rounds that
      have arrived. */
  lemma BarrierBatches(run: seq<Barrier>, events: seq<BarrierEvent>, q: nat, bound: int, n: nat)
    requires IsBarrierRun(run, events, q, bound) && n < |run|
    requires Inv(run[0].sys) && FIRST_OTHER_QUEUE <= q < |run[0].sys.queues| && run[0].sys.queues[q] == []
    requires run[0] == Barrier(run[0].sys, 0, 0, 0, 0)
    ensures Inv(run[n].sys) && q < |run[n].sys.queues| && run[n].cur == |run[n].sys.queues[q]| < Size(bound)
    ensures run[n].released == Size(bound) * (run[n].arrivals / Size(bound))
  {
    RunKeepsBarrier(run, events, q, bound, n);
    TimesIsProduct(Size(bound), run[n].rounds);
    Quotient(Size(bound), run[n].rounds, run[n].cur);
  }

  lemma {:induction false} TimesIsProduct(m: nat, k: nat)
    ensures Times(m, k) == m * k
  {
    if k > 0 {
      TimesIsProduct(m, k - 1);
      assert m * (k - 1) + m == m * k;
    }
  }

  lemma Quotient(m: nat, k: nat, r: nat)
    requires r < m
    ensures (m * k + r) / m == k
  {
    var d := (m * k + r) / m;
    assert m * d <= m * k + r < m * d + m;
    if d < k { Multiples(m, d, k); }
    if d > k { Multiples(m, k, d); }
  }

  lemma Multiples(m: nat, a: nat, b: nat)
    requires a < b
    ensures m * a + m <= m * b
  {
    assert m * (a + 1) <= m * b;
  }

  /** The processes waiting in the barrier's queue. */
  function Waiters(b: Barrier, q: nat): seq<Pid> { if q < |b.sys.queues| then b.sys.queues[q] else [] }

  lemma ArrivalKeepsWaiters(b: Barrier, q: nat, bound: int, now: nat, net: bool, p: Pid)
    requires BarrierInv(b, q, bound) && b.sys.current != 0 && p in Waiters(b, q)
    ensures b.cur + 1 < bound ==> p in Waiters(Arrive(b, q, bound, now, net), q)
    ensures b.cur + 1 >= bound ==> b.cur + 1 == Size(bound) && Waiters(Arrive(b, q, bound, now, net), q) == []
  {
    if b.cur + 1 < bound {
      BlockPushes(b.sys, q, now, net, q);
    } else {
      AfterUnblockAll(b.sys, multiset{b.sys.current}, q);
    }
  }

  /** Nobody leaves early: an event that takes a process out of the queue is an arrival that
      completes the round. */
  lemma NobodyLeavesEarly(b: Barrier, q: nat, bound: int, e: BarrierEvent, p: Pid)
    requires BarrierInv(b, q, bound) && CanHappen(b, q, e)
    requires p in Waiters(b, q) && p !in Waiters(Next(b, q, bound, e), q)
    ensures e.Arrival? && b.cur + 1 == Size(bound)
    ensures Waiters(Next(b, q, bound, e), q) == []
  {
    match e
    case Other(x) => EventLeaves(b.sys, x, q);
    case Arrival(now, net) => ArrivalKeepsWaiters(b, q, bound, now, net, p);
  }
}
