/** Theorems about every run of the scheduler's transition system. */
module Runs {
  import opened Scheduler
  import opened Placement

  /** One kernel entry by the running process, or a timer tick. */
  datatype Event =
    | Tick(now: nat, net: bool)
    | DoSpawn(priority: nat)
    | DoBlock(q: nat, now: nat, net: bool)
    | DoSleep(time: nat, now: nat, net: bool)
    | DoWait(pid: int, now: nat, net: bool)
    | DoUnblockOne(q: nat)
    | DoUnblockAll(q: nat)
    | DoExit(held: seq<nat>, now: nat, net: bool)

  /** What the kernel demands of its callers: blocking queues are not ready queues, priorities
      are below five, and the idle process (an empty loop) makes no blocking call. */
  ghost predicate Enabled(s: Sys, e: Event) {
    && WellFormed(s)
    && match e
       case Tick(_, _) => true
       case DoSpawn(p) => p < MAX_PRIORITY_NUM
       case DoBlock(q, _, _) => s.current != 0 && MAX_PRIORITY_NUM <= q < |s.queues|
       case DoSleep(_, _, _) => s.current != 0
       case DoWait(_, _, _) => s.current != 0
       case DoUnblockOne(q) => MAX_PRIORITY_NUM <= q < |s.queues|
       case DoUnblockAll(q) => MAX_PRIORITY_NUM <= q < |s.queues|
       case DoExit(held, _, _) =>
         s.current != 0 && AreQueues(s, held) && forall i :: 0 <= i < |held| ==> MAX_PRIORITY_NUM <= held[i]
  }

  ghost function Apply(s: Sys, e: Event): Sys
    requires Enabled(s, e)
  {
    match e
    case Tick(now, net) => Schedule(s, now, net)
    case DoSpawn(p) => Spawn(s, p)
    case DoBlock(q, now, net) => Block(s, q, now, net)
    case DoSleep(t, now, net) => Sleep(s, t, now, net)
    case DoWait(pid, now, net) => WaitPid(s, pid, now, net)
    case DoUnblockOne(q) => UnblockOne(s, q)
    case DoUnblockAll(q) => UnblockAll(s, q)
    case DoExit(held, now, net) => Schedule(ExitCurrent(s, held), now, net)
  }

  /** A run is the sequence of states it visits, linked by events. */
  ghost predicate IsRun(run: seq<Sys>, events: seq<Event>) {
    && |run| == |events| + 1
    && forall i :: 0 <= i < |events| ==> Enabled(run[i], events[i]) && run[i + 1] == Apply(run[i], events[i])
  }

  // ---------------------------------------------------------------- placement over runs

  lemma AfterBlockCurrent(s: Sys, q: nat)
    requires Inv(s) && s.current != 0 && MAX_PRIORITY_NUM <= q < |s.queues|
    ensures Schedulable(BlockCurrent(s, q))
  {
    var me := s.current;
    var blocked := s.procs[me].(status := Blocked);
    AfterHeldUpdate(s, multiset{me}, me, blocked);
    var t := WithProc(s, me, blocked);
    assert multiset{} + multiset{me} == multiset{me};
    AfterPush(t, multiset{}, q, me);
    var u := PushIfAbsent(t, q, me);
    HeldIsUnqueued(s, multiset{me}, me);
    assert BlockCurrent(s, q) == u.(upper := Decrease(s.upper, s.procs[me].priority));
    TypedWithoutChange(u, BlockCurrent(s, q));
  }

  lemma AfterBlock(s: Sys, q: nat, now: nat, net: bool)
    requires Inv(s) && s.current != 0 && MAX_PRIORITY_NUM <= q < |s.queues|
    ensures Inv(Block(s, q, now, net))
  {
    AfterBlockCurrent(s, q);
    AfterSchedule(BlockCurrent(s, q), now, net);
  }

  lemma AfterSleep(s: Sys, time: nat, now: nat, net: bool)
    requires Inv(s) && s.current != 0
    ensures Inv(Sleep(s, time, now, net))
  {
    var x := s.procs[s.current].(awake := (time + now) % WORD);
    AfterHeldUpdate(s, multiset{s.current}, s.current, x);
    AfterBlock(WithProc(s, s.current, x), SLEEP_QUEUE, now, net);
  }

  lemma AfterSpawn(s: Sys, priority: nat)
    requires Inv(s) && priority < MAX_PRIORITY_NUM
    ensures Inv(Spawn(s, priority))
  {
    var i := FreeSlot(s.procs, 0);
    var t := s.(upper := Increase(s.upper, priority));
    TypedWithoutChange(s, t);
    if i < NUM_MAX_TASK {
      var p: Pid := i;
      ReadySlot(t, p, priority);
      AfterPush(WithProc(t, p, Proc(Ready, priority, t.procs[p].awake)), multiset{s.current}, priority, p);
    }
  }

  /** The first slot that is not live, in no queue before, stands at the end of the ready queue of the
      priority asked for; everybody else stays.  With all slots live only the quota changes. */
  lemma SpawnsAtEnd(s: Sys, priority: nat)
    requires Inv(s) && priority < MAX_PRIORITY_NUM
    ensures
      var t := Spawn(s, priority);
      var i := FreeSlot(s.procs, 0);
      if i == NUM_MAX_TASK then t == s.(upper := Increase(s.upper, priority)) && forall p: Pid :: s.procs[p].status.Live()
      else
        && (forall q, k :: !At(s, i, q, k)) && i != s.current && At(t, i, priority, |s.queues[priority]|)
        && t.procs[i].status == Ready && t.procs[i].priority == priority && t.current == s.current
        && (forall p: Pid :: p != i ==> t.procs[p] == s.procs[p])
        && forall p: Pid, q, k :: p != i ==> (At(t, p, q, k) <==> At(s, p, q, k))
  {
    var i := FreeSlot(s.procs, 0);
    if i < NUM_MAX_TASK {
      var p: Pid := i;
      forall q | 0 <= q < |s.queues| ensures p !in s.queues[q] { OccHas(s.queues, q, p); }
    }
  }

  /** A free slot becomes a process that is in no queue yet. */
  lemma ReadySlot(t: Sys, p: Pid, priority: nat)
    requires Inv(t) && priority < MAX_PRIORITY_NUM && !t.procs[p].status.Live()
    ensures
      var u := WithProc(t, p, Proc(Ready, priority, t.procs[p].awake));
      WellFormed(u) && Placed(u, multiset{t.current} + multiset{p}) && Typed(u)
  {
    var u := WithProc(t, p, Proc(Ready, priority, t.procs[p].awake));
    forall q | 0 <= q < |t.queues| ensures p !in t.queues[q] { OccHas(t.queues, q, p); }
    TypedWithout(t, u, p);
  }

  lemma AfterExit(s: Sys, held: seq<nat>)
    requires Inv(s) && Enabled(s, DoExit(held, 0, false))
    ensures Schedulable(ExitCurrent(s, held))
    ensures ExitCurrent(s, held).queues[FIRST_WAIT_QUEUE + s.current] == []
  {
    var me := s.current;
    var t := WithProc(s, me, Proc(Exited, 1, WORD - 1));
    ExitSettles(s, t);
    AfterReleaseAll(t, multiset{}, held);
    AfterWaiters(ReleaseAll(t, held), me, ExitCurrent(s, held));
  }

  lemma AfterWaiters(u: Sys, me: Pid, e: Sys)
    requires Settled(u, multiset{}) && u.current == me && u.procs[me].status == Exited
    requires var w := UnblockAll(u, FIRST_WAIT_QUEUE + me); e == w.(upper := Decrease(w.upper, 1))
    ensures Schedulable(e) && e.queues[FIRST_WAIT_QUEUE + me] == []
  {
    AfterUnblockAll(u, multiset{}, FIRST_WAIT_QUEUE + me);
    TypedWithoutChange(UnblockAll(u, FIRST_WAIT_QUEUE + me), e);
  }

  /** The exiting process is in no queue and no longer counts as live. */
  lemma ExitSettles(s: Sys, t: Sys)
    requires Inv(s) && s.current != 0 && t == WithProc(s, s.current, Proc(Exited, 1, WORD - 1))
    ensures Settled(t, multiset{})
  {
    HeldIsUnqueued(s, multiset{s.current}, s.current);
    TypedWithout(s, t, s.current);
    assert Placed(t, multiset{});
  }

  /** Every kernel entry keeps the placement invariant. */
  lemma StepKeepsPlacement(s: Sys, e: Event)
    requires Inv(s) && Enabled(s, e)
    ensures Inv(Apply(s, e))
  {
    match e
    case Tick(now, net) => AfterSchedule(s, now, net);
    case DoSpawn(p) => AfterSpawn(s, p);
    case DoBlock(q, now, net) => AfterBlock(s, q, now, net);
    case DoSleep(t, now, net) => AfterSleep(s, t, now, net);
    case DoWait(pid, now, net) =>
      if 0 < pid < NUM_MAX_TASK && s.procs[pid].status.Live() {
        AfterBlock(s, FIRST_WAIT_QUEUE + pid, now, net);
      }
    case DoUnblockOne(q) => AfterUnblockOne(s, multiset{s.current}, q);
    case DoUnblockAll(q) => AfterUnblockAll(s, multiset{s.current}, q);
    case DoExit(held, now, net) =>
      AfterExit(s, held);
      AfterSchedule(ExitCurrent(s, held), now, net);
  }

  lemma {:induction false} RunKeepsPlacement(run: seq<Sys>, events: seq<Event>, n: nat)
    requires IsRun(run, events) && Inv(run[0]) && n < |run|
    ensures Inv(run[n])
  {
    if n > 0 {
      RunKeepsPlacement(run, events, n - 1);
      StepKeepsPlacement(run[n - 1], events[n - 1]);
    }
  }

  /** Is process p at place (q, i)? */
  ghost predicate At(s: Sys, p: Pid, q: nat, i: nat) {
    q < |s.queues| && i < |s.queues[q]| && s.queues[q][i] == p
  }

  /** The invariant read process by process: a live process is running or in one queue, never
      both and never twice; a ready process is in the queue of its own priority; a process is
      blocked exactly when it is in a blocking queue; a dead one is nowhere. */
  lemma ExactlyOnePlace(s: Sys, p: Pid)
    requires Inv(s)
    ensures s.procs[p].status.Live() <==> p == s.current || exists q: nat, i: nat :: At(s, p, q, i)
    ensures forall q: nat, i: nat :: At(s, p, q, i) ==> p != s.current
    ensures forall q: nat, i: nat, r: nat, j: nat :: At(s, p, q, i) && At(s, p, r, j) ==> q == r && i == j
    ensures forall q: nat, i: nat :: At(s, p, q, i) && q < MAX_PRIORITY_NUM ==> s.procs[p].priority == q
    ensures s.procs[p].status == Blocked <==> exists q: nat, i: nat :: At(s, p, q, i) && q >= MAX_PRIORITY_NUM
  {
    var hand := multiset{s.current};
    forall q: nat, i: nat | At(s, p, q, i)
      ensures p != s.current && s.procs[p].status.Live()
      ensures q < MAX_PRIORITY_NUM ==> s.procs[p].status.Runnable() && s.procs[p].priority == q
      ensures q >= MAX_PRIORITY_NUM ==> s.procs[p].status == Blocked
    {
      OccHas(s.queues, q, p);
      assert if q < MAX_PRIORITY_NUM then ReadyTyped(s, q, s.queues[q]) else BlockTyped(s, s.queues[q]);
    }
    forall q: nat, i: nat, r: nat, j: nat | At(s, p, q, i) && At(s, p, r, j) ensures q == r && i == j {
      QueuedOnce(s, hand, q, r, i, j);
    }
    if s.procs[p].status.Live() && p != s.current {
      var q := OccWhere(s.queues, p);
      var i :| 0 <= i < |s.queues[q]| && s.queues[q][i] == p;
      assert At(s, p, q, i);
    }
  }

  // ---------------------------------------------------------------- boot

  /** The state init/main.c builds: the idle process runs and the shell is ready, both with
      priority 0.  The last selected index is taken to be valid. */
  function Boot(others: nat, lastSel: nat): Sys
    requires lastSel < MAX_PRIORITY_NUM
  {
    Sys(seq(NUM_MAX_TASK, i => if i < 2 then Proc(Ready, 0, WORD - 1) else Proc(Create, 1, WORD - 1)),
        seq(FIRST_OTHER_QUEUE + others, q => if q == 0 then [1 as Pid] else []),
        0, lastSel, 0, [0, 0, 0, 0, 0], [6, 0, 0, 0, 0])
  }

  lemma {:induction false} OccNone(qs: seq<seq<Pid>>, p: Pid)
    requires forall i :: 0 <= i < |qs| ==> p !in qs[i]
    ensures Occ(qs, p) == 0
    decreases |qs|
  {
    if qs != [] {
      assert forall i :: 0 <= i < |qs[1..]| ==> qs[1..][i] == qs[i + 1];
      OccNone(qs[1..], p);
    }
  }

  lemma BootIsPlaced(others: nat, lastSel: nat)
    requires lastSel < MAX_PRIORITY_NUM
    ensures Inv(Boot(others, lastSel))
  {
    var s := Boot(others, lastSel);
    forall p: Pid ensures multiset{s.current}[p] + Occ(s.queues, p) == if s.procs[p].status.Live() then 1 else 0 {
      OccNone(s.queues[1..], p);
    }
  }

  /** From boot, every state of every run is well placed. */
  lemma EveryRunIsPlaced(others: nat, lastSel: nat, run: seq<Sys>, events: seq<Event>, n: nat)
    requires lastSel < MAX_PRIORITY_NUM
    requires IsRun(run, events) && run[0] == Boot(others, lastSel) && n < |run|
    ensures Inv(run[n])
  {
    BootIsPlaced(others, lastSel);
    RunKeepsPlacement(run, events, n);
  }
}
