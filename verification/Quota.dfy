/** The run quotas: the bound kept for a priority is three times (priority + 1) for each ready
    or running process of that priority, and exactly which kernel entries keep it so. */
module Quota {
  import opened Scheduler
  import opened Placement
  import opened Runs

  /** What one process of priority r contributes to bound r. */
  function Share(r: nat): nat { PRIORITY_FACTOR * (r + 1) }

  ghost predicate Counts(x: Proc, r: nat) {
    x.status.Runnable() && x.priority == r
  }

  ghost function Weight(x: Proc, r: nat): nat {
    if Counts(x, r) then Share(r) else 0
  }

  /** The intended value of bound r. */
  ghost function Owed(procs: seq<Proc>, r: nat): nat {
    if procs == [] then 0 else Weight(procs[0], r) + Owed(procs[1..], r)
  }

  ghost function RunCount(procs: seq<Proc>, r: nat): nat {
    if procs == [] then 0 else (if Counts(procs[0], r) then 1 else 0) + RunCount(procs[1..], r)
  }

  lemma {:induction false} OwedIsShareTimesCount(procs: seq<Proc>, r: nat)
    ensures Owed(procs, r) == Share(r) * RunCount(procs, r)
    decreases |procs|
  {
    if procs != [] {
      OwedIsShareTimesCount(procs[1..], r);
      assert Share(r) * (1 + RunCount(procs[1..], r)) == Share(r) + Share(r) * RunCount(procs[1..], r);
    }
  }

  lemma {:induction false} OwedUpdate(procs: seq<Proc>, i: nat, x: Proc, r: nat)
    requires i < |procs|
    ensures Owed(procs[i := x], r) + Weight(procs[i], r) == Owed(procs, r) + Weight(x, r)
    decreases |procs|
  {
    if i == 0 {
      assert procs[i := x][1..] == procs[1..];
    } else {
      assert procs[i := x][1..] == procs[1..][i - 1 := x];
      OwedUpdate(procs[1..], i - 1, x, r);
    }
  }

  lemma {:induction false} OwedBound(procs: seq<Proc>, r: nat)
    requires r < MAX_PRIORITY_NUM
    ensures Owed(procs, r) <= 15 * |procs|
    decreases |procs|
  {
    if procs != [] { OwedBound(procs[1..], r); }
  }

  /** Bound r is off its intended value by d. */
  ghost predicate Off(s: Sys, r: nat, d: int)
    requires WellFormed(s) && r < MAX_PRIORITY_NUM
  {
    s.upper[r] == Owed(s.procs, r) + d
  }

  ghost predicate QuotaOk(s: Sys)
    requires WellFormed(s)
  {
    forall r :: 0 <= r < MAX_PRIORITY_NUM ==> Off(s, r, 0)
  }

  /** Raising a bound with its process keeps the error, as long as the error is small. */
  lemma OffRaise(s: Sys, t: Sys, p: Pid, x: Proc, r: nat, d: int)
    requires WellFormed(s) && WellFormed(t) && r < MAX_PRIORITY_NUM && Off(s, r, d) && -1000 <= d <= 1000
    requires !s.procs[p].status.Runnable() && x.status.Runnable()
    requires t.procs == s.procs[p := x] && t.upper == Increase(s.upper, x.priority)
    ensures Off(t, r, d)
  {
    OwedUpdate(s.procs, p, x, r);
    OwedBound(s.procs, r);
    assert x.priority == t.procs[p].priority < MAX_PRIORITY_NUM;
  }

  lemma OffWake(s: Sys, p: Pid, r: nat, d: int)
    requires WellFormed(s) && r < MAX_PRIORITY_NUM && Off(s, r, d) && -1000 <= d <= 1000
    requires s.procs[p].status == Blocked
    ensures Off(Wake(s, p), r, d)
  {
    OffRaise(s, Wake(s, p), p, s.procs[p].(status := Running), r, d);
  }

  lemma OffUnblockOne(s: Sys, hand: multiset<Pid>, q: nat, r: nat, d: int)
    requires Settled(s, hand) && MAX_PRIORITY_NUM <= q < |s.queues|
    requires r < MAX_PRIORITY_NUM && Off(s, r, d) && -1000 <= d <= 1000
    ensures Off(UnblockOne(s, q), r, d)
  {
    NoExited(s, q);
    if s.queues[q] != [] {
      AfterDequeue(s, hand, q);
      OffWake(WithQueue(s, q, s.queues[q][1..]), s.queues[q][0], r, d);
    }
  }

  lemma {:induction false} OffUnblockAll(s: Sys, hand: multiset<Pid>, q: nat, r: nat, d: int)
    requires Settled(s, hand) && MAX_PRIORITY_NUM <= q < |s.queues|
    requires r < MAX_PRIORITY_NUM && Off(s, r, d) && -1000 <= d <= 1000
    ensures Off(UnblockAll(s, q), r, d)
    decreases |s.queues[q]|
  {
    if s.queues[q] != [] {
      AfterUnblockOne(s, hand, q);
      OffUnblockOne(s, hand, q, r, d);
      OffUnblockAll(UnblockOne(s, q), hand, q, r, d);
    }
  }

  lemma {:induction false} OffReleaseAll(s: Sys, hand: multiset<Pid>, held: seq<nat>, r: nat, d: int)
    requires Settled(s, hand) && AreQueues(s, held) && forall i :: 0 <= i < |held| ==> MAX_PRIORITY_NUM <= held[i]
    requires r < MAX_PRIORITY_NUM && Off(s, r, d) && -1000 <= d <= 1000
    ensures Off(ReleaseAll(s, held), r, d)
    decreases |held|
  {
    if held != [] {
      AfterUnblockOne(s, hand, held[0]);
      OffUnblockOne(s, hand, held[0], r, d);
      OffReleaseAll(UnblockOne(s, held[0]), hand, held[1..], r, d);
    }
  }

  lemma OffChecks(s: Sys, hand: multiset<Pid>, now: nat, net: bool, r: nat, d: int)
    requires Settled(s, hand) && r < MAX_PRIORITY_NUM && Off(s, r, d) && -1000 <= d <= 1000
    ensures Off(Checks(s, now, net), r, d)
  {
    var c := s.queues[SLEEP_QUEUE];
    var t := CheckSleeping(s, now);
    if t != s {
      AfterDequeue(s, hand, SLEEP_QUEUE);
      var u := WithQueue(s, SLEEP_QUEUE, c[1..]);
      var v := WithProc(u, c[0], u.procs[c[0]].(awake := 0));
      OwedUpdate(u.procs, c[0], v.procs[c[0]], r);
      OffWake(v, c[0], r, d);
    }
    assert Settled(t, hand) by { AfterChecks(s, hand, now, false); }
    var e := t.queues[RECV_QUEUE];
    if e != [] && net {
      AfterDequeue(t, hand, RECV_QUEUE);
      OffWake(WithQueue(t, RECV_QUEUE, e[1..]), e[0], r, d);
    }
  }

  lemma OffSchedule(s: Sys, now: nat, net: bool, r: nat, d: int)
    requires Schedulable(s) && r < MAX_PRIORITY_NUM && Off(s, r, d) && -1000 <= d <= 1000
    ensures Off(Schedule(s, now, net), r, d)
  {
    var (idx, t) := Select(s);
    TypedWithoutChange(s, t);
    NoExited(t, idx);
    if t.queues[idx] != [] {
      AfterTakeTop(t, idx);
      var u := TakeTop(t, idx, t.queues[idx]);
      OwedUpdate(t.procs, t.queues[idx][0], u.procs[t.queues[idx][0]], r);
      OffChecks(Requeue(u), multiset{t.queues[idx][0]}, now, net, r, d);
    }
  }

  lemma OffBlockCurrent(s: Sys, q: nat, r: nat)
    requires WellFormed(s) && q < |s.queues| && s.procs[s.current].status.Runnable()
    requires r < MAX_PRIORITY_NUM && Off(s, r, 0)
    ensures Off(BlockCurrent(s, q), r, 0)
  {
    var me := s.procs[s.current];
    OwedUpdate(s.procs, s.current, me.(status := Blocked), r);
  }

  lemma OffBlock(s: Sys, q: nat, now: nat, net: bool, r: nat)
    requires Inv(s) && s.current != 0 && MAX_PRIORITY_NUM <= q < |s.queues|
    requires r < MAX_PRIORITY_NUM && Off(s, r, 0)
    ensures Off(Block(s, q, now, net), r, 0)
  {
    AfterBlockCurrent(s, q);
    OffBlockCurrent(s, q, r);
    OffSchedule(BlockCurrent(s, q), now, net, r, 0);
  }

  lemma OffSleep(s: Sys, time: nat, now: nat, net: bool, r: nat)
    requires Inv(s) && s.current != 0 && r < MAX_PRIORITY_NUM && Off(s, r, 0)
    ensures Off(Sleep(s, time, now, net), r, 0)
  {
    var x := s.procs[s.current].(awake := (time + now) % WORD);
    AfterHeldUpdate(s, multiset{s.current}, s.current, x);
    OwedUpdate(s.procs, s.current, x, r);
    OffBlock(WithProc(s, s.current, x), SLEEP_QUEUE, now, net, r);
  }

  // ---------------------------------------------------------------- the exact condition

  /** The entries that keep the quotas: a spawn that finds a slot, an exit at priority 1. */
  ghost predicate Conserving(s: Sys, e: Event)
    requires WellFormed(s)
  {
    match e
    case DoSpawn(_) => FreeSlot(s.procs, 0) < NUM_MAX_TASK
    case DoExit(_, _, _) => s.procs[s.current].priority == 1
    case _ => true
  }

  lemma OffSpawn(s: Sys, p: nat, r: nat)
    requires Inv(s) && p < MAX_PRIORITY_NUM && r < MAX_PRIORITY_NUM && Off(s, r, 0)
    ensures FreeSlot(s.procs, 0) < NUM_MAX_TASK ==> Off(Spawn(s, p), r, 0)
    ensures FreeSlot(s.procs, 0) == NUM_MAX_TASK && p == r ==> Off(Spawn(s, p), r, Share(r))
  {
    var i := FreeSlot(s.procs, 0);
    OwedBound(s.procs, r);
    if i < NUM_MAX_TASK {
      OffRaise(s, Spawn(s, p), i, Proc(Ready, p, s.procs[i].awake), r, 0);
    }
  }

  /** The exiting process no longer counts, so that its bound is off by its share. */
  lemma OffGone(s: Sys, t: Sys, r: nat, d: int)
    requires WellFormed(s) && WellFormed(t) && r < MAX_PRIORITY_NUM && Off(s, r, 0)
    requires t == WithProc(s, s.current, Proc(Exited, 1, WORD - 1)) && d == Weight(s.procs[s.current], r)
    ensures Off(t, r, d)
  {
    OwedUpdate(s.procs, s.current, t.procs[s.current], r);
  }

  /** Bound 1 is lowered, whatever the priority was. */
  lemma OffLower(u: Sys, r: nat, d: int)
    requires WellFormed(u) && r < MAX_PRIORITY_NUM && Off(u, r, d)
    ensures WellFormed(u.(upper := Decrease(u.upper, 1)))
    ensures r != 1 ==> Off(u.(upper := Decrease(u.upper, 1)), r, d)
    ensures r == 1 && d == Share(1) ==> Off(u.(upper := Decrease(u.upper, 1)), r, 0)
  {
  }

  /** The bounds after everything an exit does before the scheduler. */
  lemma OffExitCurrent(s: Sys, held: seq<nat>, r: nat)
    requires Inv(s) && Enabled(s, DoExit(held, 0, false)) && r < MAX_PRIORITY_NUM && Off(s, r, 0)
    ensures s.procs[s.current].priority == 1 ==> Off(ExitCurrent(s, held), r, 0)
    ensures s.procs[s.current].priority == r != 1 ==> Off(ExitCurrent(s, held), r, Share(r))
  {
    var t := WithProc(s, s.current, Proc(Exited, 1, WORD - 1));
    var d := Weight(s.procs[s.current], r);
    ExitSettles(s, t);
    OffGone(s, t, r, d);
    AfterReleaseAll(t, multiset{}, held);
    OffReleaseAll(t, multiset{}, held, r, d);
    var u := UnblockAll(ReleaseAll(t, held), FIRST_WAIT_QUEUE + s.current);
    OffUnblockAll(ReleaseAll(t, held), multiset{}, FIRST_WAIT_QUEUE + s.current, r, d);
    OffLower(u, r, d);
  }

  lemma OffExit(s: Sys, held: seq<nat>, now: nat, net: bool, r: nat)
    requires Inv(s) && Enabled(s, DoExit(held, now, net)) && r < MAX_PRIORITY_NUM && Off(s, r, 0)
    ensures s.procs[s.current].priority == 1 ==> Off(Apply(s, DoExit(held, now, net)), r, 0)
    ensures s.procs[s.current].priority == r != 1 ==> Off(Apply(s, DoExit(held, now, net)), r, Share(r))
  {
    OffExitCurrent(s, held, r);
    AfterExit(s, held);
    if s.procs[s.current].priority == 1 {
      OffSchedule(ExitCurrent(s, held), now, net, r, 0);
    } else if s.procs[s.current].priority == r {
      OffSchedule(ExitCurrent(s, held), now, net, r, Share(r));
    }
  }

  /** Every conserving entry keeps bound r. */
  lemma StepKeepsBound(s: Sys, e: Event, r: nat)
    requires Inv(s) && Enabled(s, e) && Conserving(s, e) && r < MAX_PRIORITY_NUM && Off(s, r, 0)
    ensures WellFormed(Apply(s, e)) && Off(Apply(s, e), r, 0)
  {
    StepKeepsPlacement(s, e);
    match e
    case Tick(now, net) => OffSchedule(s, now, net, r, 0);
    case DoSpawn(p) => OffSpawn(s, p, r);
    case DoBlock(q, now, net) => OffBlock(s, q, now, net, r);
    case DoSleep(t, now, net) => OffSleep(s, t, now, net, r);
    case DoWait(pid, now, net) =>
      if 0 < pid < NUM_MAX_TASK && s.procs[pid].status.Live() {
        OffBlock(s, FIRST_WAIT_QUEUE + pid, now, net, r);
      }
    case DoUnblockOne(q) => OffUnblockOne(s, multiset{s.current}, q, r, 0);
    case DoUnblockAll(q) => OffUnblockAll(s, multiset{s.current}, q, r, 0);
    case DoExit(held, now, net) => OffExit(s, held, now, net, r);
  }

  /** A kernel entry keeps every quota exact if and only if it is a conserving one. */
  lemma StepKeepsQuota(s: Sys, e: Event)
    requires Inv(s) && Enabled(s, e) && QuotaOk(s)
    ensures WellFormed(Apply(s, e)) && (QuotaOk(Apply(s, e)) <==> Conserving(s, e))
  {
    StepKeepsPlacement(s, e);
    if Conserving(s, e) {
      forall r | 0 <= r < MAX_PRIORITY_NUM ensures Off(Apply(s, e), r, 0) {
        assert Off(s, r, 0);
        StepKeepsBound(s, e, r);
      }
    }
    if !Conserving(s, e) {
      var r := if e.DoSpawn? then e.priority else s.procs[s.current].priority;
      assert Off(s, r, 0);
      match e {
        case DoSpawn(p) => OffSpawn(s, p, r);
        case DoExit(held, now, net) => OffExit(s, held, now, net, r);
        case _ =>
      }
      assert Off(Apply(s, e), r, Share(r)) && !Off(Apply(s, e), r, 0);
    }
  }

  lemma {:induction false} NothingOwed(procs: seq<Proc>, r: nat)
    requires forall i :: 0 <= i < |procs| ==> !procs[i].status.Runnable()
    ensures Owed(procs, r) == 0
  {
    if procs != [] { NothingOwed(procs[1..], r); }
  }

  /** The bounds set up in init/main.c are exact. */
  lemma BootQuota(others: nat, lastSel: nat)
    requires lastSel < MAX_PRIORITY_NUM
    ensures WellFormed(Boot(others, lastSel)) && QuotaOk(Boot(others, lastSel))
  {
    var s := Boot(others, lastSel);
    forall r | 0 <= r < MAX_PRIORITY_NUM ensures Off(s, r, 0) {
      NothingOwed(s.procs[2..], r);
      assert s.procs[1..][1..] == s.procs[2..] && s.procs[1..][0] == s.procs[1];
      assert Owed(s.procs, r) == Weight(s.procs[0], r) + Weight(s.procs[1], r) + Owed(s.procs[2..], r);
    }
  }

  /** Over every run of conserving entries from exact quotas, as boot leaves them, every quota is exact. */
  lemma {:induction false} RunKeepsQuota(run: seq<Sys>, events: seq<Event>, n: nat)
    requires IsRun(run, events) && Inv(run[0]) && QuotaOk(run[0]) && n < |run|
    requires forall i :: 0 <= i < n ==> Conserving(run[i], events[i])
    ensures Inv(run[n]) && QuotaOk(run[n])
  {
    RunKeepsPlacement(run, events, n);
    if n > 0 {
      RunKeepsQuota(run, events, n - 1);
      StepKeepsQuota(run[n - 1], events[n - 1]);
    }
  }

  /** With exact quotas the saturating branch of the decrease is never taken. */
  lemma NeverSaturates(s: Sys)
    requires Inv(s) && QuotaOk(s)
    ensures s.upper[s.procs[s.current].priority] >= Share(s.procs[s.current].priority)
  {
    var r := s.procs[s.current].priority;
    assert Off(s, r, 0);
    OwedUpdate(s.procs, s.current, s.procs[s.current].(status := Blocked), r);
  }
}
