/** Over whole runs: how long do_sleep and do_waitpid keep a process blocked, and what ends it. */
module WakeUps {
  import opened Sealing
  import opened Counting
  import opened Scheduler
  import opened Placement
  import opened Runs
  import opened Waiting
  import opened Sleepers

  // ---------------------------------------------------------------- sleepers and receivers

  /** For every entry of a run: does it take the head out of queue q? */
  ghost function Rousings(run: seq<Sys>, events: seq<Event>, q: nat): seq<bool>
    requires |events| <= |run|
  {
    seq(|events|, i requires 0 <= i < |events| => RousedBy(run[i], events[i], q))
  }

  /** No entry wakes processes in queue q but the scheduler's own checks. */
  ghost predicate Untouched(run: seq<Sys>, events: seq<Event>, q: nat)
    requires |events| <= |run|
  {
    forall i :: 0 <= i < |events| ==> !Frees(run[i], events[i], q)
  }

  ghost predicate AwakeBy(run: seq<Sys>, x: Pid, n: nat)
    requires n < |run|
  {
    exists m :: 0 < m <= n && |run[m].procs| == NUM_MAX_TASK && run[m].procs[x].status != Blocked
  }

  /** After n entries the process has come nearer by the heads taken out, or has been awake. */
  ghost predicate Come(run: seq<Sys>, x: Pid, q: nat, k: nat, a: nat, taken: nat, n: nat)
    requires n < |run|
  {
    if taken <= k then Sits(run[n], x, q, k - taken, a) else AwakeBy(run, x, n)
  }

  /** A run from a placed state with what every entry does to queue q, taken as a whole. */
  ghost predicate ABlockedRun(run: seq<Sys>, events: seq<Event>, q: nat, b: seq<bool>) {
    && |run| == |events| + 1 == |b| + 1
    && forall x: Seal {:trigger Open(x)} :: Open(x) ==> ARun(run, events) && b == Rousings(run, events, q) && Untouched(run, events, q)
  }

  lemma OneMoves(run: seq<Sys>, events: seq<Event>, b: seq<bool>, n: nat, x: Pid, q: nat, k: nat, a: nat)
    requires ABlockedRun(run, events, q, b) && 0 < n < |run| && MAX_PRIORITY_NUM <= q && Sits(run[n - 1], x, q, k, a)
    ensures Moved(run[n], x, q, k, a, b[n - 1])
  {
    assert Open(Seal);
    OneEntry(run, events, n);
    EntryMoves(run[n - 1], events[n - 1], run[n], x, q, k, a, b[n - 1]);
  }

  lemma ComesOn(run: seq<Sys>, x: Pid, q: nat, k: nat, a: nat, taken: nat, n: nat, roused: bool)
    requires 0 < n < |run| && Come(run, x, q, k, a, taken, n - 1)
    requires taken <= k ==> Moved(run[n], x, q, k - taken, a, roused)
    ensures Come(run, x, q, k, a, taken + if roused then 1 else 0, n)
  {
    if taken > k {
      var m :| 0 < m <= n - 1 && |run[m].procs| == NUM_MAX_TASK && run[m].procs[x].status != Blocked;
      assert 0 < m <= n;
    }
  }

  lemma {:induction false} ComeSoFar(run: seq<Sys>, events: seq<Event>, b: seq<bool>, x: Pid, q: nat, k: nat, a: nat, n: nat)
    requires ABlockedRun(run, events, q, b) && MAX_PRIORITY_NUM <= q && Sits(run[0], x, q, k, a) && n < |run|
    ensures Come(run, x, q, k, a, Count(b, n), n)
  {
    if n > 0 {
      ComeSoFar(run, events, b, x, q, k, a, n - 1);
      var taken := Count(b, n - 1);
      if taken <= k { OneMoves(run, events, b, n, x, q, k - taken, a); }
      ComesOn(run, x, q, k, a, taken, n, b[n - 1]);
    }
  }

  /** A process at position k of the sleep or the receive queue is awake within n entries if and only if
      more than k scheduler calls among them find the head of that queue due. */
  lemma RousedExactly(run: seq<Sys>, events: seq<Event>, x: Pid, q: nat, k: nat, a: nat, n: nat)
    requires IsRun(run, events) && Inv(run[0]) && MAX_PRIORITY_NUM <= q && Sits(run[0], x, q, k, a) && n < |run|
    requires Untouched(run, events, q)
    ensures AwakeBy(run, x, n) <==> Count(Rousings(run, events, q), n) > k
  {
    var b := Rousings(run, events, q);
    ComeSoFar(run, events, b, x, q, k, a, n);
    if Count(b, n) <= k {
      forall m | 0 < m <= n ensures !(|run[m].procs| == NUM_MAX_TASK && run[m].procs[x].status != Blocked) {
        CountGrows(b, m, n);
        ComeSoFar(run, events, b, x, q, k, a, m);
      }
    }
  }

  /** The entry that wakes a sleeper reaches the scheduler after its time, and finds it first. */
  lemma RousedInTime(s: Sys, e: Event, x: Pid, a: nat)
    requires Inv(s) && Enabled(s, e) && !Frees(s, e, SLEEP_QUEUE) && Sits(s, x, SLEEP_QUEUE, 0, a) && RousedBy(s, e, SLEEP_QUEUE)
    ensures Calls(s, e) && e.now > a && At(Before(s, e), x, SLEEP_QUEUE, 0)
  {
    assert Open(Seal);
    BeforeSpares(s, e, x, SLEEP_QUEUE, 0, a);
  }

  /** The last entry before which a sleeper was still asleep. */
  lemma {:induction false} WokenAt(run: seq<Sys>, events: seq<Event>, b: seq<bool>, x: Pid, k: nat, a: nat, n: nat) returns (i: nat)
    requires ABlockedRun(run, events, SLEEP_QUEUE, b) && Sits(run[0], x, SLEEP_QUEUE, k, a) && n < |run| && Count(b, n) > k
    ensures i < n && b[i] && Count(b, i) == k && Sits(run[i], x, SLEEP_QUEUE, 0, a)
  {
    if Count(b, n - 1) > k {
      i := WokenAt(run, events, b, x, k, a, n - 1);
    } else {
      i := n - 1;
      ComeSoFar(run, events, b, x, SLEEP_QUEUE, k, a, i);
    }
  }

  /** A sleeper stays blocked until the scheduler is called after its time and finds it first. */
  lemma SleepsUntil(run: seq<Sys>, events: seq<Event>, x: Pid, k: nat, a: nat, n: nat) returns (i: nat)
    requires IsRun(run, events) && Inv(run[0]) && Sits(run[0], x, SLEEP_QUEUE, k, a) && n < |run|
    requires Untouched(run, events, SLEEP_QUEUE) && AwakeBy(run, x, n)
    ensures i < n && !AwakeBy(run, x, i) && Sits(run[i], x, SLEEP_QUEUE, 0, a)
    ensures Enabled(run[i], events[i]) && Calls(run[i], events[i]) && events[i].now > a
    ensures At(Before(run[i], events[i]), x, SLEEP_QUEUE, 0)
  {
    var b := Rousings(run, events, SLEEP_QUEUE);
    RousedExactly(run, events, x, SLEEP_QUEUE, k, a, n);
    i := WokenAt(run, events, b, x, k, a, n);
    RousedExactly(run, events, x, SLEEP_QUEUE, k, a, i);
    RunKeepsPlacement(run, events, i);
    RousedInTime(run[i], events[i], x, a);
  }

  /** do_sleep puts the running process behind the other sleepers, to wake when its time, wrapped to 32
      bits, has passed.  The call of the scheduler may already take one sleeper out. */
  lemma SleepSits(s: Sys, time: nat, now: nat, net: bool)
    requires Inv(s) && s.current != 0
    ensures
      var e := DoSleep(time, now, net);
      && Enabled(s, e) && Schedulable(Before(s, e))
      && Moved(Apply(s, e), s.current, SLEEP_QUEUE, |s.queues[SLEEP_QUEUE]|, (time + now) % WORD, Rouses(Before(s, e), SLEEP_QUEUE, now, net))
  {
    var e := DoSleep(time, now, net);
    BeforeSchedules(s, e);
    ThenSchedules(s, e);
    SleepPushes(s, time, now, net);
    CallComes(Before(s, e), now, net, s.current, SLEEP_QUEUE, |s.queues[SLEEP_QUEUE]|, (time + now) % WORD);
  }

  lemma CallComes(b: Sys, now: nat, net: bool, x: Pid, q: nat, k: nat, a: nat)
    requires Schedulable(b) && MAX_PRIORITY_NUM <= q && Sits(b, x, q, k, a)
    ensures Moved(Schedule(b, now, net), x, q, k, a, Rouses(b, q, now, net))
  {
    CallMoves(b, now, net, x, q, k, a);
  }

  lemma SleepPushes(s: Sys, time: nat, now: nat, net: bool)
    requires Inv(s) && s.current != 0
    ensures Sits(Before(s, DoSleep(time, now, net)), s.current, SLEEP_QUEUE, |s.queues[SLEEP_QUEUE]|, (time + now) % WORD)
  {
    HeldIsUnqueued(s, multiset{s.current}, s.current);
  }

  /** Either the caller is among the sleepers after do_sleep, or its time has wrapped, so that the call of
      the scheduler that do_sleep makes finds it first and due. */
  lemma AfterSleep(s: Sys, time: nat, now: nat, net: bool) returns (out: bool, k: nat)
    requires Inv(s) && s.current != 0
    ensures
      var e, a := DoSleep(time, now, net), (time + now) % WORD;
      && Enabled(s, e)
      && if out then now > a && At(Before(s, e), s.current, SLEEP_QUEUE, 0) else Sits(Apply(s, e), s.current, SLEEP_QUEUE, k, a)
  {
    var e, n, a := DoSleep(time, now, net), |s.queues[SLEEP_QUEUE]|, (time + now) % WORD;
    SleepPushes(s, time, now, net);
    BeforeSchedules(s, e);
    ThenSchedules(s, e);
    out, k := CallTakes(Before(s, e), now, net, s.current, n, a);
  }

  lemma CallTakes(b: Sys, now: nat, net: bool, x: Pid, n: nat, a: nat) returns (out: bool, k: nat)
    requires Schedulable(b) && Sits(b, x, SLEEP_QUEUE, n, a)
    ensures if out then now > a && At(b, x, SLEEP_QUEUE, 0) else Sits(Schedule(b, now, net), x, SLEEP_QUEUE, k, a)
  {
    CallMoves(b, now, net, x, SLEEP_QUEUE, n, a);
    var roused := Rouses(b, SLEEP_QUEUE, now, net);
    out, k := roused && n == 0, if roused && n > 0 then n - 1 else n;
  }

  /** do_sleep(time) at time `now`: whatever is entered after it, the process is blocked until the
      scheduler is called at a time above time + now, wrapped to 32 bits, and finds it first among the
      sleepers. */
  lemma SleepLasts(run: seq<Sys>, events: seq<Event>, time: nat, now: nat, net: bool, n: nat) returns (i: nat)
    requires IsRun(run, events) && Inv(run[0]) && run[0].current != 0 && 0 < n < |run|
    requires events[0] == DoSleep(time, now, net) && Untouched(run, events, SLEEP_QUEUE) && AwakeBy(run, run[0].current, n)
    ensures i < n && Enabled(run[i], events[i]) && Calls(run[i], events[i]) && events[i].now > (time + now) % WORD
    ensures At(Before(run[i], events[i]), run[0].current, SLEEP_QUEUE, 0) && !AwakeBy(run, run[0].current, i)
  {
    var x, a := run[0].current, (time + now) % WORD;
    var out, k := AfterSleep(run[0], time, now, net);
    i := 0;
    if !out { i := SleepsOn(run, events, run[1..], events[1..], x, k, a, n); }
  }

  /** SleepsUntil of a process that sleeps after the first entry. */
  lemma SleepsOn(run: seq<Sys>, events: seq<Event>, r: seq<Sys>, es: seq<Event>, x: Pid, k: nat, a: nat, n: nat) returns (i: nat)
    requires IsRun(run, events) && Inv(run[0]) && 0 < n < |run| && Untouched(run, events, SLEEP_QUEUE) && r == run[1..] && es == events[1..]
    requires AwakeBy(run, x, n) && Sits(run[1], x, SLEEP_QUEUE, k, a)
    ensures i < n && Enabled(run[i], events[i]) && Calls(run[i], events[i]) && events[i].now > a
    ensures At(Before(run[i], events[i]), x, SLEEP_QUEUE, 0) && !AwakeBy(run, x, i)
  {
    RestSleeps(run, events, r, es, x, k, a, n);
    var j := SleepsUntil(r, es, x, k, a, n - 1);
    i := j + 1;
    assert r[j] == run[i] && es[j] == events[i];
    NotBefore(run, r, x, j);
  }

  lemma NotBefore(run: seq<Sys>, r: seq<Sys>, x: Pid, j: nat)
    requires j + 1 < |run| && r == run[1..] && !AwakeBy(r, x, j) && (|run[1].procs| == NUM_MAX_TASK ==> run[1].procs[x].status == Blocked)
    ensures !AwakeBy(run, x, j + 1)
  {
    forall m | 0 < m <= j + 1 ensures !(|run[m].procs| == NUM_MAX_TASK && run[m].procs[x].status != Blocked) {
      if m > 1 { assert r[m - 1] == run[m]; }
    }
  }

  /** What SleepsUntil asks of the run that begins after the first entry. */
  lemma RestSleeps(run: seq<Sys>, events: seq<Event>, r: seq<Sys>, es: seq<Event>, x: Pid, k: nat, a: nat, n: nat)
    requires IsRun(run, events) && Inv(run[0]) && 0 < n < |run| && Untouched(run, events, SLEEP_QUEUE) && r == run[1..] && es == events[1..]
    requires AwakeBy(run, x, n) && Sits(run[1], x, SLEEP_QUEUE, k, a)
    ensures IsRun(r, es) && Inv(r[0]) && Untouched(r, es, SLEEP_QUEUE) && AwakeBy(r, x, n - 1)
  {
    RunKeepsPlacement(run, events, 1);
    RestOfRun(run, events, 1, r, es);
    forall j | 0 <= j < |es| ensures !Frees(r[j], es[j], SLEEP_QUEUE) {
      assert !Frees(run[j + 1], events[j + 1], SLEEP_QUEUE);
    }
    var m :| 0 < m <= n && |run[m].procs| == NUM_MAX_TASK && run[m].procs[x].status != Blocked;
    assert r[m - 1] == run[m];
  }

  lemma RestOfRun(run: seq<Sys>, events: seq<Event>, m: nat, r: seq<Sys>, es: seq<Event>)
    requires IsRun(run, events) && m < |run| && r == run[m..] && es == events[m..]
    ensures IsRun(r, es)
  {
    forall i | 0 <= i < |es| ensures Enabled(r[i], es[i]) && r[i + 1] == Apply(r[i], es[i]) {
      assert r[i] == run[m + i] && r[i + 1] == run[m + i + 1] && es[i] == events[m + i];
    }
  }

  // ---------------------------------------------------------------- waiting for an exit

  /** do_waitpid blocks behind the others that wait for the same process; with a number that is no live
      process it changes nothing. */
  lemma WaitSits(s: Sys, pid: int, now: nat, net: bool)
    requires Inv(s) && s.current != 0
    ensures
      var t := WaitPid(s, pid, now, net);
      if 0 < pid < NUM_MAX_TASK && s.procs[pid].status.Live()
      then Sits(t, s.current, FIRST_WAIT_QUEUE + pid, |s.queues[FIRST_WAIT_QUEUE + pid]|, s.procs[s.current].awake)
      else t == s
  {
    if 0 < pid < NUM_MAX_TASK && s.procs[pid].status.Live() {
      var q := FIRST_WAIT_QUEUE + pid;
      HeldIsUnqueued(s, multiset{s.current}, s.current);
      AfterBlockCurrent(s, q);
      WaitBlocks(s, pid, now, net);
      CallMoves(BlockCurrent(s, q), now, net, s.current, q, |s.queues[q]|, s.procs[s.current].awake);
    }
  }

  lemma {:induction false} UnblockAllWakes(s: Sys, hand: multiset<Pid>, q: nat, x: Pid, k: nat)
    requires Settled(s, hand) && MAX_PRIORITY_NUM <= q && At(s, x, q, k)
    ensures UnblockAll(s, q).procs[x].status == Running
    decreases |s.queues[q]|
  {
    AfterUnblockOne(s, hand, q);
    UnblocksHead(s, hand, q);
    var t := UnblockOne(s, q);
    if k == 0 {
      AfterUnblockAll(t, hand, q);
    } else {
      UnblockAllWakes(t, hand, q, x, k - 1);
    }
  }

  lemma ExitWakes(s: Sys, held: seq<nat>, x: Pid, k: nat, a: nat)
    requires Inv(s) && Enabled(s, DoExit(held, 0, false)) && Sits(s, x, FIRST_WAIT_QUEUE + s.current, k, a)
    requires FIRST_WAIT_QUEUE + s.current !in held
    ensures ExitCurrent(s, held).procs[x].status == Running
  {
    var q, t := FIRST_WAIT_QUEUE + s.current, WithProc(s, s.current, Proc(Exited, 1, WORD - 1));
    RunningIsNotQueued(s, x, q, k);
    ExitSettles(s, t);
    ReleaseAllSpares(t, multiset{}, held, x, q, k, a);
    UnblockAllWakes(ReleaseAll(t, held), multiset{}, q, x, k);
  }

  /** A scheduler call blocks nobody. */
  lemma CallBlocksNobody(b: Sys, now: nat, net: bool, x: Pid)
    requires Schedulable(b) && b.procs[x].status == Running
    ensures |Schedule(b, now, net).procs| == NUM_MAX_TASK && Schedule(b, now, net).procs[x].status != Blocked
  {
    var (idx, u) := Select(b);
    TypedWithoutChange(b, u);
    if b.queues[idx] == [] {
      NothingToDispatch(u, idx, now, net);
    } else {
      DispatchBlocksNobody(u, idx, now, net, x);
    }
  }

  lemma DispatchBlocksNobody(u: Sys, idx: nat, now: nat, net: bool, x: Pid)
    requires Schedulable(u) && idx < MAX_PRIORITY_NUM && u.queues[idx] != [] && u.procs[x].status == Running
    ensures |Dispatch(u, idx, now, net).procs| == NUM_MAX_TASK && Dispatch(u, idx, now, net).procs[x].status != Blocked
  {
    NoExited(u, idx);
    AfterTakeTop(u, idx);
    var v := Requeue(TakeTop(u, idx, u.queues[idx]));
    AfterChecks(v, multiset{u.queues[idx][0]}, now, net);
    assert v.procs[x].status != Blocked;
  }

  /** The entry wakes processes in queue q as do_unblock does, other than by the exit of the process that
      the queue belongs to. */
  predicate Pries(e: Event, q: nat) {
    match e
    case DoUnblockOne(r) => r == q
    case DoUnblockAll(r) => r == q
    case DoExit(held, _, _) => q in held
    case _ => false
  }

  predicate ExitOf(s: Sys, e: Event, pid: Pid) { e.DoExit? && s.current == pid }

  lemma EntryWaits(s: Sys, e: Event, t: Sys, x: Pid, pid: Pid, k: nat, a: nat)
    requires Follows(s, e, t) && Sits(s, x, FIRST_WAIT_QUEUE + pid, k, a) && !Pries(e, FIRST_WAIT_QUEUE + pid)
    ensures if ExitOf(s, e, pid) then |t.procs| == NUM_MAX_TASK && t.procs[x].status != Blocked else Sits(t, x, FIRST_WAIT_QUEUE + pid, k, a)
  {
    assert Open(Seal);
    var q := FIRST_WAIT_QUEUE + pid;
    if ExitOf(s, e, pid) {
      ExitWakes(s, e.held, x, k, a);
      AfterExit(s, e.held);
      CallBlocksNobody(ExitCurrent(s, e.held), e.now, e.net, x);
    } else if Calls(s, e) {
      BeforeSpares(s, e, x, q, k, a);
      BeforeSchedules(s, e);
      ThenSchedules(s, e);
      CallMoves(Before(s, e), e.now, e.net, x, q, k, a);
    } else {
      OthersSpare(s, e, x, q, k, a);
    }
  }

  lemma {:induction false} WaitsSoFar(run: seq<Sys>, events: seq<Event>, x: Pid, pid: Pid, k: nat, a: nat, n: nat)
    requires ARun(run, events) && Sits(run[0], x, FIRST_WAIT_QUEUE + pid, k, a) && n < |run|
    requires forall i :: 0 <= i < n ==> !Pries(events[i], FIRST_WAIT_QUEUE + pid) && !ExitOf(run[i], events[i], pid)
    ensures Sits(run[n], x, FIRST_WAIT_QUEUE + pid, k, a)
  {
    if n > 0 {
      WaitsSoFar(run, events, x, pid, k, a, n - 1);
      OneEntry(run, events, n);
      EntryWaits(run[n - 1], events[n - 1], run[n], x, pid, k, a);
    }
  }

  lemma FirstExit(run: seq<Sys>, events: seq<Event>, pid: Pid, n: nat) returns (i: nat)
    requires n <= |events| && |events| <= |run| && exists j :: 0 <= j < n && ExitOf(run[j], events[j], pid)
    ensures i < n && ExitOf(run[i], events[i], pid) && forall j :: 0 <= j < i ==> !ExitOf(run[j], events[j], pid)
  {
    i := 0;
    while !ExitOf(run[i], events[i], pid)
      invariant i < n && forall j :: 0 <= j < i ==> !ExitOf(run[j], events[j], pid)
      decreases n - i
    {
      i := i + 1;
    }
  }

  /** A process that waits for another is awake within n entries if and only if that one has exited. */
  lemma WaitsForExit(run: seq<Sys>, events: seq<Event>, x: Pid, pid: Pid, k: nat, a: nat, n: nat)
    requires IsRun(run, events) && Inv(run[0]) && Sits(run[0], x, FIRST_WAIT_QUEUE + pid, k, a) && n < |run|
    requires forall i :: 0 <= i < n ==> !Pries(events[i], FIRST_WAIT_QUEUE + pid)
    ensures AwakeBy(run, x, n) <==> exists i :: 0 <= i < n && ExitOf(run[i], events[i], pid)
  {
    if exists j :: 0 <= j < n && ExitOf(run[j], events[j], pid) {
      var i := FirstExit(run, events, pid, n);
      WaitsSoFar(run, events, x, pid, k, a, i);
      OneEntry(run, events, i + 1);
      EntryWaits(run[i], events[i], run[i + 1], x, pid, k, a);
    } else {
      forall m | 0 < m <= n ensures !(|run[m].procs| == NUM_MAX_TASK && run[m].procs[x].status != Blocked) {
        WaitsSoFar(run, events, x, pid, k, a, m);
      }
    }
  }

  /** do_waitpid does not refuse the caller's own number: such a process is blocked for good. */
  lemma WaitsForItself(run: seq<Sys>, events: seq<Event>, x: Pid, k: nat, a: nat, n: nat)
    requires IsRun(run, events) && Inv(run[0]) && Sits(run[0], x, FIRST_WAIT_QUEUE + x, k, a) && n < |run|
    requires forall i :: 0 <= i < n ==> !Pries(events[i], FIRST_WAIT_QUEUE + x)
    ensures !AwakeBy(run, x, n)
  {
    WaitsForExit(run, events, x, x, k, a, n);
    if exists j :: 0 <= j < n && ExitOf(run[j], events[j], x) {
      var i := FirstExit(run, events, x, n);
      WaitsSoFar(run, events, x, x, k, a, i);
      RunKeepsPlacement(run, events, i);
      assert false;
    }
  }
}
