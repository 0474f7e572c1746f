/** How long a ready process can wait: ready queue 0 is served within a fixed number of
    scheduler calls, the other priorities can starve. */
module Waiting {
  import opened Sealing
  import opened Counting
  import opened Scheduler
  import opened Placement
  import opened Runs

  /** Does this entry reach the scheduler? */
  predicate Calls(s: Sys, e: Event)
    requires |s.procs| == NUM_MAX_TASK
  {
    match e
    case Tick(_, _) => true
    case DoBlock(_, _, _) => true
    case DoSleep(_, _, _) => true
    case DoWait(pid, _, _) => 0 < pid < NUM_MAX_TASK && s.procs[pid].status.Live()
    case DoExit(_, _, _) => true
    case _ => false
  }

  /** Every queue below five of t starts with that of s: nothing is taken out or reordered. */
  ghost predicate Grows(s: Sys, t: Sys) {
    && |s.queues| >= MAX_PRIORITY_NUM && |t.queues| >= MAX_PRIORITY_NUM
    && forall r :: 0 <= r < MAX_PRIORITY_NUM ==> s.queues[r] <= t.queues[r]
  }

  lemma WakeGrows(s: Sys, p: Pid)
    requires WellFormed(s)
    ensures Grows(s, Wake(s, p))
  {
  }

  lemma UnblockOneGrows(s: Sys, q: nat)
    requires WellFormed(s) && MAX_PRIORITY_NUM <= q < |s.queues|
    ensures Grows(s, UnblockOne(s, q))
  {
    var c := DropExited(s.procs, s.queues[q]);
    if c != [] { WakeGrows(WithQueue(s, q, c[1..]), c[0]); }
  }

  lemma {:induction false} UnblockAllGrows(s: Sys, q: nat)
    requires WellFormed(s) && MAX_PRIORITY_NUM <= q < |s.queues|
    ensures Grows(s, UnblockAll(s, q)) && UnblockAll(s, q).schedCnt == s.schedCnt && UnblockAll(s, q).lastSel == s.lastSel
    decreases |s.queues[q]|
  {
    if s.queues[q] != [] {
      UnblockOneGrows(s, q);
      UnblockAllGrows(UnblockOne(s, q), q);
    }
  }

  lemma {:induction false} ReleaseAllGrows(s: Sys, held: seq<nat>)
    requires WellFormed(s) && AreQueues(s, held) && forall i :: 0 <= i < |held| ==> MAX_PRIORITY_NUM <= held[i]
    ensures Grows(s, ReleaseAll(s, held)) && ReleaseAll(s, held).schedCnt == s.schedCnt
    ensures ReleaseAll(s, held).lastSel == s.lastSel
    decreases |held|
  {
    if held != [] {
      UnblockOneGrows(s, held[0]);
      ReleaseAllGrows(UnblockOne(s, held[0]), held[1..]);
    }
  }

  /** The part of a scheduling entry that comes before the scheduler. */
  ghost function Before(s: Sys, e: Event): Sys
    requires Enabled(s, e) && Calls(s, e)
  {
    match e
    case Tick(_, _) => s
    case DoBlock(q, _, _) => BlockCurrent(s, q)
    case DoSleep(t, now, _) =>
      BlockCurrent(WithProc(s, s.current, s.procs[s.current].(awake := (t + now) % WORD)), SLEEP_QUEUE)
    case DoWait(pid, _, _) => BlockCurrent(s, FIRST_WAIT_QUEUE + pid)
    case DoExit(held, _, _) => ExitCurrent(s, held)
  }

  lemma BlockCurrentGrows(s: Sys, q: nat)
    requires WellFormed(s) && MAX_PRIORITY_NUM <= q < |s.queues|
    ensures BlockCurrent(s, q).queues[..MAX_PRIORITY_NUM] == s.queues[..MAX_PRIORITY_NUM]
    ensures BlockCurrent(s, q).schedCnt == s.schedCnt && BlockCurrent(s, q).lastSel == s.lastSel
  {
  }

  lemma SameGrows(s: Sys, t: Sys)
    requires |s.queues| >= MAX_PRIORITY_NUM && |t.queues| >= MAX_PRIORITY_NUM
    requires t.queues[..MAX_PRIORITY_NUM] == s.queues[..MAX_PRIORITY_NUM]
    ensures Grows(s, t)
  {
    forall r | 0 <= r < MAX_PRIORITY_NUM ensures s.queues[r] <= t.queues[r] {
      assert s.queues[r] == s.queues[..MAX_PRIORITY_NUM][r] == t.queues[..MAX_PRIORITY_NUM][r];
    }
  }

  lemma ExitGrows(s: Sys, held: seq<nat>)
    requires Enabled(s, DoExit(held, 0, false))
    ensures Grows(s, ExitCurrent(s, held))
    ensures ExitCurrent(s, held).schedCnt == s.schedCnt && ExitCurrent(s, held).lastSel == s.lastSel
  {
    var t := WithProc(s, s.current, Proc(Exited, 1, WORD - 1));
    ReleaseAllGrows(t, held);
    UnblockAllGrows(ReleaseAll(t, held), FIRST_WAIT_QUEUE + s.current);
  }

  lemma BeforeGrows(s: Sys, e: Event)
    requires Inv(s) && Enabled(s, e) && Calls(s, e)
    ensures Grows(s, Before(s, e))
    ensures Before(s, e).schedCnt == s.schedCnt && Before(s, e).lastSel == s.lastSel
    ensures !e.DoExit? ==> |Before(s, e).queues| >= MAX_PRIORITY_NUM
                           && Before(s, e).queues[..MAX_PRIORITY_NUM] == s.queues[..MAX_PRIORITY_NUM]
  {
    match e {
      case Tick(_, _) => 
      case DoBlock(q, _, _) => BlockCurrentGrows(s, q);
      case DoSleep(t, now, _) =>
        BlockCurrentGrows(WithProc(s, s.current, s.procs[s.current].(awake := (t + now) % WORD)), SLEEP_QUEUE);
      case DoWait(pid, _, _) => BlockCurrentGrows(s, FIRST_WAIT_QUEUE + pid);
      case DoExit(held, _, _) => ExitGrows(s, held);
    }
    if !e.DoExit? { SameGrows(s, Before(s, e)); }
  }

  lemma BeforeSchedules(s: Sys, e: Event)
    requires Inv(s) && Enabled(s, e) && Calls(s, e)
    ensures Schedulable(Before(s, e))
  {
    match e {
      case Tick(_, _) => assert Before(s, e) == s;
      case DoBlock(q, _, _) => BlockSchedules(s, q, Before(s, e));
      case DoSleep(t, now, _) => SleepSchedules(s, t, now);
      case DoWait(pid, _, _) => BlockSchedules(s, FIRST_WAIT_QUEUE + pid, Before(s, e));
      case DoExit(held, now, net) => ExitSchedules(s, held, now, net);
    }
  }

  lemma BlockSchedules(s: Sys, q: nat, t: Sys)
    requires Inv(s) && s.current != 0 && MAX_PRIORITY_NUM <= q < |s.queues| && t == BlockCurrent(s, q)
    ensures Schedulable(t)
  {
    AfterBlockCurrent(s, q);
  }

  lemma ExitSchedules(s: Sys, held: seq<nat>, now: nat, net: bool)
    requires Inv(s) && Enabled(s, DoExit(held, now, net))
    ensures Schedulable(Before(s, DoExit(held, now, net)))
  {
    AfterExit(s, held);
  }

  lemma SleepSchedules(s: Sys, t: nat, now: nat)
    requires Inv(s) && s.current != 0
    ensures
      var u := WithProc(s, s.current, s.procs[s.current].(awake := (t + now) % WORD));
      WellFormed(u) && Schedulable(BlockCurrent(u, SLEEP_QUEUE))
  {
    var x := s.procs[s.current].(awake := (t + now) % WORD);
    AfterHeldUpdate(s, multiset{s.current}, s.current, x);
    AfterBlockCurrent(WithProc(s, s.current, x), SLEEP_QUEUE);
  }

  lemma ThenSchedules(s: Sys, e: Event)
    requires Enabled(s, e) && Calls(s, e)
    ensures WellFormed(Before(s, e)) && Apply(s, e) == Schedule(Before(s, e), e.now, e.net)
  {
    match e {
      case Tick(_, _) => ThenTick(s, e);
      case DoBlock(_, _, _) => ThenBlock(s, e);
      case DoSleep(_, _, _) => ThenSleep(s, e);
      case DoWait(_, _, _) => ThenWait(s, e);
      case DoExit(_, _, _) => ThenExit(s, e);
    }
  }

  lemma ThenTick(s: Sys, e: Event)
    requires Enabled(s, e) && Calls(s, e) && e.Tick?
    ensures WellFormed(Before(s, e)) && Apply(s, e) == Schedule(Before(s, e), e.now, e.net)
  {
  }

  lemma ThenBlock(s: Sys, e: Event)
    requires Enabled(s, e) && Calls(s, e) && e.DoBlock?
    ensures WellFormed(Before(s, e)) && Apply(s, e) == Schedule(Before(s, e), e.now, e.net)
  {
  }

  lemma ThenSleep(s: Sys, e: Event)
    requires Enabled(s, e) && Calls(s, e) && e.DoSleep?
    ensures WellFormed(Before(s, e)) && Apply(s, e) == Schedule(Before(s, e), e.now, e.net)
  {
    SleepBlocks(s, e.time, e.now, e.net);
  }

  lemma ThenWait(s: Sys, e: Event)
    requires Enabled(s, e) && Calls(s, e) && e.DoWait?
    ensures WellFormed(Before(s, e)) && Apply(s, e) == Schedule(Before(s, e), e.now, e.net)
  {
    WaitBlocks(s, e.pid, e.now, e.net);
    assert Before(s, e) == BlockCurrent(s, FIRST_WAIT_QUEUE + e.pid);
    assert Apply(s, e) == WaitPid(s, e.pid, e.now, e.net);
  }

  lemma WaitBlocks(s: Sys, pid: int, now: nat, net: bool)
    requires WellFormed(s) && 0 < pid < NUM_MAX_TASK && s.procs[pid].status.Live()
    ensures
      var t := BlockCurrent(s, FIRST_WAIT_QUEUE + pid);
      WellFormed(t) && WaitPid(s, pid, now, net) == Schedule(t, now, net)
  {
  }

  lemma ThenExit(s: Sys, e: Event)
    requires Enabled(s, e) && Calls(s, e) && e.DoExit?
    ensures WellFormed(Before(s, e)) && Apply(s, e) == Schedule(Before(s, e), e.now, e.net)
  {
  }

  lemma SleepBlocks(s: Sys, t: nat, now: nat, net: bool)
    requires WellFormed(s)
    ensures
      var u := WithProc(s, s.current, s.procs[s.current].(awake := (t + now) % WORD));
      WellFormed(BlockCurrent(u, SLEEP_QUEUE)) && Sleep(s, t, now, net) == Schedule(BlockCurrent(u, SLEEP_QUEUE), now, net)
  {
  }

  lemma OthersGrow(s: Sys, e: Event)
    requires Inv(s) && Enabled(s, e) && !Calls(s, e)
    ensures Grows(s, Apply(s, e)) && Apply(s, e).schedCnt == s.schedCnt && Apply(s, e).lastSel == s.lastSel
  {
    match e {
      case DoUnblockAll(q) => UnblockAllGrows(s, q);
      case DoUnblockOne(q) => UnblockOneGrows(s, q);
      case _ =>
    }
  }

  lemma ChecksGrow(s: Sys, now: nat, net: bool)
    requires WellFormed(s)
    ensures Grows(s, Checks(s, now, net))
    ensures Checks(s, now, net).schedCnt == s.schedCnt && Checks(s, now, net).lastSel == s.lastSel
  {
    var t := CheckSleeping(s, now);
    var c := s.queues[SLEEP_QUEUE];
    if c != [] && now > s.procs[c[0]].awake {
      var u := WithQueue(s, SLEEP_QUEUE, c[1..]);
      WakeGrows(WithProc(u, c[0], u.procs[c[0]].(awake := 0)), c[0]);
    }
    assert Grows(s, t);
    var d := t.queues[RECV_QUEUE];
    if d != [] && net { WakeGrows(WithQueue(t, RECV_QUEUE, d[1..]), d[0]); }
  }

  lemma RequeueGrows(s: Sys)
    requires WellFormed(s)
    ensures Grows(s, Requeue(s))
    ensures Requeue(s).schedCnt == s.schedCnt && Requeue(s).lastSel == s.lastSel
  {
  }

  /** Dispatching takes the head of the chosen queue and nothing else. */
  lemma DispatchTakes(s: Sys, idx: nat, now: nat, net: bool)
    requires Schedulable(s) && idx < MAX_PRIORITY_NUM && s.queues[idx] != []
    ensures
      var t := Dispatch(s, idx, now, net);
      && t.current == s.queues[idx][0] && t.schedCnt == s.schedCnt && t.lastSel == s.lastSel
      && Grows(s.(queues := s.queues[idx := s.queues[idx][1..]]), t)
  {
    NoExited(s, idx);
    var u := TakeTop(s, idx, s.queues[idx]);
    RequeueGrows(u);
    ChecksGrow(Requeue(u), now, net);
  }

  /** The head of the chosen queue gets the processor; the process that had it, if it can go on, stands
      behind all that were in the ready queue of its priority. */
  lemma HandsOver(s: Sys, idx: nat, now: nat, net: bool)
    requires Schedulable(s) && idx < MAX_PRIORITY_NUM && s.queues[idx] != []
    ensures
      var t := Dispatch(s, idx, now, net);
      var rest := s.queues[idx := s.queues[idx][1..]];
      var me := s.procs[s.current];
      && t.current == s.queues[idx][0] && |t.queues| >= MAX_PRIORITY_NUM
      && (me.status.Runnable() ==> rest[me.priority] + [s.current] <= t.queues[me.priority])
      && forall r :: 0 <= r < MAX_PRIORITY_NUM ==> rest[r] <= t.queues[r]
  {
    NoExited(s, idx);
    AfterTakeTop(s, idx);
    var u := TakeTop(s, idx, s.queues[idx]);
    RequeueGrows(u);
    ChecksGrow(Requeue(u), now, net);
  }

  lemma NothingToDispatch(s: Sys, idx: nat, now: nat, net: bool)
    requires Schedulable(s) && idx < MAX_PRIORITY_NUM && s.queues[idx] == []
    ensures Dispatch(s, idx, now, net) == s
  {
    NoExited(s, idx);
    assert s.queues[idx := []] == s.queues;
  }

  /** One call removes at most the head of the queue it chose, and runs it. */
  lemma ScheduleTakes(s: Sys, now: nat, net: bool)
    requires Schedulable(s)
    ensures
      var (idx, u) := Select(s);
      var t := Schedule(s, now, net);
      && t.schedCnt == u.schedCnt && t.lastSel == u.lastSel
      && (s.queues[idx] == [] ==> t.queues == s.queues)
      && (s.queues[idx] != [] ==> t.current == s.queues[idx][0]
                                  && Grows(s.(queues := s.queues[idx := s.queues[idx][1..]]), t))
  {
    var (idx, u) := Select(s);
    TypedWithoutChange(s, u);
    if s.queues[idx] == [] {
      NothingToDispatch(u, idx, now, net);
    } else {
      DispatchTakes(u, idx, now, net);
    }
  }

  // ---------------------------------------------------------------- bounded waiting

  /** Scheduler calls that are enough for position k of ready queue 0. */
  ghost function Distance(s: Sys, k: nat): int { SCHED_BOUND * k + (SCHED_BOUND - s.schedCnt) }

  lemma StepApproaches(s: Sys, e: Event, x: Pid, k: nat) returns (j: nat)
    requires Inv(s) && Enabled(s, e) && At(s, x, 0, k)
    ensures Apply(s, e).current == x || At(Apply(s, e), x, 0, j)
    ensures Apply(s, e).current != x ==>
              Distance(Apply(s, e), j) <= Distance(s, k) - (if Calls(s, e) then 1 else 0)
  {
    j := k;
    if Calls(s, e) {
      BeforeGrows(s, e);
      BeforeSchedules(s, e);
      ThenSchedules(s, e);
      var b := Before(s, e);
      assert b.queues[0][k] == x;
      j := CallApproaches(b, e.now, e.net, x, k);
    } else {
      OthersGrow(s, e);
    }
  }

  lemma CallApproaches(b: Sys, now: nat, net: bool, x: Pid, k: nat) returns (j: nat)
    requires Schedulable(b) && At(b, x, 0, k)
    ensures Schedule(b, now, net).current == x || At(Schedule(b, now, net), x, 0, j)
    ensures Schedule(b, now, net).current != x ==> Distance(Schedule(b, now, net), j) <= Distance(b, k) - 1
  {
    j := k;
    ScheduleTakes(b, now, net);
    var idx := Select(b).0;
    if idx == 0 && k > 0 {
      j := k - 1;
      assert b.queues[0 := b.queues[0][1..]][0][j] == x;
    }
  }

  ghost function CallCount(run: seq<Sys>, events: seq<Event>): nat
    requires IsRun(run, events)
    decreases |events|
  {
    if events == [] then 0 else
    (if Calls(run[0], events[0]) then 1 else 0) + CallCount(run[1..], events[1..])
  }

  /** Whatever happens in between, a process at position k of ready queue 0 runs within
      5(k+1) scheduler calls; the exact bound counts from the calls since the last reset. */
  lemma {:induction false} BoundedWaiting(run: seq<Sys>, events: seq<Event>, x: Pid, k: nat) returns (m: nat)
    requires IsRun(run, events) && Inv(run[0]) && At(run[0], x, 0, k)
    requires CallCount(run, events) >= Distance(run[0], k)
    ensures m < |run| && run[m].current == x
    ensures Distance(run[0], k) <= SCHED_BOUND * (k + 1)
    decreases |events|
  {
    var j := StepApproaches(run[0], events[0], x, k);
    StepKeepsPlacement(run[0], events[0]);
    if run[1].current == x {
      m := 1;
    } else {
      var n := BoundedWaiting(run[1..], events[1..], x, j);
      m := n + 1;
    }
  }

  // ---------------------------------------------------------------- the other priorities

  /** The guard under which a scheduler call takes the head of ready queue r, for r from 1 to 4. */
  ghost predicate Serves(b: Sys, r: nat)
    requires WellFormed(b) && r < MAX_PRIORITY_NUM
  {
    var i := Scan(b.counter, b.upper, b.lastSel);
    b.schedCnt + 1 < SCHED_BOUND && b.queues[r] != [] && (i == r || (i == MAX_PRIORITY_NUM && r == 1))
  }

  lemma CallServes(b: Sys, now: nat, net: bool, r: nat)
    requires Schedulable(b) && 1 <= r < MAX_PRIORITY_NUM
    ensures |Schedule(b, now, net).queues| >= MAX_PRIORITY_NUM
    ensures Serves(b, r) ==> Schedule(b, now, net).current == b.queues[r][0] && b.queues[r][1..] <= Schedule(b, now, net).queues[r]
    ensures !Serves(b, r) ==> b.queues[r] <= Schedule(b, now, net).queues[r]
  {
    ScheduleTakes(b, now, net);
  }

  /** The entry reaches the scheduler in a state that serves r. */
  ghost predicate ServedBy(s: Sys, e: Event, r: nat)
    requires r < MAX_PRIORITY_NUM
  {
    forall x: Seal {:trigger Open(x)} :: Open(x) ==>
      Enabled(s, e) && Calls(s, e) && Inv(s) && (BeforeSchedules(s, e); Serves(Before(s, e), r))
  }

  /** One entry from a placed state, taken as a whole. */
  ghost predicate Follows(s: Sys, e: Event, t: Sys) {
    forall x: Seal {:trigger Open(x)} :: Open(x) ==> Inv(s) && Enabled(s, e) && t == Apply(s, e)
  }

  lemma StepServes(s: Sys, e: Event, t: Sys, x: Pid, r: nat, k: nat)
    requires Follows(s, e, t) && 1 <= r < MAX_PRIORITY_NUM && At(s, x, r, k)
    ensures !ServedBy(s, e, r) ==> At(t, x, r, k) && t.current != x
    ensures ServedBy(s, e, r) && k > 0 ==> At(t, x, r, k - 1) && t.current != x
    ensures ServedBy(s, e, r) && k == 0 ==> t.current == x
  {
    ApplyServes(s, e, t, x, r, k);
    if !ServedBy(s, e, r) {
      RunningIsNotQueued(t, x, r, k);
    } else if k > 0 {
      RunningIsNotQueued(t, x, r, k - 1);
    }
  }

  lemma ApplyServes(s: Sys, e: Event, t: Sys, x: Pid, r: nat, k: nat)
    requires Follows(s, e, t) && 1 <= r < MAX_PRIORITY_NUM && At(s, x, r, k)
    ensures Inv(t)
    ensures !ServedBy(s, e, r) ==> At(t, x, r, k)
    ensures ServedBy(s, e, r) && k > 0 ==> At(t, x, r, k - 1)
    ensures ServedBy(s, e, r) && k == 0 ==> t.current == x
  {
    assert Open(Seal);
    StepKeepsPlacement(s, e);
    if Calls(s, e) {
      BeforeGrows(s, e);
      BeforeSchedules(s, e);
      ThenSchedules(s, e);
      var b := Before(s, e);
      assert b.queues[r][k] == x;
      CallServes(b, e.now, e.net, r);
    } else {
      OthersGrow(s, e);
    }
  }

  lemma RunningIsNotQueued(s: Sys, x: Pid, r: nat, k: nat)
    requires Inv(s) && At(s, x, r, k)
    ensures s.current != x
  {
    ExactlyOnePlace(s, x);
  }

  /** For every entry of a run: does it serve r? */
  ghost function Servings(run: seq<Sys>, events: seq<Event>, r: nat): seq<bool>
    requires |events| <= |run| && r < MAX_PRIORITY_NUM
  {
    seq(|events|, i requires 0 <= i < |events| => ServedBy(run[i], events[i], r))
  }

  /** After n entries the process has moved up by the calls served, or has run. */
  ghost predicate MovedUp(run: seq<Sys>, x: Pid, r: nat, k: nat, served: nat, n: nat)
    requires n < |run|
  {
    if served <= k then At(run[n], x, r, k - served) && run[n].current != x else exists m :: 0 < m <= n && run[m].current == x
  }

  /** A run from a placed state, taken as a whole. */
  ghost predicate ARun(run: seq<Sys>, events: seq<Event>) {
    |run| == |events| + 1 && forall x: Seal {:trigger Open(x)} :: Open(x) ==> IsRun(run, events) && Inv(run[0])
  }

  /** The same with what every entry serves. */
  ghost predicate AServedRun(run: seq<Sys>, events: seq<Event>, r: nat, b: seq<bool>) {
    && |run| == |events| + 1 == |b| + 1 && r < MAX_PRIORITY_NUM
    && forall x: Seal {:trigger Open(x)} :: Open(x) ==> ARun(run, events) && b == Servings(run, events, r)
  }

  /** One entry of the run, for a process at position i of queue r. */
  lemma RunMoves(run: seq<Sys>, events: seq<Event>, b: seq<bool>, n: nat, x: Pid, r: nat, i: nat)
    requires AServedRun(run, events, r, b) && 0 < n < |run| && 1 <= r && At(run[n - 1], x, r, i)
    ensures !b[n - 1] ==> At(run[n], x, r, i) && run[n].current != x
    ensures b[n - 1] && i > 0 ==> At(run[n], x, r, i - 1) && run[n].current != x
    ensures b[n - 1] && i == 0 ==> run[n].current == x
  {
    assert Open(Seal);
    OneEntry(run, events, n);
    StepServes(run[n - 1], events[n - 1], run[n], x, r, i);
  }

  lemma OneEntry(run: seq<Sys>, events: seq<Event>, n: nat)
    requires ARun(run, events) && 0 < n < |run|
    ensures Follows(run[n - 1], events[n - 1], run[n])
  {
    assert Open(Seal);
    RunKeepsPlacement(run, events, n - 1);
    assert run[n - 1 + 1] == Apply(run[n - 1], events[n - 1]);
  }

  lemma FirstPlace(run: seq<Sys>, events: seq<Event>, x: Pid, r: nat, k: nat)
    requires ARun(run, events) && At(run[0], x, r, k)
    ensures run[0].current != x
  {
    assert Open(Seal);
    RunningIsNotQueued(run[0], x, r, k);
  }

  lemma {:induction false} ServedSoFar(run: seq<Sys>, events: seq<Event>, b: seq<bool>, x: Pid, r: nat, k: nat, n: nat)
    requires AServedRun(run, events, r, b) && 1 <= r && At(run[0], x, r, k) && run[0].current != x && n < |run|
    ensures MovedUp(run, x, r, k, Count(b, n), n)
  {
    if n > 0 {
      ServedSoFar(run, events, b, x, r, k, n - 1);
      var i := Count(b, n - 1);
      if i <= k {
        RunMoves(run, events, b, n, x, r, k - i);
      } else {
        var m :| 0 < m <= n - 1 && run[m].current == x;
        assert 0 < m <= n && run[m].current == x;
      }
    }
  }

  /** Fairness, exactly: a process at position k of ready queue r, for r from 1 to 4, gets to run
      within n entries if and only if more than k scheduler calls among them meet the guard for r. */
  lemma {:induction false} ServedExactly(run: seq<Sys>, events: seq<Event>, x: Pid, r: nat, k: nat, n: nat)
    requires IsRun(run, events) && Inv(run[0]) && 1 <= r < MAX_PRIORITY_NUM && At(run[0], x, r, k) && n < |run|
    ensures (exists m :: 0 < m <= n && run[m].current == x) <==> Count(Servings(run, events, r), n) > k
  {
    var b := Servings(run, events, r);
    FirstPlace(run, events, x, r, k);
    ServedSoFar(run, events, b, x, r, k, n);
    if Count(b, n) <= k {
      forall m | 0 < m <= n ensures run[m].current != x {
        CountGrows(b, m, n);
        ServedSoFar(run, events, b, x, r, k, m);
      }
    }
  }

  // ---------------------------------------------------------------- the selection index

  /** All counters from the last selection on are used up, so that they are reset, and queue 1 has
      somebody to go on with. */
  ghost predicate Turns(b: Sys)
    requires WellFormed(b)
  {
    Scan(b.counter, b.upper, b.lastSel) == MAX_PRIORITY_NUM && b.schedCnt + 1 < SCHED_BOUND && b.queues[1] != []
  }

  /** The index selected last falls if and only if the call meets this guard; then it falls to 1. */
  lemma SelectionFalls(b: Sys, now: nat, net: bool)
    requires Schedulable(b) && b.lastSel > 1
    ensures Schedule(b, now, net).lastSel < b.lastSel <==> Turns(b)
    ensures Turns(b) ==> Schedule(b, now, net).lastSel == 1
  {
    ScheduleTakes(b, now, net);
  }

  /** Below the index selected last, only queue 1 can be served, and only by such a call. */
  lemma BelowSelection(b: Sys, r: nat)
    requires WellFormed(b) && 1 <= r < b.lastSel
    ensures Serves(b, r) <==> r == 1 && Turns(b)
  {
  }

  ghost predicate TurnedBy(s: Sys, e: Event) {
    forall x: Seal {:trigger Open(x)} :: Open(x) ==>
      Enabled(s, e) && Calls(s, e) && Inv(s) && (BeforeSchedules(s, e); Turns(Before(s, e)))
  }

  lemma StepFalls(s: Sys, e: Event)
    requires Inv(s) && Enabled(s, e) && s.lastSel > 1
    ensures Apply(s, e).lastSel < s.lastSel <==> TurnedBy(s, e)
    ensures forall r :: 1 <= r < s.lastSel && !TurnedBy(s, e) ==> !ServedBy(s, e, r)
  {
    assert Open(Seal);
    if Calls(s, e) {
      BeforeGrows(s, e);
      BeforeSchedules(s, e);
      ThenSchedules(s, e);
      SelectionFalls(Before(s, e), e.now, e.net);
      forall r | 1 <= r < s.lastSel ensures Serves(Before(s, e), r) <==> r == 1 && Turns(Before(s, e)) { BelowSelection(Before(s, e), r); }
    } else {
      OthersGrow(s, e);
    }
  }

  /** A process at a priority below the index selected last waits, whatever else is entered, exits
      included, until some scheduler call meets the guard. */
  lemma {:induction false} WaitsForTurn(run: seq<Sys>, events: seq<Event>, x: Pid, r: nat, k: nat, n: nat)
    requires IsRun(run, events) && Inv(run[0]) && 1 <= r < run[0].lastSel && At(run[0], x, r, k) && n < |run|
    requires forall i :: 0 <= i < n ==> !TurnedBy(run[i], events[i])
    ensures Inv(run[n]) && run[n].lastSel >= run[0].lastSel
    ensures At(run[n], x, r, k) && run[n].current != x
  {
    if n > 0 {
      WaitsForTurn(run, events, x, r, k, n - 1);
      StepFalls(run[n - 1], events[n - 1]);
      StepKeepsPlacement(run[n - 1], events[n - 1]);
      StepServes(run[n - 1], events[n - 1], run[n], x, r, k);
    }
    RunningIsNotQueued(run[n], x, r, k);
  }

  // ---------------------------------------------------------------- a run that starves

  /** The shell and the idle process take turns, process 2 is ready at priority 2, nobody else lives. */
  ghost predicate Quiet(s: Sys, lastSel: nat) {
    && |s.queues| >= FIRST_OTHER_QUEUE && |s.procs| == NUM_MAX_TASK
    && s.lastSel == lastSel && s.queues[1] == s.queues[3] == s.queues[4] == [] && s.queues[2] == [2 as Pid]
    && s.queues[SLEEP_QUEUE] == s.queues[RECV_QUEUE] == [] && s.procs[s.current].priority == 0
  }

  ghost predicate Starving(s: Sys, lastSel: nat) { Inv(s) && Quiet(s, lastSel) }

  lemma BootStarves(lastSel: nat)
    requires 2 < lastSel < MAX_PRIORITY_NUM
    ensures Inv(Boot(0, lastSel)) && Starving(Spawn(Boot(0, lastSel), 2), lastSel)
  {
    BootIsPlaced(0, lastSel);
    AfterSpawn(Boot(0, lastSel), 2);
  }

  lemma TickStarves(s: Sys, now: nat, lastSel: nat)
    requires Starving(s, lastSel) && 2 < lastSel < MAX_PRIORITY_NUM
    ensures Starving(Schedule(s, now, false), lastSel)
  {
    AfterSchedule(s, now, false);
    NoExited(s, 0);
    if s.queues[0] != [] { assert ReadyTyped(s, 0, s.queues[0]); }
    TickQuiet(s, now, lastSel);
  }

  lemma TickQuiet(s: Sys, now: nat, lastSel: nat)
    requires WellFormed(s) && Quiet(s, lastSel) && 2 < lastSel < MAX_PRIORITY_NUM && DropExited(s.procs, s.queues[0]) == s.queues[0]
    requires s.queues[0] != [] ==> s.procs[s.queues[0][0]].priority == 0
    ensures Quiet(Schedule(s, now, false), lastSel)
  {
    var (idx, u) := Select(s);
    assert idx == 0 && u.lastSel == lastSel;
    if s.queues[0] != [] { TickTakes(u, now); }
  }

  lemma TickTakes(u: Sys, now: nat)
    requires WellFormed(u) && u.queues[0] != [] && DropExited(u.procs, u.queues[0]) == u.queues[0] && u.procs[u.current].priority == 0
    requires u.queues[SLEEP_QUEUE] == u.queues[RECV_QUEUE] == []
    ensures
      var t := Dispatch(u, 0, now, false);
      && t.current == u.queues[0][0] && t.lastSel == u.lastSel && |t.queues| == |u.queues| && |t.procs| == |u.procs|
      && (forall q :: 0 < q < |u.queues| ==> t.queues[q] == u.queues[q]) && (forall p: Pid :: t.procs[p].priority == u.procs[p].priority)
  {
  }

  /** A ready process can wait for ever: after boot and one spawn at priority 2, ticks of any number
      never dispatch it. */
  lemma {:induction false} StarvingRun(lastSel: nat, n: nat) returns (run: seq<Sys>, events: seq<Event>)
    requires 2 < lastSel < MAX_PRIORITY_NUM
    ensures IsRun(run, events) && |events| == n && run[0] == Spawn(Boot(0, lastSel), 2)
    ensures forall i :: 0 <= i < n ==> events[i] == Tick(0, false)
    ensures forall m :: 0 <= m <= n ==> Starving(run[m], lastSel)
  {
    if n == 0 {
      BootStarves(lastSel);
      run, events := [Spawn(Boot(0, lastSel), 2)], [];
    } else {
      var r, es := StarvingRun(lastSel, n - 1);
      var s := r[n - 1];
      TickStarves(s, 0, lastSel);
      run, events := r + [Schedule(s, 0, false)], es + [Tick(0, false)];
      OneMoreTick(r, es, s, n - 1);
    }
  }

  lemma OneMoreTick(run: seq<Sys>, events: seq<Event>, s: Sys, n: nat)
    requires IsRun(run, events) && |events| == n && s == run[n] && WellFormed(s)
    ensures IsRun(run + [Schedule(s, 0, false)], events + [Tick(0, false)])
  {
    var r, es := run + [Schedule(s, 0, false)], events + [Tick(0, false)];
    forall i | 0 <= i < |es| ensures Enabled(r[i], es[i]) && r[i + 1] == Apply(r[i], es[i]) {
      if i < n { assert r[i] == run[i] && r[i + 1] == run[i + 1] && es[i] == events[i]; }
    }
  }

  lemma StarvingWaits(s: Sys, lastSel: nat)
    requires Starving(s, lastSel)
    ensures At(s, 2, 2, 0) && s.current != 2 && s.procs[2].status.Runnable()
  {
    RunningIsNotQueued(s, 2, 2, 0);
    assert ReadyTyped(s, 2, s.queues[2]);
  }
}
