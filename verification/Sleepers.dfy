/** When blocked processes go on: a sleeper when its time has passed and it stands first, a receiver when
    its packet is there and it stands first, and one that waits for an exit with that exit. */
module Sleepers {
  import opened Sealing
  import opened Counting
  import opened Scheduler
  import opened Placement
  import opened Runs
  import opened Waiting
  import B = Barriers

  // ---------------------------------------------------------------- the two checks

  /** Process h goes from the head of queue q to the end of the ready queue of its priority. */
  ghost predicate HeadWakes(u: Sys, t: Sys, q: nat, awake: nat)
    requires WellFormed(u) && MAX_PRIORITY_NUM <= q < |u.queues| && u.queues[q] != []
  {
    var h := u.queues[q][0];
    var pr := u.procs[h].priority;
    && t.procs == u.procs[h := u.procs[h].(status := Running, awake := awake)]
    && t.queues == u.queues[q := u.queues[q][1..]][pr := u.queues[pr] + [h]] && t.current == u.current
  }

  lemma Differ(s: Sys, hand: multiset<Pid>, q: nat, r: nat, i: nat, j: nat)
    requires WellFormed(s) && Placed(s, hand) && q != r
    requires q < |s.queues| && i < |s.queues[q]| && r < |s.queues| && j < |s.queues[r]|
    ensures s.queues[q][i] != s.queues[r][j]
  {
    if s.queues[q][i] == s.queues[r][j] { QueuedOnce(s, hand, q, r, i, j); }
  }

  lemma SameQueueOnce(s: Sys, hand: multiset<Pid>, q: nat, i: nat, j: nat)
    requires WellFormed(s) && Placed(s, hand) && q < |s.queues| && i < j < |s.queues[q]|
    ensures s.queues[q][i] != s.queues[q][j]
  {
    if s.queues[q][i] == s.queues[q][j] { QueuedOnce(s, hand, q, q, i, j); }
  }

  lemma HeadIsElsewhere(u: Sys, hand: multiset<Pid>, q: nat)
    requires Settled(u, hand) && MAX_PRIORITY_NUM <= q < |u.queues| && u.queues[q] != []
    ensures forall r :: 0 <= r < |u.queues| && r != q ==> u.queues[q][0] !in u.queues[r]
  {
    forall r | 0 <= r < |u.queues| && r != q ensures u.queues[q][0] !in u.queues[r] {
      forall j | 0 <= j < |u.queues[r]| ensures u.queues[r][j] != u.queues[q][0] { Differ(u, hand, q, r, 0, j); }
    }
  }

  /** check_sleeping: the head of the sleep queue, and nobody else, wakes if and only if its time is over. */
  lemma SleepCheck(u: Sys, hand: multiset<Pid>, now: nat)
    requires Settled(u, hand)
    ensures
      var c := u.queues[SLEEP_QUEUE];
      if c != [] && now > u.procs[c[0]].awake then HeadWakes(u, CheckSleeping(u, now), SLEEP_QUEUE, 0) else CheckSleeping(u, now) == u
  {
    if u.queues[SLEEP_QUEUE] != [] { HeadIsElsewhere(u, hand, SLEEP_QUEUE); }
  }

  /** check_net_recv: the head of the receive queue, and nobody else, wakes if and only if its descriptor
      is done. */
  lemma NetCheck(u: Sys, hand: multiset<Pid>, net: bool)
    requires Settled(u, hand)
    ensures
      var c := u.queues[RECV_QUEUE];
      if c != [] && net then HeadWakes(u, CheckNet(u, net), RECV_QUEUE, u.procs[c[0]].awake) else CheckNet(u, net) == u
  {
    if u.queues[RECV_QUEUE] != [] { HeadIsElsewhere(u, hand, RECV_QUEUE); }
  }

  // ---------------------------------------------------------------- one process

  /** The check finds the head of queue q due. */
  ghost predicate Due(u: Sys, q: nat, now: nat, net: bool)
    requires WellFormed(u) && q < |u.queues|
  {
    && u.queues[q] != []
    && ((q == SLEEP_QUEUE && now > u.procs[u.queues[q][0]].awake) || (q == RECV_QUEUE && net))
  }

  /** x stands at position k of queue q, blocked, with this wake-up time. */
  ghost predicate Sits(s: Sys, x: Pid, q: nat, k: nat, awake: nat) {
    At(s, x, q, k) && |s.procs| == NUM_MAX_TASK && s.procs[x].status == Blocked && s.procs[x].awake == awake
  }

  /** x is ready at its own priority. */
  ghost predicate IsReady(s: Sys, x: Pid) {
    |s.procs| == NUM_MAX_TASK && s.procs[x].status == Running && exists k: nat :: At(s, x, s.procs[x].priority, k)
  }

  /** One place nearer, ready, or as before. */
  ghost predicate Moved(t: Sys, x: Pid, q: nat, k: nat, a: nat, roused: bool) {
    if !roused then Sits(t, x, q, k, a) else if k > 0 then Sits(t, x, q, k - 1, a) else IsReady(t, x)
  }

  /** What one wake-up from queue r means for x in queue q. */
  lemma OneWakes(u: Sys, hand: multiset<Pid>, t: Sys, r: nat, awake: nat, x: Pid, q: nat, k: nat, a: nat)
    requires Settled(u, hand) && MAX_PRIORITY_NUM <= r < |u.queues| && u.queues[r] != [] && HeadWakes(u, t, r, awake)
    requires MAX_PRIORITY_NUM <= q && Sits(u, x, q, k, a)
    ensures Moved(t, x, q, k, a, r == q)
  {
    if r != q {
      Differ(u, hand, q, r, k, 0);
    } else if k > 0 {
      SameQueueOnce(u, hand, q, 0, k);
    } else {
      assert At(t, x, t.procs[x].priority, |u.queues[u.procs[x].priority]|);
    }
  }

  /** A process that is ready stays so through the wake-up of another. */
  lemma StaysReady(u: Sys, hand: multiset<Pid>, t: Sys, r: nat, awake: nat, x: Pid)
    requires Settled(u, hand) && MAX_PRIORITY_NUM <= r < |u.queues| && u.queues[r] != [] && HeadWakes(u, t, r, awake) && IsReady(u, x)
    ensures IsReady(t, x)
  {
    var k: nat :| At(u, x, u.procs[x].priority, k);
    Differ(u, hand, u.procs[x].priority, r, k, 0);
    assert At(t, x, t.procs[x].priority, k);
  }

  lemma AfterCheckSleeping(u: Sys, hand: multiset<Pid>, now: nat)
    requires Settled(u, hand)
    ensures Settled(CheckSleeping(u, now), hand)
  {
    AfterChecks(u, hand, now, false);
  }

  lemma ChecksMove(u: Sys, hand: multiset<Pid>, now: nat, net: bool, x: Pid, q: nat, k: nat, a: nat)
    requires Settled(u, hand) && MAX_PRIORITY_NUM <= q && Sits(u, x, q, k, a)
    ensures
      var t := Checks(u, now, net);
      Moved(t, x, q, k, a, Due(u, q, now, net))
  {
    var v := CheckSleeping(u, now);
    AfterCheckSleeping(u, hand, now);
    NetCheck(v, hand, net);
    SleepMoves(u, hand, now, x, q, k, a);
    NetMoves(u, v, hand, now, net, x, q, k, a);
  }

  lemma SleepMoves(u: Sys, hand: multiset<Pid>, now: nat, x: Pid, q: nat, k: nat, a: nat)
    requires Settled(u, hand) && MAX_PRIORITY_NUM <= q && Sits(u, x, q, k, a)
    ensures
      var v, due := CheckSleeping(u, now), q == SLEEP_QUEUE && u.queues[q] != [] && now > u.procs[u.queues[q][0]].awake;
      && |v.queues| == |u.queues| && v.queues[RECV_QUEUE] == u.queues[RECV_QUEUE]
      && Moved(v, x, q, k, a, due)
  {
    SleepCheck(u, hand, now);
    if u.queues[SLEEP_QUEUE] != [] && now > u.procs[u.queues[SLEEP_QUEUE][0]].awake {
      OneWakes(u, hand, CheckSleeping(u, now), SLEEP_QUEUE, 0, x, q, k, a);
    }
  }

  lemma NetMoves(u: Sys, v: Sys, hand: multiset<Pid>, now: nat, net: bool, x: Pid, q: nat, k: nat, a: nat)
    requires WellFormed(u) && q < |u.queues| && Settled(v, hand) && MAX_PRIORITY_NUM <= q
    requires v.queues[RECV_QUEUE] == u.queues[RECV_QUEUE]
    requires var c := v.queues[RECV_QUEUE];
      if c != [] && net then HeadWakes(v, CheckNet(v, net), RECV_QUEUE, v.procs[c[0]].awake) else CheckNet(v, net) == v
    requires var due := q == SLEEP_QUEUE && Due(u, q, now, net);
      Moved(v, x, q, k, a, due)
    ensures
      var t := CheckNet(v, net);
      Moved(t, x, q, k, a, Due(u, q, now, net))
  {
    var t := CheckNet(v, net);
    if v.queues[RECV_QUEUE] != [] && net {
      var w := v.procs[v.queues[RECV_QUEUE][0]].awake;
      if !(q == SLEEP_QUEUE && Due(u, q, now, net)) {
        OneWakes(v, hand, t, RECV_QUEUE, w, x, q, k, a);
      } else if k > 0 {
        OneWakes(v, hand, t, RECV_QUEUE, w, x, q, k - 1, a);
      } else {
        StaysReady(v, hand, t, RECV_QUEUE, w, x);
      }
    }
  }

  // ---------------------------------------------------------------- scheduler calls

  /** The scheduler finds a process to run. */
  ghost predicate Dispatches(b: Sys)
    requires WellFormed(b)
  {
    b.queues[Select(b).0] != []
  }

  /** The call takes the head out of queue q. */
  ghost predicate Rouses(b: Sys, q: nat, now: nat, net: bool)
    requires WellFormed(b) && q < |b.queues|
  {
    Dispatches(b) && Due(b, q, now, net)
  }

  lemma TakeKeeps(s: Sys, idx: nat, x: Pid, q: nat, k: nat, a: nat)
    requires Schedulable(s) && idx < MAX_PRIORITY_NUM <= q && s.queues[idx] != [] && Sits(s, x, q, k, a)
    ensures
      var u := Requeue(TakeTop(s, idx, s.queues[idx]));
      Sits(u, x, q, k, a) && u.queues[q] == s.queues[q] && |u.queues| == |s.queues|
  {
    var hand := if s.procs[s.current].status.Runnable() then multiset{s.current} else multiset{};
    Differ(s, hand, idx, q, 0, k);
  }

  lemma TakeKeepsDue(s: Sys, idx: nat, q: nat, now: nat, net: bool)
    requires Schedulable(s) && idx < MAX_PRIORITY_NUM <= q < |s.queues| && s.queues[idx] != []
    ensures
      var u := Requeue(TakeTop(s, idx, s.queues[idx]));
      |u.queues| == |s.queues| && (Due(u, q, now, net) <==> Due(s, q, now, net))
  {
    var hand := if s.procs[s.current].status.Runnable() then multiset{s.current} else multiset{};
    if s.queues[q] != [] { Differ(s, hand, idx, q, 0, 0); }
  }

  lemma DispatchMoves(s: Sys, idx: nat, now: nat, net: bool, x: Pid, q: nat, k: nat, a: nat)
    requires Schedulable(s) && idx < MAX_PRIORITY_NUM <= q && s.queues[idx] != [] && Sits(s, x, q, k, a)
    ensures
      var t := Dispatch(s, idx, now, net);
      Moved(t, x, q, k, a, Due(s, q, now, net))
  {
    NoExited(s, idx);
    AfterTakeTop(s, idx);
    var u := Requeue(TakeTop(s, idx, s.queues[idx]));
    TakeKeeps(s, idx, x, q, k, a);
    TakeKeepsDue(s, idx, q, now, net);
    ChecksMove(u, multiset{s.queues[idx][0]}, now, net, x, q, k, a);
    SameBut(Checks(u, now, net), Dispatch(s, idx, now, net), x, q, k, a);
  }

  lemma SameBut(u: Sys, t: Sys, x: Pid, q: nat, k: nat, a: nat)
    requires t.queues == u.queues && t.procs == u.procs
    ensures Sits(u, x, q, k, a) <==> Sits(t, x, q, k, a)
    ensures k > 0 ==> (Sits(u, x, q, k - 1, a) <==> Sits(t, x, q, k - 1, a))
    ensures IsReady(u, x) ==> IsReady(t, x)
  {
    if IsReady(u, x) {
      var j: nat :| At(u, x, u.procs[x].priority, j);
      assert At(t, x, t.procs[x].priority, j);
    }
  }

  /** What a scheduler call means for a blocked process: one place nearer when the head of its queue is
      due and somebody is dispatched, ready when it is the head itself, and nothing otherwise. */
  lemma CallMoves(b: Sys, now: nat, net: bool, x: Pid, q: nat, k: nat, a: nat)
    requires Schedulable(b) && MAX_PRIORITY_NUM <= q && Sits(b, x, q, k, a)
    ensures
      var t := Schedule(b, now, net);
      Moved(t, x, q, k, a, Rouses(b, q, now, net))
  {
    var (idx, u) := Select(b);
    TypedWithoutChange(b, u);
    if b.queues[idx] == [] {
      NothingToDispatch(u, idx, now, net);
    } else {
      DispatchMoves(u, idx, now, net, x, q, k, a);
    }
  }

  /** A dispatching call takes the head of the sleep queue to the ready queues if and only if its time has
      passed, and moves no other sleeper. */
  lemma HeadSleeperWakes(b: Sys, now: nat, net: bool, h: Pid, a: nat)
    requires Schedulable(b) && Dispatches(b) && Sits(b, h, SLEEP_QUEUE, 0, a)
    ensures
      var t := Schedule(b, now, net);
      && (now > a ==> IsReady(t, h)) && (now <= a ==> Sits(t, h, SLEEP_QUEUE, 0, a))
      && forall x: Pid, k: nat, c: nat :: k > 0 && Sits(b, x, SLEEP_QUEUE, k, c) ==> Sits(t, x, SLEEP_QUEUE, if now > a then k - 1 else k, c)
  {
    CallMoves(b, now, net, h, SLEEP_QUEUE, 0, a);
    forall x: Pid, k: nat, c: nat | k > 0 && Sits(b, x, SLEEP_QUEUE, k, c)
      ensures Sits(Schedule(b, now, net), x, SLEEP_QUEUE, if now > a then k - 1 else k, c)
    {
      CallMoves(b, now, net, x, SLEEP_QUEUE, k, c);
    }
  }

  /** The same of the receive queue: its head goes on if and only if its descriptor is done. */
  lemma HeadReceiverWakes(b: Sys, now: nat, net: bool, h: Pid, a: nat)
    requires Schedulable(b) && Dispatches(b) && Sits(b, h, RECV_QUEUE, 0, a)
    ensures
      var t := Schedule(b, now, net);
      && (net ==> IsReady(t, h)) && (!net ==> Sits(t, h, RECV_QUEUE, 0, a))
      && forall x: Pid, k: nat, c: nat :: k > 0 && Sits(b, x, RECV_QUEUE, k, c) ==> Sits(t, x, RECV_QUEUE, if net then k - 1 else k, c)
  {
    CallMoves(b, now, net, h, RECV_QUEUE, 0, a);
    forall x: Pid, k: nat, c: nat | k > 0 && Sits(b, x, RECV_QUEUE, k, c)
      ensures Sits(Schedule(b, now, net), x, RECV_QUEUE, if net then k - 1 else k, c)
    {
      CallMoves(b, now, net, x, RECV_QUEUE, k, c);
    }
  }

  // ---------------------------------------------------------------- kernel entries

  /** The entry wakes processes in queue q without a call of the scheduler. */
  predicate Frees(s: Sys, e: Event, q: nat) {
    match e
    case DoUnblockOne(r) => r == q
    case DoUnblockAll(r) => r == q
    case DoExit(held, _, _) => q in held || q == FIRST_WAIT_QUEUE + s.current
    case _ => false
  }

  /** Waking in one queue does nothing to a process in another. */
  lemma UnblockOneSpares(s: Sys, hand: multiset<Pid>, r: nat, x: Pid, q: nat, k: nat, a: nat)
    requires Settled(s, hand) && MAX_PRIORITY_NUM <= r < |s.queues| && MAX_PRIORITY_NUM <= q && q != r && Sits(s, x, q, k, a)
    ensures Sits(UnblockOne(s, r), x, q, k, a) && Settled(UnblockOne(s, r), hand)
  {
    AfterUnblockOne(s, hand, r);
    UnblocksHead(s, hand, r);
    if s.queues[r] != [] { Differ(s, hand, q, r, k, 0); }
  }

  lemma {:induction false} UnblockAllSpares(s: Sys, hand: multiset<Pid>, r: nat, x: Pid, q: nat, k: nat, a: nat)
    requires Settled(s, hand) && MAX_PRIORITY_NUM <= r < |s.queues| && MAX_PRIORITY_NUM <= q && q != r && Sits(s, x, q, k, a)
    ensures Sits(UnblockAll(s, r), x, q, k, a)
    decreases |s.queues[r]|
  {
    if s.queues[r] != [] {
      UnblockOneSpares(s, hand, r, x, q, k, a);
      UnblockAllSpares(UnblockOne(s, r), hand, r, x, q, k, a);
    }
  }

  lemma {:induction false} ReleaseAllSpares(s: Sys, hand: multiset<Pid>, held: seq<nat>, x: Pid, q: nat, k: nat, a: nat)
    requires Settled(s, hand) && AreQueues(s, held) && forall i :: 0 <= i < |held| ==> MAX_PRIORITY_NUM <= held[i]
    requires MAX_PRIORITY_NUM <= q && q !in held && Sits(s, x, q, k, a)
    ensures Sits(ReleaseAll(s, held), x, q, k, a) && Settled(ReleaseAll(s, held), hand)
    decreases |held|
  {
    if held != [] {
      var t := UnblockOne(s, held[0]);
      UnblockOneSpares(s, hand, held[0], x, q, k, a);
      assert AreQueues(t, held[1..]);
      ReleaseAllSpares(t, hand, held[1..], x, q, k, a);
    }
  }

  lemma ExitSpares(s: Sys, held: seq<nat>, x: Pid, q: nat, k: nat, a: nat)
    requires Inv(s) && Enabled(s, DoExit(held, 0, false)) && MAX_PRIORITY_NUM <= q && Sits(s, x, q, k, a)
    requires q !in held && q != FIRST_WAIT_QUEUE + s.current
    ensures Sits(ExitCurrent(s, held), x, q, k, a)
  {
    var t := WithProc(s, s.current, Proc(Exited, 1, WORD - 1));
    RunningIsNotQueued(s, x, q, k);
    ExitSettles(s, t);
    ReleaseAllSpares(t, multiset{}, held, x, q, k, a);
    UnblockAllSpares(ReleaseAll(t, held), multiset{}, FIRST_WAIT_QUEUE + s.current, x, q, k, a);
  }

  lemma BlockSpares(s: Sys, r: nat, x: Pid, q: nat, k: nat, a: nat)
    requires Inv(s) && MAX_PRIORITY_NUM <= r < |s.queues| && Sits(s, x, q, k, a)
    ensures Sits(BlockCurrent(s, r), x, q, k, a)
  {
    RunningIsNotQueued(s, x, q, k);
  }

  lemma BeforeSpares(s: Sys, e: Event, x: Pid, q: nat, k: nat, a: nat)
    requires Inv(s) && Enabled(s, e) && Calls(s, e) && !Frees(s, e, q) && MAX_PRIORITY_NUM <= q && Sits(s, x, q, k, a)
    ensures Sits(Before(s, e), x, q, k, a)
  {
    match e {
      case Tick(_, _) =>
      case DoBlock(r, _, _) => BlockSpares(s, r, x, q, k, a);
      case DoSleep(t, now, _) => SleepSpares(s, t, now, x, q, k, a);
      case DoWait(pid, _, _) => BlockSpares(s, FIRST_WAIT_QUEUE + pid, x, q, k, a);
      case DoExit(held, _, _) => ExitSpares(s, held, x, q, k, a);
    }
  }

  lemma SleepSpares(s: Sys, time: nat, now: nat, x: Pid, q: nat, k: nat, a: nat)
    requires Inv(s) && s.current != 0 && Sits(s, x, q, k, a)
    ensures
      var u := WithProc(s, s.current, s.procs[s.current].(awake := (time + now) % WORD));
      Sits(BlockCurrent(u, SLEEP_QUEUE), x, q, k, a)
  {
    RunningIsNotQueued(s, x, q, k);
  }

  lemma OthersSpare(s: Sys, e: Event, x: Pid, q: nat, k: nat, a: nat)
    requires Inv(s) && Enabled(s, e) && !Calls(s, e) && !Frees(s, e, q) && MAX_PRIORITY_NUM <= q && Sits(s, x, q, k, a)
    ensures Sits(Apply(s, e), x, q, k, a)
  {
    match e {
      case DoSpawn(p) => SpawnSpares(s, p, x, q, k, a);
      case DoUnblockOne(r) => UnblockOneSpares(s, multiset{s.current}, r, x, q, k, a);
      case DoUnblockAll(r) => UnblockAllSpares(s, multiset{s.current}, r, x, q, k, a);
      case _ =>
    }
  }

  lemma SpawnSpares(s: Sys, p: nat, x: Pid, q: nat, k: nat, a: nat)
    requires Inv(s) && p < MAX_PRIORITY_NUM && Sits(s, x, q, k, a)
    ensures Sits(Spawn(s, p), x, q, k, a)
  {
    var i := FreeSlot(s.procs, 0);
    if i < NUM_MAX_TASK { assert i != x; }
  }

  /** The entry reaches the scheduler, which takes the head out of queue q. */
  ghost predicate RousedBy(s: Sys, e: Event, q: nat) {
    forall x: Seal {:trigger Open(x)} :: Open(x) ==>
      Enabled(s, e) && Calls(s, e) && Inv(s) && (BeforeSchedules(s, e); q < |Before(s, e).queues| && Rouses(Before(s, e), q, e.now, e.net))
  }

  lemma EntryMoves(s: Sys, e: Event, t: Sys, x: Pid, q: nat, k: nat, a: nat, roused: bool)
    requires Follows(s, e, t) && !Frees(s, e, q) && MAX_PRIORITY_NUM <= q && Sits(s, x, q, k, a) && roused == RousedBy(s, e, q)
    ensures Moved(t, x, q, k, a, roused)
  {
    assert Open(Seal);
    if Calls(s, e) {
      BeforeSpares(s, e, x, q, k, a);
      BeforeSchedules(s, e);
      ThenSchedules(s, e);
      CallMoves(Before(s, e), e.now, e.net, x, q, k, a);
    } else {
      OthersSpare(s, e, x, q, k, a);
    }
  }
}
