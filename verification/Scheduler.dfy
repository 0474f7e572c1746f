/** The scheduler, process table and blocking queues as a transition system on values.

    A state holds what kernel/sched/sched.c keeps in global variables.  All queues of the
    kernel (the five ready queues, the sleep queue, the network queue, the wait queue of every
    process, and any number of lock, semaphore, condition and barrier queues) are numbered and
    kept in one sequence.  Every function below is one atomic kernel action: kernel code runs
    with exceptions off, so a system call runs without interruption up to its call of the
    scheduler. */
module Scheduler {

  const NUM_MAX_TASK := 16
  const MAX_PRIORITY_NUM := 5
  const PRIORITY_FACTOR := 3
  const SCHED_BOUND := 5
  const WORD := 0x1_0000_0000

  const SLEEP_QUEUE := 5
  const RECV_QUEUE := 6
  const FIRST_WAIT_QUEUE := 7
  const FIRST_OTHER_QUEUE := 23

  type Pid = p: int | 0 <= p < 16

  datatype Status = Blocked | Running | Ready | Exited | Create {
    predicate Live() { Blocked? || Running? || Ready? }

    predicate Runnable() { Running? || Ready? }
  }

  datatype Proc = Proc(status: Status, priority: nat, awake: nat)

  datatype Sys = Sys(
    procs: seq<Proc>,
    queues: seq<seq<Pid>>,
    current: Pid,
    lastSel: nat,
    schedCnt: nat,
    counter: seq<nat>,
    upper: seq<nat>)

  ghost predicate WellFormed(s: Sys) {
    && |s.procs| == NUM_MAX_TASK
    && |s.queues| >= FIRST_OTHER_QUEUE
    && |s.counter| == |s.upper| == MAX_PRIORITY_NUM
    && s.lastSel < MAX_PRIORITY_NUM
    && s.schedCnt < SCHED_BOUND
    && (forall p: Pid :: s.procs[p].priority < MAX_PRIORITY_NUM)
  }

  /** What every action short of a context switch keeps. */
  ghost predicate SameShape(s: Sys, t: Sys) {
    WellFormed(t) && |t.queues| == |s.queues| && t.current == s.current
  }

  predicate AreQueues(s: Sys, qs: seq<nat>) {
    forall i :: 0 <= i < |qs| ==> qs[i] < |s.queues|
  }

  // ---------------------------------------------------------------- queue primitives

  function WithQueue(s: Sys, q: nat, c: seq<Pid>): Sys
    requires q < |s.queues|
  {
    s.(queues := s.queues[q := c])
  }

  function WithProc(s: Sys, p: Pid, x: Proc): Sys
    requires |s.procs| == NUM_MAX_TASK
  {
    s.(procs := s.procs[p := x])
  }

  /** queue_push_if_not_exist */
  function PushIfAbsent(s: Sys, q: nat, p: Pid): Sys
    requires q < |s.queues|
  {
    if p in s.queues[q] then s else WithQueue(s, q, s.queues[q] + [p])
  }

  /** The contents left once leading exited processes have been thrown away. */
  function DropExited(procs: seq<Proc>, c: seq<Pid>): (r: seq<Pid>)
    requires |procs| == NUM_MAX_TASK
    ensures |r| <= |c|
  {
    if c != [] && procs[c[0]].status == Exited then DropExited(procs, c[1..]) else c
  }

  /** Only leading exited processes go, and all of them. */
  lemma {:induction false} DropsExited(procs: seq<Proc>, c: seq<Pid>)
    requires |procs| == NUM_MAX_TASK
    ensures
      var r := DropExited(procs, c);
      && r == c[|c| - |r|..] && (r != [] ==> procs[r[0]].status != Exited)
      && forall i :: 0 <= i < |c| - |r| ==> procs[c[i]].status == Exited
  {
    if c != [] && procs[c[0]].status == Exited {
      DropsExited(procs, c[1..]);
      var r := DropExited(procs, c);
      forall i | 0 <= i < |c| - |r| ensures procs[c[i]].status == Exited {
        if i > 0 { assert c[i] == c[1..][i - 1]; }
      }
    }
  }

  // ---------------------------------------------------------------- run quotas

  function Increase(upper: seq<nat>, priority: nat): (r: seq<nat>)
    requires |upper| == MAX_PRIORITY_NUM
    ensures |r| == MAX_PRIORITY_NUM
  {
    var p := if priority >= MAX_PRIORITY_NUM then MAX_PRIORITY_NUM - 1 else priority;
    upper[p := (upper[p] + PRIORITY_FACTOR * (p + 1)) % WORD]
  }

  function Decrease(upper: seq<nat>, priority: nat): (r: seq<nat>)
    requires |upper| == MAX_PRIORITY_NUM
    ensures |r| == MAX_PRIORITY_NUM
  {
    var p := if priority >= MAX_PRIORITY_NUM then MAX_PRIORITY_NUM - 1 else priority;
    var d := PRIORITY_FACTOR * (p + 1);
    upper[p := if d > upper[p] then 0 else upper[p] - d]
  }

  // ---------------------------------------------------------------- waking

  /** invoke_blocked_proc */
  function Wake(s: Sys, p: Pid): (t: Sys)
    requires WellFormed(s)
    ensures SameShape(s, t)
  {
    var t := WithProc(s, p, s.procs[p].(status := Running));
    PushIfAbsent(t.(upper := Increase(t.upper, t.procs[p].priority)), t.procs[p].priority, p)
  }

  /** do_unblock_one */
  function UnblockOne(s: Sys, q: nat): (t: Sys)
    requires WellFormed(s) && q < |s.queues|
    ensures SameShape(s, t)
  {
    var r := DropExited(s.procs, s.queues[q]);
    if r == [] then WithQueue(s, q, []) else Wake(WithQueue(s, q, r[1..]), r[0])
  }

  /** do_unblock_all, for a queue that is not itself a ready queue */
  function UnblockAll(s: Sys, q: nat): (t: Sys)
    requires WellFormed(s) && MAX_PRIORITY_NUM <= q < |s.queues|
    ensures SameShape(s, t)
    decreases |s.queues[q]|
  {
    if s.queues[q] == [] then s else UnblockAll(UnblockOne(s, q), q)
  }

  // ---------------------------------------------------------------- the scheduler

  /** The first index from i on whose counter is below its bound, or 5. */
  function Scan(counter: seq<nat>, upper: seq<nat>, i: nat): (r: nat)
    requires |counter| == |upper| == MAX_PRIORITY_NUM && i <= MAX_PRIORITY_NUM
    ensures i <= r <= MAX_PRIORITY_NUM
    decreases MAX_PRIORITY_NUM - i
  {
    if i < MAX_PRIORITY_NUM && counter[i] >= upper[i] then Scan(counter, upper, i + 1) else i
  }

  /** Lines 142-177: choose a ready queue and account for the choice. */
  function Select(s: Sys): (r: (nat, Sys))
    requires WellFormed(s)
    ensures r.0 < MAX_PRIORITY_NUM && WellFormed(r.1)
    ensures r.1 == s.(lastSel := r.1.lastSel, schedCnt := r.1.schedCnt, counter := r.1.counter)
  {
    var i := Scan(s.counter, s.upper, s.lastSel);
    var idx := if i >= MAX_PRIORITY_NUM then 1 else i;
    var counter := if i >= MAX_PRIORITY_NUM then [s.counter[0], 0, 0, 0, 0] else s.counter;
    if s.schedCnt + 1 >= SCHED_BOUND then
      (0, s.(schedCnt := 0, counter := counter))
    else if s.queues[idx] == [] then
      (0, s.(schedCnt := s.schedCnt + 1, counter := counter))
    else
      (idx, s.(schedCnt := s.schedCnt + 1, lastSel := idx,
               counter := counter[idx := (counter[idx] + 1) % WORD]))
  }

  /** Ready queue q has runs left in this round. */
  predicate HasRuns(s: Sys, q: nat)
    requires WellFormed(s) && q < MAX_PRIORITY_NUM
  {
    s.counter[q] < s.upper[q]
  }

  lemma {:induction false} ScansTo(s: Sys, i: nat, q: nat)
    requires WellFormed(s) && i <= q <= MAX_PRIORITY_NUM && (q < MAX_PRIORITY_NUM ==> HasRuns(s, q))
    requires forall r :: i <= r < q ==> !HasRuns(s, r)
    ensures Scan(s.counter, s.upper, i) == q
    decreases q - i
  {
    if i < q {
      assert !HasRuns(s, i);
      ScansTo(s, i + 1, q);
    }
  }

  /** The counter of queue p after a call: 1 to 4 are set back by a reset, and the queue that is taken
      counts one more. */
  function NextCount(count: nat, p: nat, reset: bool, taken: bool): nat {
    var before := if reset && p >= 1 then 0 else count;
    if taken then (before + 1) % WORD else before
  }

  /** Every fifth call takes queue 0 and counts nothing.  The others take the first queue from the last
      selection on that has runs left, or queue 1 when none has, and count it; they fall back on queue 0,
      uncounted, when it is empty. */
  lemma SelectsExactly(s: Sys, q: nat)
    requires WellFormed(s) && s.lastSel <= q <= MAX_PRIORITY_NUM
    requires q < MAX_PRIORITY_NUM ==> HasRuns(s, q)
    requires forall r :: s.lastSel <= r < q ==> !HasRuns(s, r)
    ensures
      var (idx, t) := Select(s);
      var c := if q == MAX_PRIORITY_NUM then 1 else q;
      && t.schedCnt == (s.schedCnt + 1) % SCHED_BOUND
      && idx == (if t.schedCnt == 0 || s.queues[c] == [] then 0 else c)
      && t.lastSel == (if t.schedCnt == 0 || s.queues[c] == [] then s.lastSel else c)
      && (forall p :: 0 <= p < MAX_PRIORITY_NUM ==>
            t.counter[p] == NextCount(s.counter[p], p, q == MAX_PRIORITY_NUM, p == c && t.schedCnt != 0 && s.queues[c] != []))
      && t.upper == s.upper && t.queues == s.queues && t.procs == s.procs && t.current == s.current
  {
    ScansTo(s, s.lastSel, q);
  }

  /** check_sleeping: only the head of the sleep queue is looked at. */
  function CheckSleeping(s: Sys, now: nat): (t: Sys)
    requires WellFormed(s)
    ensures SameShape(s, t)
  {
    var c := s.queues[SLEEP_QUEUE];
    if c == [] || now <= s.procs[c[0]].awake then s else
    var t := WithQueue(s, SLEEP_QUEUE, c[1..]);
    Wake(WithProc(t, c[0], t.procs[c[0]].(awake := 0)), c[0])
  }

  /** check_net_recv: `net` is the state of the descriptor the head waits for. */
  function CheckNet(s: Sys, net: bool): (t: Sys)
    requires WellFormed(s)
    ensures SameShape(s, t)
  {
    var c := s.queues[RECV_QUEUE];
    if c == [] || !net then s else Wake(WithQueue(s, RECV_QUEUE, c[1..]), c[0])
  }

  /** The head of the chosen queue is taken out and marked running. */
  function TakeTop(s: Sys, idx: nat, c: seq<Pid>): (t: Sys)
    requires WellFormed(s) && idx < MAX_PRIORITY_NUM && c != []
    ensures SameShape(s, t)
  {
    WithQueue(WithProc(s, c[0], s.procs[c[0]].(status := Running)), idx, c[1..])
  }

  /** A running process that can go on goes back to the ready queue of its priority. */
  function Requeue(s: Sys): (t: Sys)
    requires WellFormed(s)
    ensures SameShape(s, t)
  {
    var me := s.procs[s.current];
    if me.status == Blocked || me.status == Exited then s
    else WithQueue(s, me.priority, s.queues[me.priority] + [s.current])
  }

  function Checks(s: Sys, now: nat, net: bool): (t: Sys)
    requires WellFormed(s)
    ensures SameShape(s, t)
  {
    CheckNet(CheckSleeping(s, now), net)
  }

  /** Lines 179-207 for the chosen queue. */
  function Dispatch(s: Sys, idx: nat, now: nat, net: bool): Sys
    requires WellFormed(s) && idx < MAX_PRIORITY_NUM
  {
    var c := DropExited(s.procs, s.queues[idx]);
    if c == [] then WithQueue(s, idx, [])
    else Checks(Requeue(TakeTop(s, idx, c)), now, net).(current := c[0])
  }

  function Schedule(s: Sys, now: nat, net: bool): Sys
    requires WellFormed(s)
  {
    var (idx, t) := Select(s);
    Dispatch(t, idx, now, net)
  }

  // ---------------------------------------------------------------- kernel entry points

  function BlockCurrent(s: Sys, q: nat): (t: Sys)
    requires WellFormed(s) && q < |s.queues|
    ensures SameShape(s, t)
  {
    var t := PushIfAbsent(s, q, s.current);
    var me := t.procs[t.current];
    WithProc(t, t.current, me.(status := Blocked)).(upper := Decrease(t.upper, me.priority))
  }

  /** do_block */
  function Block(s: Sys, q: nat, now: nat, net: bool): Sys
    requires WellFormed(s) && q < |s.queues|
  {
    Schedule(BlockCurrent(s, q), now, net)
  }

  /** do_sleep */
  function Sleep(s: Sys, time: nat, now: nat, net: bool): Sys
    requires WellFormed(s)
  {
    var t := WithProc(s, s.current, s.procs[s.current].(awake := (time + now) % WORD));
    Block(t, SLEEP_QUEUE, now, net)
  }

  /** do_waitpid */
  function WaitPid(s: Sys, pid: int, now: nat, net: bool): Sys
    requires WellFormed(s)
  {
    if pid <= 0 || pid >= NUM_MAX_TASK || !s.procs[pid].status.Live() then s
    else Block(s, FIRST_WAIT_QUEUE + pid, now, net)
  }

  /** The slot create_proc_with_priority takes, or 16. */
  function FreeSlot(procs: seq<Proc>, i: nat): (r: nat)
    requires |procs| == NUM_MAX_TASK && i <= NUM_MAX_TASK
    ensures i <= r <= NUM_MAX_TASK
    ensures forall j :: i <= j < r ==> procs[j].status.Live()
    ensures r < NUM_MAX_TASK ==> !procs[r].status.Live()
    decreases NUM_MAX_TASK - i
  {
    if i < NUM_MAX_TASK && procs[i].status.Live() then FreeSlot(procs, i + 1) else i
  }

  /** do_spawn_with_priority; the quota is raised even when no slot is free */
  function Spawn(s: Sys, priority: nat): Sys
    requires WellFormed(s) && priority < MAX_PRIORITY_NUM
  {
    var i := FreeSlot(s.procs, 0);
    var t := s.(upper := Increase(s.upper, priority));
    if i == NUM_MAX_TASK then t else
    var u := WithProc(t, i, Proc(Ready, priority, t.procs[i].awake));
    WithQueue(u, priority, u.queues[priority] + [i as Pid])
  }

  /** do_mutex_lock_release for each lock the exiting process holds */
  function ReleaseAll(s: Sys, held: seq<nat>): (t: Sys)
    requires WellFormed(s) && AreQueues(s, held)
    ensures SameShape(s, t)
    decreases |held|
  {
    if held == [] then s else
    ReleaseAll(UnblockOne(s, held[0]), held[1..])
  }

  /** Everything do_exit does before it calls the scheduler. */
  function ExitCurrent(s: Sys, held: seq<nat>): (t: Sys)
    requires WellFormed(s) && AreQueues(s, held)
    ensures SameShape(s, t)
  {
    var t := WithProc(s, s.current, Proc(Exited, 1, WORD - 1));
    var u := UnblockAll(ReleaseAll(t, held), FIRST_WAIT_QUEUE + s.current);
    u.(upper := Decrease(u.upper, 1))
  }
}
