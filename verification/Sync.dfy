/** Locks and conditions as kernel/locking/ writes them, on top of the kernel.  Every call is proved to
    take exactly the step of module Locks and to keep the invariants of both. */
module Sync {
  import opened Scheduler
  import opened Placement
  import opened Runs
  import opened Links
  import K = Kernel
  import L = Locks
  import B = Barriers
  import LP = LockProofs
  import opened Sealing

  // ---------------------------------------------------------------- locks in memory

  /** What the kernel keeps about locks: lock fields, locks[] of every process, queue contents. */
  datatype Memory = Memory(
    locked: seq<bool>, init: seq<bool>, ids: seq<nat>, slots: seq<seq<int>>, queues: seq<seq<Pid>>, lockCnt: nat)

  function LockQueue(l: nat): nat { FIRST_OTHER_QUEUE + l }

  /** The queues of the conditions come after those of the locks. */
  function CondQueue(m: L.State, c: nat): nat { LockQueue(|m.locks| + c) }

  ghost predicate LockAgrees(m: L.State, x: Memory, l: nat)
    requires Sized(m, x) && l < |m.locks|
  {
    && m.locks[l].locked == x.locked[l] && m.locks[l].init == x.init[l] && m.locks[l].id == x.ids[l]
    && m.locks[l].queue == x.queues[LockQueue(l)]
  }

  ghost predicate CondAgrees(m: L.State, x: Memory, c: nat)
    requires Sized(m, x) && c < |m.conds|
  {
    m.conds[c] == x.queues[CondQueue(m, c)]
  }

  ghost predicate Sized(m: L.State, x: Memory) {
    && |x.locked| == |x.init| == |x.ids| == |m.locks| && |x.slots| == |m.procs| == NUM_MAX_TASK
    && |x.queues| == FIRST_OTHER_QUEUE + |m.locks| + |m.conds|
  }

  /** The state m of module Locks is what the memory x says. */
  ghost predicate Agrees(m: L.State, x: Memory) {
    && Sized(m, x) && m.nextId == x.lockCnt
    && (forall p: Pid :: m.procs[p].slots == x.slots[p])
    && forall s: Seal {:trigger Open(s)} :: Open(s) ==> ObjectsAgree(m, x)
  }

  ghost predicate ObjectsAgree(m: L.State, x: Memory)
    requires Sized(m, x)
  {
    && (forall l :: 0 <= l < |m.locks| ==> LockAgrees(m, x, l))
    && (forall c :: 0 <= c < |m.conds| ==> CondAgrees(m, x, c))
  }

  lemma ThisLock(m: L.State, x: Memory, l: nat)
    requires Agrees(m, x) && l < |m.locks|
    ensures LockAgrees(m, x, l)
  {
    assert Open(Seal);
  }

  lemma ThisCond(m: L.State, x: Memory, c: nat)
    requires Agrees(m, x) && c < |m.conds|
    ensures CondAgrees(m, x, c)
  {
    assert Open(Seal);
  }

  /** A queue without its head, if it has one. */
  function Rest(c: seq<Pid>): seq<Pid> { if c == [] then [] else c[1..] }

  /** Queues from the first lock queue on, changed at one place. */
  ghost predicate OnlyQueue(x: seq<seq<Pid>>, y: seq<seq<Pid>>, q: nat, c: seq<Pid>)
    requires q < |x|
  {
    |y| == |x| && forall r :: FIRST_OTHER_QUEUE <= r < |x| ==> y[r] == if r == q then c else x[r]
  }

  /** The invariant of module Locks, passed on as a whole. */
  ghost predicate LocksOk(m: L.State) {
    forall s: Seal {:trigger Open(s)} :: Open(s) ==> L.Inv(m)
  }

  lemma StepsSoundly(m: L.State, e: L.Event)
    requires LocksOk(m) && L.Enabled(m, e)
    ensures LocksOk(L.Apply(m, e))
  {
    assert Open(Seal);
    LP.StepKeepsInv(m, e);
  }

  lemma StartsSoundly(locks: nat, conditions: nat)
    ensures LocksOk(L.Start(NUM_MAX_TASK, locks, conditions))
  {
    LP.StartInv(NUM_MAX_TASK, locks, conditions);
  }

  lemma AgreesMoved(m: L.State, x: Memory, p: Pid, pc: L.Pc)
    requires Agrees(m, x)
    ensures Agrees(L.SetPc(m, p, pc), x)
  {
    assert Open(Seal);
    var n := L.SetPc(m, p, pc);
    forall i | 0 <= i < |n.locks| ensures LockAgrees(n, x, i) { assert LockAgrees(m, x, i); }
    forall d | 0 <= d < |n.conds| ensures CondAgrees(n, x, d) { assert CondAgrees(m, x, d); }
  }

  lemma SignalledFirst(m: L.State, c: nat)
    requires c < |m.conds| && m.conds[c] != []
    ensures L.Broadcast(m, c) == L.Broadcast(L.Signal(m, c), c) && L.Signal(m, c).conds[c] == m.conds[c][1..]
  {
  }

  lemma NextUnblocked(m: L.State, x: Memory, s: Sys, c: nat)
    requires Agrees(m, x) && x.queues == s.queues && WellFormed(s) && c < |m.conds| && m.conds[c] != []
    ensures UnblockAll(s, CondQueue(m, c)) == UnblockAll(UnblockOne(s, CondQueue(m, c)), CondQueue(m, c))
  {
    ThisCond(m, x, c);
    K.UnblockShrinks(s, CondQueue(m, c));
  }

  lemma NoneToUnblock(m: L.State, x: Memory, s: Sys, c: nat)
    requires Agrees(m, x) && x.queues == s.queues && WellFormed(s) && c < |m.conds| && m.conds[c] == []
    ensures UnblockAll(s, CondQueue(m, c)) == s && L.Broadcast(m, c) == m
  {
    ThisCond(m, x, c);
  }

  lemma RunsOn(m: L.State, p: Pid, l: nat)
    requires LocksOk(m) && L.IsProc(m, p) && L.IsLock(m, l) && m.procs[p].pc == L.Run && L.IsHeld(m, p, l)
    ensures L.Release(m, p, l).procs[p].pc == L.Run && L.Release(m, p, l).conds == m.conds
  {
    assert Open(Seal);
    LP.ReleaseKeeps(m, p, l);
  }

  lemma StartAgrees(x: Memory, locks: nat, conditions: nat)
    requires x.locked == x.init == seq(locks, _ => false) && x.ids == seq(locks, _ => 0) && x.lockCnt == 0
    requires x.slots == seq(NUM_MAX_TASK, _ => seq(L.MAX_LOCK_NUM_FOR_A_PROC, _ => L.NONE))
    requires |x.queues| == FIRST_OTHER_QUEUE + locks + conditions
    requires forall q :: FIRST_OTHER_QUEUE <= q < |x.queues| ==> x.queues[q] == []
    ensures Agrees(L.Start(NUM_MAX_TASK, locks, conditions), x)
  {
  }

  lemma EightSlots(m: L.State, x: Memory, p: Pid)
    requires LocksOk(m) && Agrees(m, x)
    ensures |x.slots[p]| == L.MAX_LOCK_NUM_FOR_A_PROC
  {
    assert Open(Seal);
    assert L.SlotsOk(m, p);
  }

  lemma AgreesBlocked(m: L.State, x: Memory, y: Memory, p: Pid, l: nat)
    requires LocksOk(m) && Agrees(m, x) && l < |m.locks|
    requires m.procs[p].pc == L.Acquiring(l) && x.locked[l]
    requires y == x.(queues := y.queues) && OnlyQueue(x.queues, y.queues, LockQueue(l), x.queues[LockQueue(l)] + [p])
    ensures Agrees(L.Try(m, p), y)
  {
    assert Open(Seal);
    assert LockAgrees(m, x, l);
    assert L.LockQueueOk(m, l);
    var n := L.Try(m, p);
    forall i | 0 <= i < |n.locks| ensures LockAgrees(n, y, i) { assert LockAgrees(m, x, i); }
    forall c | 0 <= c < |n.conds| ensures CondAgrees(n, y, c) { assert CondAgrees(m, x, c); }
  }

  lemma AgreesTaken(m: L.State, x: Memory, p: Pid, l: nat)
    requires LocksOk(m) && Agrees(m, x) && l < |m.locks|
    requires m.procs[p].pc == L.Acquiring(l) && !x.locked[l]
    ensures x.queues[LockQueue(l)] == m.locks[l].queue && p !in m.locks[l].queue
    ensures Agrees(L.Try(m, p), x.(locked := x.locked[l := true], slots := x.slots[p := L.Replace(x.slots[p], L.NONE, l)]))
  {
    assert Open(Seal);
    assert LockAgrees(m, x, l);
    assert L.LockQueueOk(m, l);
    var n, y := L.Try(m, p), x.(locked := x.locked[l := true], slots := x.slots[p := L.Replace(x.slots[p], L.NONE, l)]);
    forall i | 0 <= i < |n.locks| ensures LockAgrees(n, y, i) { assert LockAgrees(m, x, i); }
    forall c | 0 <= c < |n.conds| ensures CondAgrees(n, y, c) { assert CondAgrees(m, x, c); }
  }

  lemma AgreesReleased(m: L.State, x: Memory, y: Memory, p: Pid, l: nat)
    requires LocksOk(m) && Agrees(m, x) && l < |m.locks|
    requires m.procs[p].pc == L.Run && L.IsHeld(m, p, l)
    requires y == x.(locked := x.locked[l := false], slots := x.slots[p := L.Replace(x.slots[p], l, L.NONE)], queues := y.queues)
    requires OnlyQueue(x.queues, y.queues, LockQueue(l), Rest(x.queues[LockQueue(l)]))
    ensures Agrees(L.Release(m, p, l), y)
  {
    assert Open(Seal);
    assert LockAgrees(m, x, l);
    assert L.LockQueueOk(m, l);
    var n := L.Release(m, p, l);
    if m.locks[l].queue != [] { assert m.locks[l].queue[0] in m.locks[l].queue; }
    forall i | 0 <= i < |n.locks| ensures LockAgrees(n, y, i) { assert LockAgrees(m, x, i); }
    forall c | 0 <= c < |n.conds| ensures CondAgrees(n, y, c) { assert CondAgrees(m, x, c); }
  }

  /** Process p in the queue of condition c, to take lock l again. */
  function Joined(m: L.State, p: Pid, c: nat, l: nat): L.State
    requires |m.procs| == NUM_MAX_TASK && c < |m.conds|
  {
    L.SetPc(m, p, L.CondBlocked(c, l)).(conds := m.conds[c := L.PushAbsent(m.conds[c], p)])
  }

  lemma WaitsSoundly(m: L.State, p: Pid, c: nat, l: nat)
    requires LocksOk(m) && |m.procs| == NUM_MAX_TASK && L.Enabled(m, L.DoCondWait(p, c, l))
    ensures
      var t := L.Release(m, p, l);
      && t.procs[p].pc == L.Run && t.conds == m.conds && |t.locks| == |m.locks|
      && L.CondWait(m, p, c, l) == Joined(t, p, c, l) && LocksOk(Joined(t, p, c, l))
  {
    RunsOn(m, p, l);
    StepsSoundly(m, L.DoCondWait(p, c, l));
  }

  lemma AgreesJoined(m: L.State, x: Memory, y: Memory, p: Pid, c: nat, l: nat)
    requires LocksOk(m) && Agrees(m, x) && c < |m.conds| && m.procs[p].pc == L.Run
    requires y == x.(queues := y.queues)
    requires OnlyQueue(x.queues, y.queues, CondQueue(m, c), x.queues[CondQueue(m, c)] + [p])
    ensures Agrees(Joined(m, p, c, l), y)
  {
    assert Open(Seal);
    assert CondAgrees(m, x, c) && L.CondQueueOk(m, c);
    var n := Joined(m, p, c, l);
    forall i | 0 <= i < |n.locks| ensures LockAgrees(n, y, i) { assert LockAgrees(m, x, i); }
    forall d | 0 <= d < |n.conds| ensures CondAgrees(n, y, d) { assert CondAgrees(m, x, d); }
  }

  lemma AgreesSignalled(m: L.State, x: Memory, y: Memory, c: nat)
    requires LocksOk(m) && Agrees(m, x) && c < |m.conds|
    requires y == x.(queues := y.queues) && OnlyQueue(x.queues, y.queues, CondQueue(m, c), Rest(x.queues[CondQueue(m, c)]))
    ensures Agrees(L.Signal(m, c), y)
  {
    assert Open(Seal);
    assert CondAgrees(m, x, c) && L.CondQueueOk(m, c);
    var n := L.Signal(m, c);
    forall i | 0 <= i < |n.locks| ensures LockAgrees(n, y, i) { assert LockAgrees(m, x, i); }
    forall d | 0 <= d < |n.conds| ensures CondAgrees(n, y, d) { assert CondAgrees(m, x, d); }
  }

  lemma ReleasesSoundly(m: L.State, x: Memory, y: Memory, p: Pid, l: nat)
    requires LocksOk(m) && Agrees(m, x) && l < |m.locks| && m.procs[p].pc == L.Run && L.IsHeld(m, p, l)
    requires y == x.(locked := x.locked[l := false], slots := x.slots[p := L.Replace(x.slots[p], l, L.NONE)], queues := y.queues)
    requires OnlyQueue(x.queues, y.queues, LockQueue(l), Rest(x.queues[LockQueue(l)]))
    ensures Agrees(L.Release(m, p, l), y) && LocksOk(L.Release(m, p, l)) && L.Release(m, p, l).procs[p].pc == L.Run
  {
    AgreesReleased(m, x, y, p, l);
    StepsSoundly(m, L.DoRelease(p, l));
    RunsOn(m, p, l);
  }

  lemma SignalsSoundly(m: L.State, x: Memory, y: Memory, c: nat)
    requires LocksOk(m) && Agrees(m, x) && c < |m.conds|
    requires y == x.(queues := y.queues) && OnlyQueue(x.queues, y.queues, CondQueue(m, c), Rest(x.queues[CondQueue(m, c)]))
    ensures Agrees(L.Signal(m, c), y) && LocksOk(L.Signal(m, c))
  {
    AgreesSignalled(m, x, y, c);
    StepsSoundly(m, L.DoSignal(c));
  }

  lemma AgreesInit(m: L.State, x: Memory, l: nat)
    requires LocksOk(m) && Agrees(m, x) && l < |m.locks| && !x.init[l]
    ensures Agrees(L.InitLock(m, l),
              x.(locked := x.locked[l := false], init := x.init[l := true], ids := x.ids[l := x.lockCnt], lockCnt := x.lockCnt + 1))
  {
    assert Open(Seal);
    assert LockAgrees(m, x, l) && L.IdsOk(m);
    var n := L.InitLock(m, l);
    var y := x.(locked := x.locked[l := false], init := x.init[l := true], ids := x.ids[l := x.lockCnt], lockCnt := x.lockCnt + 1);
    forall i | 0 <= i < |n.locks| ensures LockAgrees(n, y, i) { assert LockAgrees(m, x, i); }
    forall c | 0 <= c < |n.conds| ensures CondAgrees(n, y, c) { assert CondAgrees(m, x, c); }
  }

  lemma BlockedIsQueued(m: L.State, x: Memory, p: Pid) returns (q: nat)
    requires LocksOk(m) && Agrees(m, x) && (m.procs[p].pc.Blocked? || m.procs[p].pc.CondBlocked?)
    ensures FIRST_OTHER_QUEUE <= q < |x.queues| && p in x.queues[q]
  {
    assert Open(Seal);
    assert L.PcOk(m, p);
    if m.procs[p].pc.Blocked? {
      var l := m.procs[p].pc.lock;
      assert LockAgrees(m, x, l) && L.LockQueueOk(m, l);
      q := LockQueue(l);
    } else {
      var c := m.procs[p].pc.cond;
      assert CondAgrees(m, x, c) && L.CondQueueOk(m, c);
      q := CondQueue(m, c);
    }
  }

  /** A process that module Locks calls blocked stands in a queue, so it is not the running one. */
  lemma RunningIsFree(m: L.State, x: Memory, s: Sys)
    requires LocksOk(m) && Agrees(m, x) && Inv(s) && x.queues == s.queues
    ensures !m.procs[s.current].pc.Blocked? && !m.procs[s.current].pc.CondBlocked?
  {
    HeldIsUnqueued(s, multiset{s.current}, s.current);
    if m.procs[s.current].pc.Blocked? || m.procs[s.current].pc.CondBlocked? {
      var q := BlockedIsQueued(m, x, s.current);
      assert false;
    }
  }

  // ---------------------------------------------------------------- the kernel below

  /** The invariant of the scheduler, passed on as a whole. */
  ghost predicate KernelOk(s: Sys) {
    forall x: Seal {:trigger Open(x)} :: Open(x) ==> Inv(s)
  }

  lemma OpenKernel(s: Sys)
    requires KernelOk(s)
    ensures Inv(s)
  {
    assert Open(Seal);
  }

  /** The loop body of do_mutex_lock_acquire: push and block */
  method BlockIn(k: K.Kernel, q: nat, now: nat, net: bool)
    requires k.Valid() && KernelOk(k.Model()) && k.current != 0 && FIRST_OTHER_QUEUE <= q < k.queues.Length
    modifies k.pcb, k.queues, k.upper, k.counter, k
    ensures k.Valid() && k.Model() == Block(old(k.Model()), q, now, net) && KernelOk(k.Model())
    ensures OnlyQueue(old(k.contents), k.contents, q, old(k.contents)[q] + [old(k.current)])
  {
    ghost var s := k.Model();
    OpenKernel(s);
    k.PushAndBlock(q, now, net);
    QueuesAfterBlock(s, q, now, net);
  }

  /** do_block on the queue of a condition */
  method BlockOn(k: K.Kernel, r: nat, now: nat, net: bool)
    requires k.Valid() && KernelOk(k.Model()) && k.current != 0 && LockQueue(r) < k.queues.Length
    modifies k.pcb, k.queues, k.upper, k.counter, k
    ensures k.Valid() && k.Model() == Block(old(k.Model()), LockQueue(r), now, net) && KernelOk(k.Model())
    ensures OnlyQueue(old(k.contents), k.contents, LockQueue(r), old(k.contents)[LockQueue(r)] + [old(k.current)])
  {
    ghost var s := k.Model();
    OpenKernel(s);
    k.BlockSelf(LockQueue(r), now, net);
    QueuesAfterBlock(s, LockQueue(r), now, net);
  }

  /** do_unblock_one on the queue of a lock or condition */
  method WakeIn(k: K.Kernel, q: nat)
    requires k.Valid() && KernelOk(k.Model()) && FIRST_OTHER_QUEUE <= q < k.queues.Length
    modifies k.pcb, k.queues, k.upper, k`contents
    ensures k.Valid() && k.Model() == UnblockOne(old(k.Model()), q) && KernelOk(k.Model())
    ensures OnlyQueue(old(k.contents), k.contents, q, Rest(old(k.contents)[q]))
  {
    ghost var s := k.Model();
    OpenKernel(s);
    k.DoUnblockOne(q);
    QueuesAfterUnblock(s, q);
    UnblockKeepsInv(s, q);
  }

  lemma UnblockKeepsInv(s: Sys, q: nat)
    requires Inv(s) && FIRST_OTHER_QUEUE <= q < |s.queues|
    ensures KernelOk(UnblockOne(s, q))
  {
    StepKeepsPlacement(s, Event.DoUnblockOne(q));
  }

  // ---------------------------------------------------------------- the exit of a holder

  /** A state in which the exiting process counts no longer, passed on as a whole. */
  ghost predicate Closing(s: Sys) {
    forall x: Seal {:trigger Open(x)} :: Open(x) ==> Settled(s, multiset{})
  }

  lemma ExitCloses(s: Sys)
    requires KernelOk(s) && s.current != 0
    ensures WellFormed(s) && Closing(WithProc(s, s.current, Proc(Exited, 1, WORD - 1)))
  {
    OpenKernel(s);
    ExitSettles(s, WithProc(s, s.current, Proc(Exited, 1, WORD - 1)));
  }

  lemma ClosingWakes(s: Sys, q: nat)
    requires Closing(s) && FIRST_OTHER_QUEUE <= q < |s.queues|
    ensures WellFormed(s) && Closing(UnblockOne(s, q))
    ensures OnlyQueue(s.queues, UnblockOne(s, q).queues, q, Rest(s.queues[q]))
  {
    assert Open(Seal);
    AfterUnblockOne(s, multiset{}, q);
    UnblocksHead(s, multiset{}, q);
  }

  method WakeClosing(k: K.Kernel, q: nat)
    requires k.Valid() && Closing(k.Model()) && FIRST_OTHER_QUEUE <= q < k.queues.Length
    modifies k.pcb, k.queues, k.upper, k`contents
    ensures k.Valid() && k.Model() == UnblockOne(old(k.Model()), q) && Closing(k.Model())
    ensures OnlyQueue(old(k.contents), k.contents, q, Rest(old(k.contents)[q]))
  {
    ghost var s := k.Model();
    k.DoUnblockOne(q);
    ClosingWakes(s, q);
  }

  /** The waiting queues of the locks in locks[], from slot i on. */
  function Held(slots: seq<int>, i: nat): seq<nat>
    decreases |slots| - i
  {
    if i >= |slots| then [] else if slots[i] < 0 then Held(slots, i + 1) else [LockQueue(slots[i])] + Held(slots, i + 1)
  }

  lemma {:induction false} HeldBehind(slots: seq<int>, i: nat, x: int, j: nat)
    requires i < j && i < |slots|
    ensures Held(slots[i := x], j) == Held(slots, j)
    decreases |slots| - j
  {
    if j < |slots| { HeldBehind(slots, i, x, j + 1); }
  }

  lemma {:induction false} HeldAreQueues(m: L.State, x: Memory, p: Pid, i: nat)
    requires LocksOk(m) && Agrees(m, x)
    ensures forall j :: 0 <= j < |Held(x.slots[p], i)| ==> FIRST_OTHER_QUEUE <= Held(x.slots[p], i)[j] < |x.queues|
    decreases |x.slots[p]| - i
  {
    if i < |x.slots[p]| {
      HeldAreQueues(m, x, p, i + 1);
      if x.slots[p][i] >= 0 { SlotIsHeld(m, x, p, i); }
    }
  }

  /** A slot in use names a lock of the process, and no other slot does. */
  lemma SlotIsHeld(m: L.State, x: Memory, p: Pid, i: nat)
    requires LocksOk(m) && Agrees(m, x) && i < |x.slots[p]|
    ensures x.slots[p][i] == L.NONE || 0 <= x.slots[p][i] < |m.locks|
    ensures x.slots[p][i] != L.NONE ==>
              L.IsHeld(m, p, x.slots[p][i]) && L.Replace(x.slots[p], x.slots[p][i], L.NONE) == x.slots[p][i := L.NONE]
  {
    assert Open(Seal);
    assert L.SlotsOk(m, p);
    if x.slots[p][i] != L.NONE { var f := LP.ReplaceIs(x.slots[p], x.slots[p][i], L.NONE); }
  }

  lemma ExitStep(m: L.State, p: Pid, i: nat)
    requires L.IsProc(m, p) && i < |m.procs[p].slots|
    ensures
      var l := m.procs[p].slots[i];
      L.ExitFrom(m, p, i) == L.ExitFrom(if L.IsLock(m, l) then L.Release(m, p, l) else m, p, i + 1)
  {
  }

  lemma AgreesSame(m: L.State, x: Memory, y: Memory)
    requires Agrees(m, x) && y == x.(queues := y.queues) && |y.queues| == |x.queues|
    requires forall r :: FIRST_OTHER_QUEUE <= r < |x.queues| ==> y.queues[r] == x.queues[r]
    ensures Agrees(m, y)
  {
    assert Open(Seal);
    forall i | 0 <= i < |m.locks| ensures LockAgrees(m, y, i) { assert LockAgrees(m, x, i); }
    forall d | 0 <= d < |m.conds| ensures CondAgrees(m, y, d) { assert CondAgrees(m, x, d); }
  }

  /** The scheduler leaves the queues of locks and conditions alone. */
  lemma AgreesScheduled(m: L.State, x: Memory, y: Memory, s: Sys, now: nat, net: bool)
    requires Agrees(m, x) && WellFormed(s) && x.queues == s.queues && y == x.(queues := Schedule(s, now, net).queues)
    ensures Agrees(m, y)
  {
    B.ScheduleLeaves(s, now, net, FIRST_WAIT_QUEUE);
    forall r | FIRST_OTHER_QUEUE <= r < |x.queues| ensures y.queues[r] == x.queues[r] { B.ScheduleLeaves(s, now, net, r); }
    AgreesSame(m, x, y);
  }

  /** So does waking those who wait for the exit of a process. */
  lemma AgreesWaitersWoken(m: L.State, x: Memory, y: Memory, s: Sys, p: Pid)
    requires Agrees(m, x) && WellFormed(s) && x.queues == s.queues && y == x.(queues := UnblockAll(s, FIRST_WAIT_QUEUE + p).queues)
    ensures Agrees(m, y)
  {
    forall r | FIRST_OTHER_QUEUE <= r < |x.queues| ensures y.queues[r] == x.queues[r] {
      B.UnblockAllLeaves(s, FIRST_WAIT_QUEUE + p, r);
    }
    AgreesSame(m, x, y);
  }

  /** With no exited process in the queue, taking out its head and waking it is do_unblock_one. */
  lemma HeadIsWoken(s: Sys, q: nat)
    requires KernelOk(s) && FIRST_OTHER_QUEUE <= q < |s.queues|
    ensures WellFormed(s) && KernelOk(UnblockOne(s, q))
    ensures UnblockOne(s, q) == if s.queues[q] == [] then s else Wake(WithQueue(s, q, s.queues[q][1..]), s.queues[q][0])
    ensures OnlyQueue(s.queues, UnblockOne(s, q).queues, q, Rest(s.queues[q]))
  {
    OpenKernel(s);
    NoExited(s, q);
    QueuesAfterUnblock(s, q);
    UnblockKeepsInv(s, q);
    if s.queues[q] == [] { assert s.queues[q := []] == s.queues; }
  }

  /** The head of queue q, if there is one, has been taken out. */
  ghost predicate Taken(s: Sys, t: Sys, q: nat, proc: int)
    requires q < |s.queues|
  {
    if s.queues[q] == [] then proc == NULL && t == s
    else proc == s.queues[q][0] && Unqueued(t.queues, proc) && t == WithQueue(s, q, s.queues[q][1..])
  }

  /** invoke_blocked_proc on what was dequeued */
  method WakeTaken(k: K.Kernel, proc: int, ghost s: Sys, ghost q: nat)
    requires k.Valid() && KernelOk(s) && FIRST_OTHER_QUEUE <= q < |s.queues|
    requires Taken(s, k.Model(), q, proc)
    modifies k.pcb, k.queues, k.upper, k`contents
    ensures k.Valid() && WellFormed(s) && k.Model() == UnblockOne(s, q) && KernelOk(k.Model())
    ensures OnlyQueue(s.queues, k.contents, q, Rest(s.queues[q]))
  {
    HeadIsWoken(s, q);
    if proc != NULL { k.InvokeBlocked(proc); }
  }

  function Queues(ls: seq<nat>): (qs: seq<nat>)
    ensures |qs| == |ls| && forall i :: 0 <= i < |ls| ==> qs[i] == LockQueue(ls[i])
  {
    seq(|ls|, i requires 0 <= i < |ls| => LockQueue(ls[i]))
  }

  lemma NextRelease(m: L.State, p: Pid, ls: seq<nat>, i: nat)
    requires LocksOk(m) && i < |ls| && L.Enabled(m, L.DoReleaseMany(p, ls[i..]))
    ensures L.IsLock(m, ls[i]) && L.IsHeld(m, p, ls[i]) && m.procs[p].pc == L.Run
    ensures L.Enabled(L.Release(m, p, ls[i]), L.DoReleaseMany(p, ls[i + 1..]))
    ensures L.ReleaseMany(m, p, ls[i..]) == L.ReleaseMany(L.Release(m, p, ls[i]), p, ls[i + 1..])
  {
    assert Open(Seal);
    LP.StillHeld(m, p, ls[i..]);
    assert ls[i..][1..] == ls[i + 1..] && ls[i..][0] == ls[i];
  }

  lemma NextReleased(s: Sys, ls: seq<nat>, i: nat)
    requires WellFormed(s) && i < |ls| && AreQueues(s, Queues(ls[i..]))
    ensures LockQueue(ls[i]) < |s.queues| && AreQueues(UnblockOne(s, LockQueue(ls[i])), Queues(ls[i + 1..]))
    ensures ReleaseAll(s, Queues(ls[i..])) == ReleaseAll(UnblockOne(s, LockQueue(ls[i])), Queues(ls[i + 1..]))
  {
    var all, rest := Queues(ls[i..]), Queues(ls[i + 1..]);
    assert all[0] == LockQueue(ls[i]) && all[1..] == rest;
    forall j | 0 <= j < |rest| ensures rest[j] < |s.queues| { assert rest[j] == all[j + 1]; }
  }

  lemma LocksHaveQueues(m: L.State, x: Memory, p: Pid, ls: seq<nat>)
    requires Agrees(m, x) && L.Enabled(m, L.DoReleaseMany(p, ls))
    ensures forall i :: 0 <= i < |ls| ==> Queues(ls)[i] < |x.queues|
  {
    forall i | 0 <= i < |ls| ensures Queues(ls)[i] < |x.queues| { assert L.IsLock(m, ls[i]); }
  }

  lemma ExitSchedules(s: Sys, held: seq<nat>, u: Sys)
    requires KernelOk(s) && s.current != 0 && AreQueues(s, held) && forall i :: 0 <= i < |held| ==> MAX_PRIORITY_NUM <= held[i]
    requires WellFormed(s) && u == ReleaseAll(WithProc(s, s.current, Proc(Exited, 1, WORD - 1)), held)
    ensures
      var w := UnblockAll(u, FIRST_WAIT_QUEUE + u.current);
      var e := w.(upper := Decrease(w.upper, 1));
      e == ExitCurrent(s, held) && Schedulable(e)
  {
    OpenKernel(s);
    AfterExit(s, held);
  }

  /** kernel/locking/lock.c: the locks of the system, and locks[] of every process */
  class Mutexes {
    const k: K.Kernel
    const locked: array<bool>
    const init: array<bool>
    const ids: array<nat>
    const slots: array<seq<int>>
    var lockCnt: nat
    ghost var m: L.State

    ghost function Mem(): Memory
      reads this, k, locked, init, ids, slots
    {
      Memory(locked[..], init[..], ids[..], slots[..], k.contents, lockCnt)
    }

    ghost predicate Valid()
      reads this, k, k.pcb, k.queues, k.counter, k.upper, locked, init, ids, slots
    {
      k.Valid() && locked != init && ids != k.counter && ids != k.upper && Agrees(m, Mem())
    }

    /** The invariants of the scheduler and of the lock protocol; every step keeps them. */
    ghost predicate Sound()
      reads this, k, k.pcb, k.queues, k.counter, k.upper
    {
      KernelOk(k.Model()) && LocksOk(m)
    }

    /** Memory of a system whose locks are not set up yet, with room for some conditions */
    constructor (k: K.Kernel, locks: nat, conditions: nat)
      requires k.Valid() && k.queues.Length == FIRST_OTHER_QUEUE + locks + conditions
      requires forall q :: FIRST_OTHER_QUEUE <= q < |k.contents| ==> k.contents[q] == []
      ensures Valid() && this.k == k && m == L.Start(NUM_MAX_TASK, locks, conditions)
      ensures KernelOk(k.Model()) ==> Sound()
    {
      this.k, lockCnt := k, 0;
      locked := new bool[locks](_ => false);
      init := new bool[locks](_ => false);
      ids := new nat[locks](_ => 0);
      slots := new seq<int>[NUM_MAX_TASK](_ => seq(L.MAX_LOCK_NUM_FOR_A_PROC, _ => L.NONE));
      m := L.Start(NUM_MAX_TASK, locks, conditions);
      new;
      StartsSoundly(locks, conditions);
      StartAgrees(Mem(), locks, conditions);
    }

    /** do_mutex_lock_init */
    method InitLock(l: nat)
      requires Valid() && Sound() && l < locked.Length
      modifies this`lockCnt, this`m, locked, init, ids
      ensures Valid() && Sound() && m == L.InitLock(old(m), l) && k.Model() == old(k.Model())
    {
      ThisLock(m, Mem(), l);
      StepsSoundly(m, L.Init(l));
      if !init[l] {
        AgreesInit(m, Mem(), l);
        locked[l] := false;
        ids[l] := lockCnt;
        lockCnt := lockCnt + 1;
        init[l] := true;
        m := L.InitLock(m, l);
      }
    }

    /** The loops of acquire and release over locks[]: the first slot with `from` gets `to`. */
    method Record(p: Pid, from: int, to: int)
      requires slots.Length == NUM_MAX_TASK && |slots[p]| == L.MAX_LOCK_NUM_FOR_A_PROC
      modifies slots
      ensures slots[..] == old(slots[..])[p := L.Replace(old(slots[p]), from, to)]
      ensures Mem() == old(Mem()).(slots := slots[..])
    {
      for i := 0 to L.MAX_LOCK_NUM_FOR_A_PROC
        invariant slots[..] == old(slots[..])
        invariant forall j :: 0 <= j < i ==> slots[p][j] != from
      {
        if slots[p][i] == from {
          slots[p] := slots[p][i := to];
          return;
        }
      }
      assert L.Find(slots[p], from) == |slots[p]|;
    }

    /** One pass of do_mutex_lock_acquire by the running process: it blocks, or takes the lock. */
    method TryAcquire(l: nat, now: nat, net: bool) returns (got: bool)
      requires Valid() && Sound() && l < locked.Length && k.current != 0 && m.procs[k.current].pc == L.Acquiring(l)
      modifies this`m, locked, slots, k.pcb, k.queues, k.upper, k.counter, k
      ensures Valid() && Sound() && m == L.Try(old(m), old(k.current))
      ensures got <==> !old(locked[l])
      ensures k.Model() == if got then old(k.Model()) else Block(old(k.Model()), LockQueue(l), now, net)
    {
      got := !locked[l];
      if locked[l] {
        QueueUp(l, now, net);
      } else {
        TakeLock(l);
      }
    }

    /** The branch that blocks; the queue is pushed to before and again inside do_block */
    method QueueUp(l: nat, now: nat, net: bool)
      requires Valid() && Sound() && l < locked.Length && k.current != 0 && m.procs[k.current].pc == L.Acquiring(l) && locked[l]
      modifies this`m, k.pcb, k.queues, k.upper, k.counter, k
      ensures Valid() && Sound() && m == L.Try(old(m), old(k.current))
      ensures k.Model() == Block(old(k.Model()), LockQueue(l), now, net)
    {
      ghost var p, x := k.current, Mem();
      BlockIn(k, LockQueue(l), now, net);
      AgreesBlocked(m, x, Mem(), p, l);
      StepsSoundly(m, L.TryAgain(p));
      m := L.Try(m, p);
    }

    /** The branch that takes a free lock.  The running process is in no queue, so it is never
        the queue head that the code tests for. */
    method TakeLock(l: nat)
      requires Valid() && Sound() && l < locked.Length && m.procs[k.current].pc == L.Acquiring(l) && !locked[l]
      modifies this`m, locked, slots
      ensures Valid() && Sound() && m == L.Try(old(m), k.current) && k.Model() == old(k.Model())
    {
      ghost var p := k.current;
      AgreesTaken(m, Mem(), p, l);
      EightSlots(m, Mem(), p);
      StepsSoundly(m, L.TryAgain(p));
      locked[l] := true;
      Record(k.current, L.NONE, l);
      ThisQueue(k.pcb[..], k.queues[..], k.contents, LockQueue(l));
      if k.queues[LockQueue(l)].head == k.current {
        assert false;
      }
      m := L.Try(m, p);
    }

    /** do_mutex_lock_release by the running process */
    method ReleaseLock(l: nat)
      requires Valid() && Sound() && l < locked.Length && m.procs[k.current].pc == L.Run && L.IsHeld(m, k.current, l)
      modifies this`m, locked, slots, k.pcb, k.queues, k.upper, k`contents
      ensures Valid() && Sound() && m == L.Release(old(m), k.current, l)
      ensures k.Model() == UnblockOne(old(k.Model()), LockQueue(l))
    {
      ghost var p, x := k.current, Mem();
      EightSlots(m, x, p);
      locked[l] := false;
      assert Mem() == x.(locked := x.locked[l := false]);
      Record(k.current, l, L.NONE);
      ghost var y := Mem();
      WakeIn(k, LockQueue(l));
      assert Mem() == y.(queues := k.contents);
      ReleasesSoundly(m, x, Mem(), p, l);
      m := L.Release(m, p, l);
    }

    /** do_mutex_lock_acquire from the call to its first block or its return */
    method Acquire(l: nat, now: nat, net: bool) returns (got: bool)
      requires Valid() && Sound() && l < locked.Length && k.current != 0 && L.Enabled(m, L.Request(k.current, l))
      modifies this`m, locked, slots, k.pcb, k.queues, k.upper, k.counter, k
      ensures Valid() && Sound() && m == L.Try(L.SetPc(old(m), old(k.current), L.Acquiring(l)), old(k.current))
      ensures got <==> !old(locked[l])
      ensures k.Model() == if got then old(k.Model()) else Block(old(k.Model()), LockQueue(l), now, net)
    {
      StepsSoundly(m, L.Request(k.current, l));
      AgreesMoved(m, Mem(), k.current, L.Acquiring(l));
      m := L.SetPc(m, k.current, L.Acquiring(l));
      got := TryAcquire(l, now, net);
    }

    /** do_condition_wait up to its block: the process stands in the condition's queue before
        another one runs.  Woken, it goes on with TryAcquire. */
    method CondWait(c: nat, l: nat, now: nat, net: bool)
      requires Valid() && Sound() && l < locked.Length && c < |m.conds| && k.current != 0
      requires m.procs[k.current].pc == L.Run && L.IsHeld(m, k.current, l)
      modifies this`m, locked, slots, k.pcb, k.queues, k.upper, k.counter, k
      ensures Valid() && Sound() && m == L.CondWait(old(m), old(k.current), c, l)
      ensures k.Model() == Block(UnblockOne(old(k.Model()), LockQueue(l)), CondQueue(old(m), c), now, net)
    {
      ghost var q := CondQueue(m, c);
      WaitsSoundly(m, k.current, c, l);
      ReleaseLock(l);
      ghost var s := k.Model();
      assert CondQueue(m, c) == q;
      Join(c, l, now, net);
      assert k.Model() == Block(s, q, now, net);
    }

    /** The block of do_condition_wait */
    method Join(c: nat, l: nat, now: nat, net: bool)
      requires Valid() && Sound() && c < |m.conds| && k.current != 0 && m.procs[k.current].pc == L.Run
      requires LocksOk(Joined(m, k.current, c, l))
      modifies this`m, k.pcb, k.queues, k.upper, k.counter, k
      ensures Valid() && Sound()
      ensures m == Joined(old(m), old(k.current), c, l)
      ensures k.Model() == Block(old(k.Model()), CondQueue(old(m), c), now, net)
    {
      ghost var p, x := k.current, Mem();
      BlockOn(k, locked.Length + c, now, net);
      AgreesJoined(m, x, Mem(), p, c, l);
      m := Joined(m, p, c, l);
    }

    /** do_condition_signal */
    method Signal(c: nat)
      requires Valid() && Sound() && c < |m.conds|
      modifies this`m, k.pcb, k.queues, k.upper, k`contents
      ensures Valid() && Sound() && m == L.Signal(old(m), c)
      ensures k.Model() == UnblockOne(old(k.Model()), CondQueue(old(m), c))
    {
      ghost var x := Mem();
      WakeIn(k, LockQueue(locked.Length + c));
      SignalsSoundly(m, x, Mem(), c);
      m := L.Signal(m, c);
    }

    /** do_condition_broadcast, which is the loop of do_unblock_all */
    method Broadcast(c: nat)
      requires Valid() && Sound() && c < |m.conds|
      modifies this`m, k.pcb, k.queues, k.upper, k`contents
      ensures Valid() && Sound() && m == L.Broadcast(old(m), c)
      ensures k.Model() == UnblockAll(old(k.Model()), CondQueue(old(m), c))
    {
      var empty := NobodyWaits(c);
      while !empty
        invariant Valid() && Sound() && |m.conds| == |old(m).conds| && CondQueue(m, c) == CondQueue(old(m), c)
        invariant empty <==> m.conds[c] == []
        invariant L.Broadcast(m, c) == L.Broadcast(old(m), c)
        invariant UnblockAll(k.Model(), CondQueue(m, c)) == UnblockAll(old(k.Model()), CondQueue(m, c))
        decreases |m.conds[c]|
      {
        SignalNext(c);
        empty := NobodyWaits(c);
      }
      NoneToUnblock(m, Mem(), k.Model(), c);
    }

    method NobodyWaits(c: nat) returns (empty: bool)
      requires Valid() && c < |m.conds|
      ensures empty <==> m.conds[c] == []
    {
      ThisCond(m, Mem(), c);
      empty := k.IsEmpty(LockQueue(locked.Length + c));
    }

    method SignalNext(c: nat)
      requires Valid() && Sound() && c < |m.conds| && m.conds[c] != []
      modifies this`m, k.pcb, k.queues, k.upper, k`contents
      ensures Valid() && Sound() && CondQueue(m, c) == CondQueue(old(m), c)
      ensures |m.conds| == |old(m).conds| && m.conds[c] == old(m).conds[c][1..] && L.Broadcast(m, c) == L.Broadcast(old(m), c)
      ensures UnblockAll(k.Model(), CondQueue(m, c)) == UnblockAll(old(k.Model()), CondQueue(m, c))
    {
      SignalledFirst(m, c);
      NextUnblocked(m, Mem(), k.Model(), c);
      Signal(c);
    }

    // -------------------------------------------------------------- exit and release_multiple

    /** do_mutex_lock_release as do_exit calls it */
    method ReleaseClosing(p: Pid, l: nat)
      requires Valid() && Closing(k.Model()) && LocksOk(m) && l < locked.Length && m.procs[p].pc == L.Run && L.IsHeld(m, p, l)
      modifies this`m, locked, slots, k.pcb, k.queues, k.upper, k`contents
      ensures Valid() && Closing(k.Model()) && LocksOk(m) && m == L.Release(old(m), p, l) && m.procs[p].pc == L.Run
      ensures slots[p] == L.Replace(old(slots[p]), l, L.NONE) && k.Model() == UnblockOne(old(k.Model()), LockQueue(l))
    {
      ghost var x := Mem();
      EightSlots(m, x, p);
      locked[l] := false;
      Record(p, l, L.NONE);
      WakeClosing(k, LockQueue(l));
      ReleasesSoundly(m, x, Mem(), p, l);
      m := L.Release(m, p, l);
    }

    /** One round of the loop of do_exit over locks[] */
    method ReleaseSlot(p: Pid, i: nat)
      requires Valid() && Closing(k.Model()) && LocksOk(m) && m.procs[p].pc == L.Run && i < |slots[p]|
      modifies this`m, locked, slots, k.pcb, k.queues, k.upper, k`contents
      ensures Valid() && Closing(k.Model()) && LocksOk(m) && m.procs[p].pc == L.Run
      ensures L.ExitFrom(m, p, i + 1) == L.ExitFrom(old(m), p, i)
      ensures |slots[p]| == |old(slots[p])| && Held(slots[p], i + 1) == Held(old(slots[p]), i + 1)
      ensures
        var l := old(slots[p])[i];
        if l < 0 then k.Model() == old(k.Model()) else LockQueue(l) < k.queues.Length && k.Model() == UnblockOne(old(k.Model()), LockQueue(l))
    {
      var l := slots[p][i];
      ExitStep(m, p, i);
      SlotIsHeld(m, Mem(), p, i);
      if l != L.NONE {
        ghost var was := slots[p];
        HeldBehind(was, i, L.NONE, i + 1);
        ReleaseClosing(p, l);
        slots[p] := slots[p][i := L.NONE];
        assert slots[p] == was[i := L.NONE] && slots[..] == slots[..][p := slots[p]];
      }
    }

    /** That loop */
    method ReleaseSlots(p: Pid)
      requires Valid() && Closing(k.Model()) && LocksOk(m) && m.procs[p].pc == L.Run
      modifies this`m, locked, slots, k.pcb, k.queues, k.upper, k`contents
      ensures Valid() && LocksOk(m) && L.SetPc(m, p, L.Gone) == L.ExitFrom(old(m), p, 0)
      ensures AreQueues(old(k.Model()), Held(old(slots[p]), 0)) && k.Model() == ReleaseAll(old(k.Model()), Held(old(slots[p]), 0))
    {
      EightSlots(m, Mem(), p);
      HeldAreQueues(m, Mem(), p, 0);
      for i := 0 to L.MAX_LOCK_NUM_FOR_A_PROC
        invariant Valid() && Closing(k.Model()) && LocksOk(m) && m.procs[p].pc == L.Run && |slots[p]| == L.MAX_LOCK_NUM_FOR_A_PROC
        invariant L.ExitFrom(m, p, i) == L.ExitFrom(old(m), p, 0)
        invariant AreQueues(k.Model(), Held(slots[p], i))
        invariant ReleaseAll(k.Model(), Held(slots[p], i)) == ReleaseAll(old(k.Model()), Held(old(slots[p]), 0))
      {
        ReleaseSlot(p, i);
      }
    }

    /** do_exit: the locks in locks[] are released one by one, those who wait for the exit woken. */
    method Exit(now: nat, net: bool)
      requires Valid() && Sound() && k.current != 0 && m.procs[k.current].pc == L.Run
      modifies this`m, locked, slots, k.pcb, k.queues, k.upper, k.counter, k
      ensures Valid() && Sound() && m == L.ExitFrom(old(m), old(k.current), 0)
      ensures AreQueues(old(k.Model()), Held(old(slots[k.current]), 0))
      ensures k.Model() == Schedule(ExitCurrent(old(k.Model()), Held(old(slots[k.current]), 0)), now, net)
    {
      ghost var m0, s, p, held := m, k.Model(), k.current, Held(slots[k.current], 0);
      ExitCloses(s);
      HeldAreQueues(m, Mem(), p, 0);
      MarkExited();
      ReleaseSlots(k.current);
      StepsSoundly(m0, L.DoExit(p));
      Leave(s, held, now, net);
      MarkGone(p);
    }

    method MarkExited()
      requires Valid()
      modifies k.pcb
      ensures Valid() && k.Model() == WithProc(old(k.Model()), k.current, Proc(Exited, 1, WORD - 1))
    {
      k.MarkExited();
      assert Mem() == old(Mem());
    }

    ghost method MarkGone(p: Pid)
      requires Valid()
      modifies this`m
      ensures Valid() && m == L.SetPc(old(m), p, L.Gone)
    {
      AgreesMoved(m, Mem(), p, L.Gone);
      m := L.SetPc(m, p, L.Gone);
    }

    /** The end of do_exit */
    method Leave(ghost s: Sys, ghost held: seq<nat>, now: nat, net: bool)
      requires Valid() && KernelOk(s) && s.current != 0
      requires WellFormed(s) && AreQueues(s, held) && forall i :: 0 <= i < |held| ==> FIRST_OTHER_QUEUE <= held[i]
      requires k.Model() == ReleaseAll(WithProc(s, s.current, Proc(Exited, 1, WORD - 1)), held)
      modifies k.pcb, k.queues, k.upper, k.counter, k
      ensures Valid() && k.Model() == Schedule(ExitCurrent(s, held), now, net) && KernelOk(k.Model())
    {
      ExitSchedules(s, held, k.Model());
      WakeWaiters();
      GiveUp(now, net);
    }

    method WakeWaiters()
      requires Valid()
      modifies k.pcb, k.queues, k.upper, k`contents
      ensures Valid()
      ensures
        var u := UnblockAll(old(k.Model()), FIRST_WAIT_QUEUE + k.current);
        k.Model() == u.(upper := Decrease(u.upper, 1))
    {
      ghost var x, u := Mem(), k.Model();
      k.WakeWaiters();
      AgreesWaitersWoken(m, x, Mem(), u, k.current);
    }

    /** A call of the scheduler */
    method GiveUp(now: nat, net: bool)
      requires Valid() && Schedulable(k.Model())
      modifies k.pcb, k.queues, k.upper, k.counter, k
      ensures Valid() && k.Model() == Schedule(old(k.Model()), now, net) && KernelOk(k.Model())
    {
      ghost var x, u := Mem(), k.Model();
      k.DoScheduler(now, net);
      AgreesScheduled(m, x, Mem(), u, now, net);
    }

    /** One round of do_mutex_lock_release_multiple: the queue's head is taken out before locks[] is
        cleared, and woken after. */
    method ReleaseNext(l: nat)
      requires Valid() && Sound() && l < locked.Length && m.procs[k.current].pc == L.Run && L.IsHeld(m, k.current, l)
      modifies this`m, locked, slots, k.pcb, k.queues, k.upper, k`contents
      ensures Valid() && Sound() && m == L.Release(old(m), k.current, l)
      ensures k.Model() == UnblockOne(old(k.Model()), LockQueue(l))
    {
      ghost var p, x, s := k.current, Mem(), k.Model();
      EightSlots(m, x, p);
      locked[l] := false;
      assert Mem() == x.(locked := x.locked[l := false]);
      var proc := k.Dequeue(LockQueue(l));
      Record(k.current, l, L.NONE);
      ghost var y := Mem();
      WakeTaken(k, proc, s, LockQueue(l));
      assert Mem() == y.(queues := k.contents);
      ReleasesSoundly(m, x, Mem(), p, l);
      m := L.Release(m, p, l);
    }

    /** do_mutex_lock_release_multiple, the locks in the order qsort leaves */
    method ReleaseMultiple(ls: seq<nat>, now: nat, net: bool)
      requires Valid() && Sound() && L.Enabled(m, L.DoReleaseMany(k.current, ls))
      modifies this`m, locked, slots, k.pcb, k.queues, k.upper, k.counter, k
      ensures Valid() && Sound() && m == L.ReleaseMany(old(m), old(k.current), ls)
      ensures AreQueues(old(k.Model()), Queues(ls)) && k.Model() == Schedule(ReleaseAll(old(k.Model()), Queues(ls)), now, net)
    {
      ReleaseAllOf(ls);
      OpenKernel(k.Model());
      GiveUp(now, net);
    }

    method ReleaseAllOf(ls: seq<nat>)
      requires Valid() && Sound() && L.Enabled(m, L.DoReleaseMany(k.current, ls))
      modifies this`m, locked, slots, k.pcb, k.queues, k.upper, k`contents
      ensures Valid() && Sound() && m == L.ReleaseMany(old(m), k.current, ls)
      ensures AreQueues(old(k.Model()), Queues(ls)) && k.Model() == ReleaseAll(old(k.Model()), Queues(ls))
    {
      LocksHaveQueues(m, Mem(), k.current, ls);
      ghost var goal, sysGoal := L.ReleaseMany(m, k.current, ls), ReleaseAll(k.Model(), Queues(ls));
      assert ls[0..] == ls && ls[|ls|..] == [];
      for i := 0 to |ls|
        invariant k.current == old(k.current) && Releasing(ls[i..], goal, sysGoal)
      {
        ReleaseTurn(ls, i, goal, sysGoal);
      }
    }

    /** What is left of the list leads to the state wanted. */
    ghost predicate Releasing(ls: seq<nat>, goal: L.State, sysGoal: Sys)
      reads this, k, k.pcb, k.queues, k.counter, k.upper, locked, init, ids, slots
    {
      && Valid() && Sound() && L.Enabled(m, L.DoReleaseMany(k.current, ls)) && L.ReleaseMany(m, k.current, ls) == goal
      && WellFormed(k.Model()) && AreQueues(k.Model(), Queues(ls)) && ReleaseAll(k.Model(), Queues(ls)) == sysGoal
    }

    method ReleaseTurn(ls: seq<nat>, i: nat, ghost goal: L.State, ghost sysGoal: Sys)
      requires i < |ls| && Releasing(ls[i..], goal, sysGoal)
      modifies this`m, locked, slots, k.pcb, k.queues, k.upper, k`contents
      ensures Releasing(ls[i + 1..], goal, sysGoal)
    {
      NextRelease(m, k.current, ls, i);
      NextReleased(k.Model(), ls, i);
      ReleaseNext(ls[i]);
    }
  }



  /** What a block does to the lock and condition queues. */
  lemma QueuesAfterBlock(s: Sys, q: nat, now: nat, net: bool)
    requires Inv(s) && s.current != 0 && FIRST_OTHER_QUEUE <= q < |s.queues|
    ensures |Block(s, q, now, net).queues| == |s.queues|
    ensures forall r :: FIRST_OTHER_QUEUE <= r < |s.queues| ==>
              Block(s, q, now, net).queues[r] == if r == q then s.queues[r] + [s.current] else s.queues[r]
  {
    forall r | FIRST_OTHER_QUEUE <= r < |s.queues|
      ensures |Block(s, q, now, net).queues| == |s.queues|
      ensures Block(s, q, now, net).queues[r] == if r == q then s.queues[r] + [s.current] else s.queues[r]
    {
      B.BlockPushes(s, q, now, net, r);
    }
    B.BlockPushes(s, q, now, net, q);
  }

  lemma QueuesAfterUnblock(s: Sys, q: nat)
    requires Inv(s) && FIRST_OTHER_QUEUE <= q < |s.queues|
    ensures |UnblockOne(s, q).queues| == |s.queues|
    ensures forall r :: FIRST_OTHER_QUEUE <= r < |s.queues| ==>
              UnblockOne(s, q).queues[r] == if r == q then Rest(s.queues[r]) else s.queues[r]
  {
    NoExited(s, q);
    forall r | FIRST_OTHER_QUEUE <= r < |s.queues|
      ensures UnblockOne(s, q).queues[r] == if r == q then Rest(s.queues[r]) else s.queues[r]
    {
      if r != q { B.UnblockOneLeaves(s, q, r); }
      else if s.queues[q] != [] { B.WakeLeaves(WithQueue(s, q, s.queues[q][1..]), s.queues[q][0], q); }
    }
  }
}
