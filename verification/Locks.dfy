/** Mutexes and condition variables between any number of processes.

    A step is what a system call does up to its next block or its return.  The scheduler is
    free: any process that is not blocked may move next, so the theorems hold for the real
    scheduler too. */
module Locks {

  const MAX_LOCK_NUM_FOR_A_PROC := 8
  const NONE := -1

  datatype Pc =
    | Run                              // outside the lock calls
    | Acquiring(lock: int)             // about to test the lock, first or after a wake-up
    | Blocked(lock: int)               // in the lock's waiting queue
    | CondBlocked(cond: int, lock: int) // in the condition's queue, will take the lock again
    | Gone                             // exited

  /** A process: where it is, and the locks[] array of its control block. */
  datatype Proc = Proc(pc: Pc, slots: seq<int>)

  /** A lock.  `owner` is the process that took it last; it is not kept by the kernel. */
  datatype Lock = Lock(locked: bool, init: bool, id: nat, queue: seq<int>, owner: int)

  datatype State = State(procs: seq<Proc>, locks: seq<Lock>, conds: seq<seq<int>>, nextId: nat)

  predicate IsProc(s: State, p: int) { 0 <= p < |s.procs| }

  predicate IsLock(s: State, l: int) { 0 <= l < |s.locks| }

  predicate IsCond(s: State, c: int) { 0 <= c < |s.conds| }

  predicate IsHeld(s: State, p: int, l: int)
    requires IsProc(s, p)
  {
    l in s.procs[p].slots
  }

  function Start(procs: nat, locks: nat, conds: nat): State {
    State(seq(procs, _ => Proc(Run, seq(MAX_LOCK_NUM_FOR_A_PROC, _ => NONE))),
          seq(locks, _ => Lock(false, false, 0, [], NONE)),
          seq(conds, _ => []), 0)
  }

  // ---------------------------------------------------------------- pieces

  function SetPc(s: State, p: int, pc: Pc): State
    requires IsProc(s, p)
  {
    s.(procs := s.procs[p := s.procs[p].(pc := pc)])
  }

  function PushAbsent(q: seq<int>, p: int): seq<int> {
    if p in q then q else q + [p]
  }

  /** The first index of x, or the length. */
  function Find(slots: seq<int>, x: int): (i: nat)
    ensures i <= |slots| && (i < |slots| ==> slots[i] == x)
    ensures forall j :: 0 <= j < i ==> slots[j] != x
  {
    if slots == [] || slots[0] == x then 0 else 1 + Find(slots[1..], x)
  }

  /** The first slot that holds `from` gets `to`, if there is one. */
  function Replace(slots: seq<int>, from: int, to: int): (r: seq<int>)
    ensures |r| == |slots|
  {
    var i := Find(slots, from);
    if i < |slots| then slots[i := to] else slots
  }

  // ---------------------------------------------------------------- system calls

  /** do_mutex_lock_init: the id counter moves only the first time */
  function InitLock(s: State, l: int): State
    requires IsLock(s, l)
  {
    if s.locks[l].init then s
    else s.(locks := s.locks[l := Lock(false, true, s.nextId, [], NONE)], nextId := s.nextId + 1)
  }

  /** One pass of do_mutex_lock_acquire: block if locked, else take the lock and record it. */
  function Try(s: State, p: int): State
    requires IsProc(s, p) && s.procs[p].pc.Acquiring? && IsLock(s, s.procs[p].pc.lock)
  {
    var l := s.procs[p].pc.lock;
    var k := s.locks[l];
    if k.locked then
      SetPc(s, p, Blocked(l)).(locks := s.locks[l := k.(queue := PushAbsent(k.queue, p))])
    else
      var q := if k.queue != [] && k.queue[0] == p then k.queue[1..] else k.queue;
      s.(procs := s.procs[p := Proc(Run, Replace(s.procs[p].slots, NONE, l))],
         locks := s.locks[l := k.(locked := true, queue := q, owner := p)])
  }

  ghost predicate SameShape(s: State, t: State) {
    && |t.procs| == |s.procs| && |t.locks| == |s.locks| && |t.conds| == |s.conds|
    && forall p :: 0 <= p < |s.procs| ==> |t.procs[p].slots| == |s.procs[p].slots|
  }

  /** do_unblock_one on a lock's queue: the head will test the lock again. */
  function WakeHead(s: State, l: int): (t: State)
    requires IsLock(s, l)
    ensures SameShape(s, t)
  {
    var k := s.locks[l];
    if k.queue == [] then s
    else
      var t := s.(locks := s.locks[l := k.(queue := k.queue[1..])]);
      if IsProc(s, k.queue[0]) then SetPc(t, k.queue[0], Acquiring(l)) else t
  }

  /** A release before the waiting queue is looked at. */
  function Drop(s: State, p: int, l: int): (t: State)
    requires IsProc(s, p) && IsLock(s, l)
    ensures SameShape(s, t)
  {
    s.(procs := s.procs[p := s.procs[p].(slots := Replace(s.procs[p].slots, l, NONE))],
       locks := s.locks[l := s.locks[l].(locked := false, owner := NONE)])
  }

  /** do_mutex_lock_release */
  function Release(s: State, p: int, l: int): (t: State)
    requires IsProc(s, p) && IsLock(s, l)
    ensures SameShape(s, t)
  {
    WakeHead(Drop(s, p, l), l)
  }

  /** do_mutex_lock_release_multiple: one lock after the other */
  function ReleaseMany(s: State, p: int, ls: seq<int>): State
    requires IsProc(s, p) && forall i :: 0 <= i < |ls| ==> 0 <= ls[i] < |s.locks|
    decreases |ls|
  {
    if ls == [] then s else ReleaseMany(Release(s, p, ls[0]), p, ls[1..])
  }

  /** do_condition_wait up to its block: the lock is given back and the process is in the
      condition's queue before any other process can run. */
  function CondWait(s: State, p: int, c: int, l: int): State
    requires IsProc(s, p) && IsLock(s, l) && IsCond(s, c)
  {
    var t := Release(s, p, l);
    SetPc(t, p, CondBlocked(c, l)).(conds := t.conds[c := PushAbsent(t.conds[c], p)])
  }

  /** do_condition_signal */
  function Signal(s: State, c: int): State
    requires IsCond(s, c)
  {
    var q := s.conds[c];
    if q == [] then s
    else
      var t := s.(conds := s.conds[c := q[1..]]);
      if IsProc(s, q[0]) && s.procs[q[0]].pc.CondBlocked? then SetPc(t, q[0], Acquiring(s.procs[q[0]].pc.lock)) else t
  }

  /** do_condition_broadcast */
  function Broadcast(s: State, c: int): State
    requires IsCond(s, c)
    decreases |s.conds[c]|
  {
    if s.conds[c] == [] then s else Broadcast(Signal(s, c), c)
  }

  /** The loop of do_exit over locks[], from slot i on. */
  function ExitFrom(s: State, p: int, i: nat): State
    requires IsProc(s, p)
    decreases |s.procs[p].slots| - i
  {
    if i >= |s.procs[p].slots| then SetPc(s, p, Gone)
    else
      var l := s.procs[p].slots[i];
      ExitFrom(if IsLock(s, l) then Release(s, p, l) else s, p, i + 1)
  }

  datatype Event =
    | Init(l: int)
    | Request(p: int, l: int)
    | TryAgain(p: int)
    | DoRelease(p: int, l: int)
    | DoReleaseMany(p: int, ls: seq<int>)
    | DoCondWait(p: int, c: int, l: int)
    | DoSignal(c: int)
    | DoBroadcast(c: int)
    | DoExit(p: int)

  /** What callers owe: locks are set up before use, only holders release or wait, at most
      eight locks are held, calls come from running processes. */
  ghost predicate Enabled(s: State, e: Event) {
    match e
    case Init(l) => IsLock(s, l)
    case Request(p, l) =>
      && IsProc(s, p) && IsLock(s, l) && s.procs[p].pc == Run && s.locks[l].init
      && NONE in s.procs[p].slots
    case TryAgain(p) => IsProc(s, p) && s.procs[p].pc.Acquiring? && IsLock(s, s.procs[p].pc.lock)
    case DoRelease(p, l) => IsProc(s, p) && IsLock(s, l) && s.procs[p].pc == Run && IsHeld(s, p, l)
    case DoReleaseMany(p, ls) =>
      && IsProc(s, p) && s.procs[p].pc == Run && NoDup(ls)
      && forall i :: 0 <= i < |ls| ==> IsLock(s, ls[i]) && IsHeld(s, p, ls[i])
    case DoCondWait(p, c, l) =>
      IsProc(s, p) && IsLock(s, l) && IsCond(s, c) && s.procs[p].pc == Run && IsHeld(s, p, l)
    case DoSignal(c) => IsCond(s, c)
    case DoBroadcast(c) => IsCond(s, c)
    case DoExit(p) => IsProc(s, p) && s.procs[p].pc == Run
  }

  ghost function Apply(s: State, e: Event): State
    requires Enabled(s, e)
  {
    match e
    case Init(l) => InitLock(s, l)
    case Request(p, l) => SetPc(s, p, Acquiring(l))
    case TryAgain(p) => Try(s, p)
    case DoRelease(p, l) => Release(s, p, l)
    case DoReleaseMany(p, ls) => ReleaseMany(s, p, ls)
    case DoCondWait(p, c, l) => CondWait(s, p, c, l)
    case DoSignal(c) => Signal(s, c)
    case DoBroadcast(c) => Broadcast(s, c)
    case DoExit(p) => ExitFrom(s, p, 0)
  }

  ghost predicate IsRun(run: seq<State>, events: seq<Event>) {
    && |run| == |events| + 1
    && forall i :: 0 <= i < |events| ==> Enabled(run[i], events[i]) && run[i + 1] == Apply(run[i], events[i])
  }

  // ---------------------------------------------------------------- the invariant

  /** Slot i of process p names lock l. */
  ghost predicate Records(s: State, p: int, i: int, l: int) {
    IsProc(s, p) && 0 <= i < |s.procs[p].slots| && s.procs[p].slots[i] == l
  }

  /** A lock that is locked is recorded by its owner; one that is not is recorded by nobody. */
  ghost predicate Owned(s: State, l: int)
    requires IsLock(s, l)
  {
    var k := s.locks[l];
    && (k.locked ==> IsProc(s, k.owner) && l in s.procs[k.owner].slots)
    && (!k.locked ==> k.owner == NONE)
    && (forall p, i :: Records(s, p, i, l) ==> p == k.owner)
  }

  /** No process records a lock twice, and all slots are locks or empty. */
  ghost predicate SlotsOk(s: State, p: int)
    requires IsProc(s, p)
  {
    var c := s.procs[p].slots;
    && |c| == MAX_LOCK_NUM_FOR_A_PROC
    && (forall i :: 0 <= i < |c| ==> c[i] == NONE || IsLock(s, c[i]))
    && (forall i, j :: 0 <= i < |c| && 0 <= j < |c| && c[i] == c[j] != NONE ==> i == j)
  }

  ghost predicate NoDup(q: seq<int>) {
    forall i, j :: 0 <= i < |q| && 0 <= j < |q| && q[i] == q[j] ==> i == j
  }

  /** The waiting queue is exactly the processes blocked on the lock. */
  ghost predicate LockQueueOk(s: State, l: int)
    requires IsLock(s, l)
  {
    && NoDup(s.locks[l].queue)
    && (forall p :: p in s.locks[l].queue <==> IsProc(s, p) && s.procs[p].pc == Blocked(l))
  }

  ghost predicate CondQueueOk(s: State, c: int)
    requires IsCond(s, c)
  {
    && NoDup(s.conds[c])
    && (forall p :: p in s.conds[c] <==> IsProc(s, p) && s.procs[p].pc.CondBlocked? && s.procs[p].pc.cond == c)
  }

  ghost predicate PcOk(s: State, p: int)
    requires IsProc(s, p)
  {
    match s.procs[p].pc
    case Acquiring(l) => IsLock(s, l) && s.locks[l].init && NONE in s.procs[p].slots
    case Blocked(l) => IsLock(s, l) && s.locks[l].init && NONE in s.procs[p].slots
    case CondBlocked(c, l) => IsCond(s, c) && IsLock(s, l) && s.locks[l].init && NONE in s.procs[p].slots
    case Gone => forall i :: 0 <= i < |s.procs[p].slots| ==> s.procs[p].slots[i] == NONE
    case Run => true
  }

  /** Some process is about to test lock l. */
  ghost predicate Pending(s: State, l: int) {
    exists p :: IsProc(s, p) && s.procs[p].pc == Acquiring(l)
  }

  /** No lost wake-up: a free lock with waiters has a process about to take it. */
  ghost predicate Awake(s: State, l: int)
    requires IsLock(s, l)
  {
    !s.locks[l].locked && s.locks[l].queue != [] ==> Pending(s, l)
  }

  ghost predicate IdsOk(s: State) {
    && (forall l :: IsLock(s, l) && s.locks[l].init ==> s.locks[l].id < s.nextId)
    && (forall l, m | IsLock(s, l) && IsLock(s, m) && s.locks[l].init && s.locks[m].init ::
          s.locks[l].id == s.locks[m].id ==> l == m)
    && (forall l :: IsLock(s, l) && !s.locks[l].init ==> !s.locks[l].locked && s.locks[l].queue == [])
  }

  ghost predicate Inv(s: State) {
    && (forall l :: IsLock(s, l) ==> Owned(s, l))
    && (forall l :: IsLock(s, l) ==> LockQueueOk(s, l))
    && (forall l :: IsLock(s, l) ==> Awake(s, l))
    && (forall c :: IsCond(s, c) ==> CondQueueOk(s, c))
    && (forall p :: IsProc(s, p) ==> SlotsOk(s, p))
    && (forall p :: IsProc(s, p) ==> PcOk(s, p))
    && IdsOk(s)
  }
}
