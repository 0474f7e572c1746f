/** Mutual exclusion, no lost wake-ups and what each call keeps, over every run. */
module LockProofs {
  import opened Locks

  // ---------------------------------------------------------------- slots

  lemma ReplaceIs(slots: seq<int>, from: int, to: int) returns (i: nat)
    requires from in slots
    ensures i < |slots| && slots[i] == from && Replace(slots, from, to) == slots[i := to]
  {
    i := Find(slots, from);
  }

  /** Everything but Awake for one lock. */
  ghost predicate InvBut(s: State, x: int) {
    && (forall l :: IsLock(s, l) ==> Owned(s, l))
    && (forall l :: IsLock(s, l) ==> LockQueueOk(s, l))
    && (forall l :: IsLock(s, l) && l != x ==> Awake(s, l))
    && (forall c :: IsCond(s, c) ==> CondQueueOk(s, c))
    && (forall p :: IsProc(s, p) ==> SlotsOk(s, p))
    && (forall p :: IsProc(s, p) ==> PcOk(s, p))
    && IdsOk(s)
  }

  /** The parts of the invariant that do not look at slots and owners carry over. */
  lemma PendingElsewhere(s: State, t: State, p: int, l: int)
    requires IsProc(s, p) && |t.procs| == |s.procs|
    requires forall q :: IsProc(s, q) && q != p && s.procs[q].pc == Acquiring(l) ==> t.procs[q].pc == Acquiring(l)
    requires s.procs[p].pc != Acquiring(l) || t.procs[p].pc == Acquiring(l)
    ensures Pending(s, l) ==> Pending(t, l)
  {
    if Pending(s, l) {
      var q :| IsProc(s, q) && s.procs[q].pc == Acquiring(l);
      assert IsProc(t, q) && t.procs[q].pc == Acquiring(l);
    }
  }

  /** Records survive when slots and owners do. */
  lemma SameRecords(s: State, t: State)
    requires |t.procs| == |s.procs| && |t.locks| == |s.locks|
    requires forall p :: IsProc(s, p) ==> t.procs[p].slots == s.procs[p].slots
    requires forall l :: IsLock(s, l) ==> t.locks[l].locked == s.locks[l].locked && t.locks[l].owner == s.locks[l].owner
    requires forall l :: IsLock(s, l) ==> Owned(s, l)
    requires forall p :: IsProc(s, p) ==> SlotsOk(s, p)
    ensures forall l :: IsLock(t, l) ==> Owned(t, l)
    ensures forall p :: IsProc(t, p) ==> SlotsOk(t, p)
  {
    forall l | IsLock(t, l) ensures Owned(t, l) {
      assert IsLock(s, l) && Owned(s, l);
      forall q, i | Records(t, q, i, l) ensures q == t.locks[l].owner { assert IsProc(s, q) && Records(s, q, i, l); }
      if s.locks[l].locked { assert IsProc(s, s.locks[l].owner); }
    }
    forall p | IsProc(t, p) ensures SlotsOk(t, p) { assert IsProc(s, p) && SlotsOk(s, p); }
  }

  /** A move from one place outside the condition queues to another. */
  lemma SameConds(s: State, t: State, p: int)
    requires IsProc(s, p) && |t.procs| == |s.procs| && t.conds == s.conds
    requires forall q :: IsProc(s, q) && q != p ==> t.procs[q].pc == s.procs[q].pc
    requires !s.procs[p].pc.CondBlocked? && !t.procs[p].pc.CondBlocked?
    requires forall c :: IsCond(s, c) ==> CondQueueOk(s, c)
    ensures forall c :: IsCond(t, c) ==> CondQueueOk(t, c)
  {
    forall c | IsCond(t, c) ensures CondQueueOk(t, c) { assert IsCond(s, c) && CondQueueOk(s, c); }
  }

  /** A move from one place outside the lock queues to another. */
  lemma SameQueues(s: State, t: State, p: int)
    requires IsProc(s, p) && |t.procs| == |s.procs| && |t.locks| == |s.locks|
    requires forall l :: IsLock(s, l) ==> t.locks[l].queue == s.locks[l].queue
    requires forall q :: IsProc(s, q) && q != p ==> t.procs[q].pc == s.procs[q].pc
    requires !s.procs[p].pc.Blocked? && !t.procs[p].pc.Blocked?
    requires forall l :: IsLock(s, l) ==> LockQueueOk(s, l)
    ensures forall l :: IsLock(t, l) ==> LockQueueOk(t, l)
  {
    forall l | IsLock(t, l) ensures LockQueueOk(t, l) { assert IsLock(s, l) && LockQueueOk(s, l); }
  }

  // ---------------------------------------------------------------- changing a program counter

  /** A process outside all queues moves to another place outside all queues. */
  lemma FreeMove(s: State, p: int, pc: Pc, x: int)
    requires InvBut(s, x) && IsProc(s, p)
    requires s.procs[p].pc == Run && (pc.Acquiring? || pc == Gone)
    requires PcOk(SetPc(s, p, pc), p)
    ensures InvBut(SetPc(s, p, pc), x)
  {
    var t := SetPc(s, p, pc);
    SameRecords(s, t);
    SameQueues(s, t, p);
    SameConds(s, t, p);
    forall l | IsLock(t, l) && l != x ensures Awake(t, l) {
      assert Awake(s, l);
      PendingElsewhere(s, t, p, l);
    }
    forall q | IsProc(t, q) ensures PcOk(t, q) { assert PcOk(s, q); }
  }

  // ---------------------------------------------------------------- trying a lock

  lemma TryBlocks(s: State, p: int)
    requires Inv(s) && Enabled(s, TryAgain(p)) && s.locks[s.procs[p].pc.lock].locked
    ensures Inv(Try(s, p))
  {
    var l := s.procs[p].pc.lock;
    var t := Try(s, p);
    assert LockQueueOk(s, l) && PcOk(s, p);
    assert p !in s.locks[l].queue;
    SameRecords(s, t);
    forall m | IsLock(t, m) ensures LockQueueOk(t, m) { assert LockQueueOk(s, m); }
    forall m | IsLock(t, m) ensures Awake(t, m) {
      assert Awake(s, m);
      if m != l { PendingElsewhere(s, t, p, m); }
    }
    SameConds(s, t, p);
    forall q | IsProc(t, q) ensures PcOk(t, q) { assert PcOk(s, q); }
    IdsSame(s, t);
  }

  lemma IdsSame(s: State, t: State)
    requires IdsOk(s) && |t.locks| == |s.locks| && t.nextId == s.nextId
    requires forall l :: IsLock(s, l) ==> t.locks[l].init == s.locks[l].init && t.locks[l].id == s.locks[l].id
    requires forall l :: IsLock(s, l) && !s.locks[l].init ==> t.locks[l] == s.locks[l]
    ensures IdsOk(t)
  {
  }

  lemma TakenOwned(s: State, p: int, m: int)
    requires Inv(s) && Enabled(s, TryAgain(p)) && !s.locks[s.procs[p].pc.lock].locked && IsLock(s, m)
    ensures Owned(Try(s, p), m)
  {
    var l := s.procs[p].pc.lock;
    var t := Try(s, p);
    assert PcOk(s, p) && Owned(s, m) && Owned(s, l);
    var f := ReplaceIs(s.procs[p].slots, NONE, l);
    if m == l {
      assert t.procs[p].slots[f] == l;
    } else if s.locks[m].locked && s.locks[m].owner == p {
      var i :| 0 <= i < |s.procs[p].slots| && s.procs[p].slots[i] == m;
      assert t.procs[p].slots[i] == m;
    }
    forall q, i | Records(t, q, i, m) ensures q == t.locks[m].owner {
      assert (q == p && i == f) || Records(s, q, i, m);
    }
  }

  lemma TakenSlots(s: State, p: int, q: int)
    requires Inv(s) && Enabled(s, TryAgain(p)) && !s.locks[s.procs[p].pc.lock].locked && IsProc(s, q)
    ensures SlotsOk(Try(s, p), q)
  {
    var l := s.procs[p].pc.lock;
    assert PcOk(s, p) && Owned(s, l) && SlotsOk(s, q) && SlotsOk(s, p);
    var f := ReplaceIs(s.procs[p].slots, NONE, l);
    forall i | 0 <= i < |s.procs[p].slots| ensures s.procs[p].slots[i] != l {
      assert s.procs[p].slots[i] == l ==> Records(s, p, i, l);
    }
  }

  lemma TryTakes(s: State, p: int)
    requires Inv(s) && Enabled(s, TryAgain(p)) && !s.locks[s.procs[p].pc.lock].locked
    ensures Inv(Try(s, p)) && Try(s, p).procs[p].pc == Run && IsHeld(Try(s, p), p, s.procs[p].pc.lock)
    ensures Try(s, p).locks[s.procs[p].pc.lock].queue == s.locks[s.procs[p].pc.lock].queue
  {
    var l := s.procs[p].pc.lock;
    var t := Try(s, p);
    assert LockQueueOk(s, l) && PcOk(s, p);
    assert p !in s.locks[l].queue;
    forall m | IsLock(t, m) ensures Owned(t, m) { TakenOwned(s, p, m); }
    forall m | IsLock(t, m) ensures LockQueueOk(t, m) { assert LockQueueOk(s, m); }
    forall m | IsLock(t, m) ensures Awake(t, m) {
      assert Awake(s, m);
      if m != l { PendingElsewhere(s, t, p, m); }
    }
    forall c | IsCond(t, c) ensures CondQueueOk(t, c) { assert CondQueueOk(s, c); }
    forall q | IsProc(t, q) ensures SlotsOk(t, q) { TakenSlots(s, p, q); }
    forall q | IsProc(t, q) ensures PcOk(t, q) { assert PcOk(s, q); }
    IdsSame(s, t);
    var f := ReplaceIs(s.procs[p].slots, NONE, l);
    assert t.procs[p].slots[f] == l;
  }

  // ---------------------------------------------------------------- releasing

  lemma DropOwned(s: State, p: int, l: int, m: int)
    requires Inv(s) && IsProc(s, p) && IsLock(s, l) && IsHeld(s, p, l) && IsLock(s, m)
    ensures Owned(Drop(s, p, l), m)
  {
    var t := Drop(s, p, l);
    assert Owned(s, m) && Owned(s, l) && SlotsOk(s, p);
    var f := ReplaceIs(s.procs[p].slots, l, NONE);
    assert Records(s, p, f, l);
    if m != l && s.locks[m].locked && s.locks[m].owner == p {
      var i :| 0 <= i < |s.procs[p].slots| && s.procs[p].slots[i] == m;
      assert t.procs[p].slots[i] == m;
    }
    forall q, i | Records(t, q, i, m) ensures q == t.locks[m].owner {
      assert Records(s, q, i, m) && !(q == p && i == f);
    }
  }

  lemma DropKeeps(s: State, p: int, l: int)
    requires Inv(s) && IsProc(s, p) && IsLock(s, l) && IsHeld(s, p, l) && s.procs[p].pc == Run
    ensures InvBut(Drop(s, p, l), l) && NONE in Drop(s, p, l).procs[p].slots
    ensures !IsHeld(Drop(s, p, l), p, l)
  {
    var t := Drop(s, p, l);
    var f := ReplaceIs(s.procs[p].slots, l, NONE);
    assert t.procs[p].slots[f] == NONE;
    assert s.locks[l].locked by { assert Owned(s, l) && Records(s, p, f, l); }
    forall m | IsLock(t, m) ensures Owned(t, m) { DropOwned(s, p, l, m); }
    forall m | IsLock(t, m) ensures LockQueueOk(t, m) { assert LockQueueOk(s, m); }
    forall m | IsLock(t, m) && m != l ensures Awake(t, m) {
      assert Awake(s, m);
      PendingElsewhere(s, t, p, m);
    }
    forall c | IsCond(t, c) ensures CondQueueOk(t, c) { assert CondQueueOk(s, c); }
    forall q | IsProc(t, q) ensures SlotsOk(t, q) { assert SlotsOk(s, q); }
    forall q | IsProc(t, q) ensures PcOk(t, q) { assert PcOk(s, q); }
    IdsSame(s, t);
  }

  lemma WakeKeeps(s: State, l: int)
    requires InvBut(s, l) && IsLock(s, l)
    ensures Inv(WakeHead(s, l))
    ensures forall p :: IsProc(s, p) && s.procs[p].pc != Blocked(l) ==> WakeHead(s, l).procs[p] == s.procs[p]
    ensures WakeHead(s, l).conds == s.conds
  {
    var t := WakeHead(s, l);
    assert LockQueueOk(s, l);
    if s.locks[l].queue != [] {
      var h := s.locks[l].queue[0];
      assert h in s.locks[l].queue;
      assert PcOk(s, h);
      assert IsProc(t, h) && t.procs[h].pc == Acquiring(l);
      SameRecords(s, t);
      forall m | IsLock(t, m) ensures LockQueueOk(t, m) { assert LockQueueOk(s, m); }
      forall m | IsLock(t, m) ensures Awake(t, m) {
        if m != l {
          assert Awake(s, m);
          PendingElsewhere(s, t, h, m);
        }
      }
      SameConds(s, t, h);
      forall q | IsProc(t, q) ensures PcOk(t, q) { assert PcOk(s, q); }
      IdsSame(s, t);
    }
  }

  lemma ReleaseKeeps(s: State, p: int, l: int)
    requires Inv(s) && IsProc(s, p) && IsLock(s, l) && IsHeld(s, p, l) && s.procs[p].pc == Run
    ensures Inv(Release(s, p, l)) && Release(s, p, l).procs[p] == Drop(s, p, l).procs[p]
    ensures Release(s, p, l).procs[p].pc == Run && NONE in Release(s, p, l).procs[p].slots
    ensures Release(s, p, l).conds == s.conds
  {
    DropKeeps(s, p, l);
    WakeKeeps(Drop(s, p, l), l);
  }

  lemma {:induction false} ReleaseManyKeeps(s: State, p: int, ls: seq<int>)
    requires Inv(s) && Enabled(s, DoReleaseMany(p, ls))
    ensures Inv(ReleaseMany(s, p, ls)) && IsProc(ReleaseMany(s, p, ls), p) && ReleaseMany(s, p, ls).procs[p].pc == Run
    decreases |ls|
  {
    if ls != [] {
      var t := Release(s, p, ls[0]);
      ReleaseKeeps(s, p, ls[0]);
      var f := ReplaceIs(s.procs[p].slots, ls[0], NONE);
      forall i | 0 <= i < |ls[1..]| ensures IsLock(t, ls[1..][i]) && IsHeld(t, p, ls[1..][i]) {
        var m := ls[i + 1];
        assert IsHeld(s, p, m) && m != ls[0];
        var j :| 0 <= j < |s.procs[p].slots| && s.procs[p].slots[j] == m;
        assert t.procs[p].slots[j] == m;
      }
      ReleaseManyKeeps(t, p, ls[1..]);
    }
  }

  // ---------------------------------------------------------------- conditions

  /** A running process with a free slot joins a condition's queue. */
  lemma JoinKeeps(s: State, p: int, c: int, l: int)
    requires Inv(s) && IsProc(s, p) && IsCond(s, c) && IsLock(s, l) && s.procs[p].pc == Run
    requires NONE in s.procs[p].slots && s.locks[l].init
    ensures Inv(SetPc(s, p, CondBlocked(c, l)).(conds := s.conds[c := PushAbsent(s.conds[c], p)]))
    ensures PushAbsent(s.conds[c], p) == s.conds[c] + [p]
  {
    assert CondQueueOk(s, c);
    var t := SetPc(s, p, CondBlocked(c, l)).(conds := s.conds[c := PushAbsent(s.conds[c], p)]);
    SameRecords(s, t);
    SameQueues(s, t, p);
    forall m | IsLock(t, m) ensures Awake(t, m) {
      assert Awake(s, m);
      PendingElsewhere(s, t, p, m);
    }
    forall d | IsCond(t, d) ensures CondQueueOk(t, d) { assert CondQueueOk(s, d); }
    forall q | IsProc(t, q) ensures PcOk(t, q) { assert PcOk(s, q); }
    IdsSame(s, t);
  }

  lemma CondWaitKeeps(s: State, p: int, c: int, l: int)
    requires Inv(s) && Enabled(s, DoCondWait(p, c, l))
    ensures Inv(CondWait(s, p, c, l))
    ensures CondWait(s, p, c, l).conds == s.conds[c := s.conds[c] + [p]]
    ensures CondWait(s, p, c, l).procs[p].pc == CondBlocked(c, l)
  {
    assert IdsOk(s) && Owned(s, l);
    var i :| 0 <= i < |s.procs[p].slots| && s.procs[p].slots[i] == l;
    assert Records(s, p, i, l);
    ReleaseKeeps(s, p, l);
    JoinKeeps(Release(s, p, l), p, c, l);
  }

  lemma SignalKeeps(s: State, c: int)
    requires Inv(s) && IsCond(s, c)
    ensures Inv(Signal(s, c))
    ensures s.conds[c] != [] ==>
              && IsProc(s, s.conds[c][0]) && s.procs[s.conds[c][0]].pc.CondBlocked?
              && Signal(s, c).procs[s.conds[c][0]].pc == Acquiring(s.procs[s.conds[c][0]].pc.lock)
  {
    var t := Signal(s, c);
    assert CondQueueOk(s, c);
    if s.conds[c] != [] {
      var h := s.conds[c][0];
      assert h in s.conds[c];
      assert PcOk(s, h);
      SameRecords(s, t);
      SameQueues(s, t, h);
      forall m | IsLock(t, m) ensures Awake(t, m) {
        assert Awake(s, m);
        PendingElsewhere(s, t, h, m);
      }
      forall d | IsCond(t, d) ensures CondQueueOk(t, d) { assert CondQueueOk(s, d); }
      forall q | IsProc(t, q) ensures PcOk(t, q) { assert PcOk(s, q); }
      IdsSame(s, t);
    }
  }

  lemma {:induction false} BroadcastKeeps(s: State, c: int)
    requires Inv(s) && IsCond(s, c)
    ensures Inv(Broadcast(s, c)) && Broadcast(s, c).conds == s.conds[c := []]
    decreases |s.conds[c]|
  {
    if s.conds[c] != [] {
      SignalKeeps(s, c);
      BroadcastKeeps(Signal(s, c), c);
    } else {
      assert s.conds[c := []] == s.conds;
    }
  }

  // ---------------------------------------------------------------- init and exit

  lemma InitKeeps(s: State, l: int)
    requires Inv(s) && IsLock(s, l)
    ensures Inv(InitLock(s, l))
  {
    var t := InitLock(s, l);
    if !s.locks[l].init {
      SameRecords(s, t);
      forall m | IsLock(t, m) ensures LockQueueOk(t, m) { assert LockQueueOk(s, m); }
      forall m | IsLock(t, m) ensures Awake(t, m) {
        assert Awake(s, m);
        if Pending(s, m) {
          var q :| IsProc(s, q) && s.procs[q].pc == Acquiring(m);
          assert IsProc(t, q) && t.procs[q].pc == Acquiring(m);
        }
      }
      forall d | IsCond(t, d) ensures CondQueueOk(t, d) { assert CondQueueOk(s, d); }
      forall q | IsProc(t, q) ensures PcOk(t, q) { assert PcOk(s, q); }
    }
  }

  lemma {:induction false} ExitKeeps(s: State, p: int, i: nat)
    requires Inv(s) && IsProc(s, p) && s.procs[p].pc == Run && i <= |s.procs[p].slots|
    requires forall j :: 0 <= j < i ==> s.procs[p].slots[j] == NONE
    ensures Inv(ExitFrom(s, p, i)) && IsProc(ExitFrom(s, p, i), p)
    ensures ExitFrom(s, p, i).procs[p].pc == Gone
    ensures forall l :: IsLock(s, l) ==> !IsHeld(ExitFrom(s, p, i), p, l)
    decreases |s.procs[p].slots| - i
  {
    assert SlotsOk(s, p);
    if i >= |s.procs[p].slots| {
      FreeMove(s, p, Gone, NONE);
    } else {
      var l := s.procs[p].slots[i];
      if IsLock(s, l) {
        ReleaseKeeps(s, p, l);
        var f := ReplaceIs(s.procs[p].slots, l, NONE);
        ExitKeeps(Release(s, p, l), p, i + 1);
      } else {
        ExitKeeps(s, p, i + 1);
      }
    }
  }

  // ---------------------------------------------------------------- every run

  lemma StepKeepsInv(s: State, e: Event)
    requires Inv(s) && Enabled(s, e)
    ensures Inv(Apply(s, e))
  {
    match e
    case Init(l) => InitKeeps(s, l);
    case Request(p, l) => FreeMove(s, p, Acquiring(l), NONE);
    case TryAgain(p) => if s.locks[s.procs[p].pc.lock].locked { TryBlocks(s, p); } else { TryTakes(s, p); }
    case DoRelease(p, l) => ReleaseKeeps(s, p, l);
    case DoReleaseMany(p, ls) => ReleaseManyKeeps(s, p, ls);
    case DoCondWait(p, c, l) => CondWaitKeeps(s, p, c, l);
    case DoSignal(c) => SignalKeeps(s, c);
    case DoBroadcast(c) => BroadcastKeeps(s, c);
    case DoExit(p) => ExitKeeps(s, p, 0);
  }

  lemma StartInv(procs: nat, locks: nat, conds: nat)
    ensures Inv(Start(procs, locks, conds))
  {
    var s := Start(procs, locks, conds);
    forall l | IsLock(s, l) ensures Owned(s, l) {
      assert forall p, i :: !Records(s, p, i, l);
    }
  }

  lemma {:induction false} RunKeepsInv(run: seq<State>, events: seq<Event>, n: nat)
    requires IsRun(run, events) && n < |run|
    requires run[0] == Start(|run[0].procs|, |run[0].locks|, |run[0].conds|)
    ensures Inv(run[n])
  {
    if n == 0 {
      StartInv(|run[0].procs|, |run[0].locks|, |run[0].conds|);
    } else {
      RunKeepsInv(run, events, n - 1);
      StepKeepsInv(run[n - 1], events[n - 1]);
    }
  }

  /** Mutual exclusion in every reachable state: a lock is locked exactly when some process
      records it, and then in one slot of one process only. */
  lemma MutualExclusion(run: seq<State>, events: seq<Event>, n: nat, l: int)
    requires IsRun(run, events) && n < |run| && IsLock(run[n], l)
    requires run[0] == Start(|run[0].procs|, |run[0].locks|, |run[0].conds|)
    ensures run[n].locks[l].locked <==> exists p, i :: Records(run[n], p, i, l)
    ensures forall p, i, q, j :: Records(run[n], p, i, l) && Records(run[n], q, j, l) ==> p == q && i == j
  {
    RunKeepsInv(run, events, n);
    var s := run[n];
    assert Owned(s, l);
    if s.locks[l].locked {
      var p := s.locks[l].owner;
      var i :| 0 <= i < |s.procs[p].slots| && s.procs[p].slots[i] == l;
      assert Records(s, p, i, l);
    }
    forall p, i, q, j | Records(s, p, i, l) && Records(s, q, j, l) ensures p == q && i == j {
      assert SlotsOk(s, p);
    }
  }

  /** No lost wake-up in any reachable state: a free lock with waiters has a process that is
      about to test it, and that process is not blocked. */
  lemma NoLostWakeup(run: seq<State>, events: seq<Event>, n: nat, l: int) returns (p: int)
    requires IsRun(run, events) && n < |run| && IsLock(run[n], l)
    requires run[0] == Start(|run[0].procs|, |run[0].locks|, |run[0].conds|)
    requires !run[n].locks[l].locked && run[n].locks[l].queue != []
    ensures Enabled(run[n], TryAgain(p)) && run[n].procs[p].pc == Acquiring(l)
    ensures Try(run[n], p).locks[l].locked && IsHeld(Try(run[n], p), p, l)
  {
    RunKeepsInv(run, events, n);
    assert Awake(run[n], l);
    p :| IsProc(run[n], p) && run[n].procs[p].pc == Acquiring(l);
    TryTakes(run[n], p);
  }

  // ---------------------------------------------------------------- condition wait

  /** What may follow in a call that wants lock l: it goes on wanting it, or returns holding it. */
  ghost predicate Wants(s: State, p: int, l: int) {
    && IsProc(s, p)
    && (s.procs[p].pc == Acquiring(l) || s.procs[p].pc == Blocked(l)
        || (s.procs[p].pc.CondBlocked? && s.procs[p].pc.lock == l))
  }

  lemma WakeWants(s: State, l: int, p: int, m: int)
    requires IsLock(s, l) && LockQueueOk(s, l) && Wants(s, p, m)
    ensures Wants(WakeHead(s, l), p, m)
  {
    if s.locks[l].queue != [] { assert s.locks[l].queue[0] in s.locks[l].queue; }
  }

  lemma ReleaseWants(s: State, q: int, l: int, p: int, m: int)
    requires Inv(s) && IsProc(s, q) && IsLock(s, l) && Wants(s, p, m)
    ensures Wants(Release(s, q, l), p, m)
  {
    assert LockQueueOk(s, l);
    var d := Drop(s, q, l);
    assert LockQueueOk(d, l);
    WakeWants(d, l, p, m);
  }

  lemma {:induction false} ReleaseManyWants(s: State, q: int, ls: seq<int>, p: int, m: int)
    requires Inv(s) && Enabled(s, DoReleaseMany(q, ls)) && Wants(s, p, m)
    ensures Wants(ReleaseMany(s, q, ls), p, m)
    decreases |ls|
  {
    if ls != [] {
      var t := Release(s, q, ls[0]);
      ReleaseKeeps(s, q, ls[0]);
      ReleaseWants(s, q, ls[0], p, m);
      StillHeld(s, q, ls);
      ReleaseManyWants(t, q, ls[1..], p, m);
    }
  }

  lemma StillHeld(s: State, q: int, ls: seq<int>)
    requires Inv(s) && Enabled(s, DoReleaseMany(q, ls)) && ls != []
    ensures Inv(Release(s, q, ls[0])) && Enabled(Release(s, q, ls[0]), DoReleaseMany(q, ls[1..]))
  {
    var t := Release(s, q, ls[0]);
    ReleaseKeeps(s, q, ls[0]);
    var f := ReplaceIs(s.procs[q].slots, ls[0], NONE);
    forall i | 0 <= i < |ls[1..]| ensures IsLock(t, ls[1..][i]) && IsHeld(t, q, ls[1..][i]) {
      var m := ls[i + 1];
      assert IsHeld(s, q, m) && m != ls[0];
      var j :| 0 <= j < |s.procs[q].slots| && s.procs[q].slots[j] == m;
      assert t.procs[q].slots[j] == m;
    }
  }

  lemma {:induction false} ExitWants(s: State, q: int, i: nat, p: int, m: int)
    requires Inv(s) && IsProc(s, q) && s.procs[q].pc == Run && i <= |s.procs[q].slots| && Wants(s, p, m)
    requires forall j :: 0 <= j < i ==> s.procs[q].slots[j] == NONE
    ensures Wants(ExitFrom(s, q, i), p, m)
    decreases |s.procs[q].slots| - i
  {
    assert SlotsOk(s, q);
    if i < |s.procs[q].slots| {
      var l := s.procs[q].slots[i];
      if IsLock(s, l) {
        ReleaseKeeps(s, q, l);
        var f := ReplaceIs(s.procs[q].slots, l, NONE);
        ReleaseWants(s, q, l, p, m);
        ExitWants(Release(s, q, l), q, i + 1, p, m);
      } else {
        ExitWants(s, q, i + 1, p, m);
      }
    }
  }

  lemma {:induction false} BroadcastWants(s: State, c: int, p: int, m: int)
    requires Inv(s) && IsCond(s, c) && Wants(s, p, m)
    ensures Wants(Broadcast(s, c), p, m)
    decreases |s.conds[c]|
  {
    if s.conds[c] != [] {
      SignalKeeps(s, c);
      BroadcastWants(Signal(s, c), c, p, m);
    }
  }

  lemma StepWants(s: State, e: Event, p: int, l: int)
    requires Inv(s) && Enabled(s, e) && Wants(s, p, l)
    ensures IsProc(Apply(s, e), p)
    ensures Wants(Apply(s, e), p, l) || (Apply(s, e).procs[p].pc == Run && IsHeld(Apply(s, e), p, l))
  {
    match e
    case Init(_) =>
    case Request(_, _) =>
    case TryAgain(q) => if !s.locks[s.procs[q].pc.lock].locked { TryTakes(s, q); }
    case DoRelease(q, m) => ReleaseWants(s, q, m, p, l);
    case DoReleaseMany(q, ls) => ReleaseManyWants(s, q, ls, p, l);
    case DoCondWait(q, c, m) =>
      ReleaseKeeps(s, q, m);
      ReleaseWants(s, q, m, p, l);
    case DoSignal(c) => SignalKeeps(s, c);
    case DoBroadcast(c) => BroadcastWants(s, c, p, l);
    case DoExit(q) => ExitWants(s, q, 0, p, l);
  }

  /** do_condition_wait returns holding the lock: from the moment a process waits on a
      condition with lock l, the first state in which it runs again is one where it holds l. */
  lemma {:induction false} CondWaitReturnsLocked(run: seq<State>, events: seq<Event>, p: int, c: int, l: int, i: nat, n: nat)
    requires IsRun(run, events) && Inv(run[0]) && i < n < |run|
    requires events[i] == DoCondWait(p, c, l)
    requires forall k :: i < k < n ==> IsProc(run[k], p) && run[k].procs[p].pc != Run
    ensures IsProc(run[n], p)
    ensures Wants(run[n], p, l) || (run[n].procs[p].pc == Run && IsHeld(run[n], p, l))
    decreases n
  {
    AllInv(run, events, n - 1);
    if n == i + 1 {
      CondWaitKeeps(run[i], p, c, l);
    } else {
      CondWaitReturnsLocked(run, events, p, c, l, i, n - 1);
      StepWants(run[n - 1], events[n - 1], p, l);
    }
  }

  lemma {:induction false} AllInv(run: seq<State>, events: seq<Event>, n: nat)
    requires IsRun(run, events) && Inv(run[0]) && n < |run|
    ensures Inv(run[n])
  {
    if n > 0 {
      AllInv(run, events, n - 1);
      StepKeepsInv(run[n - 1], events[n - 1]);
    }
  }
}
