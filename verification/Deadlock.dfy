/** Deadlock freedom for processes that take locks in increasing order of their ids. */
module Deadlock {
  import opened Locks
  import opened LockProofs

  function IdOf(s: State, l: int): nat
    requires IsLock(s, l)
  {
    s.locks[l].id
  }

  /** All locks process p holds have smaller ids than lock l, except possibly `but`. */
  ghost predicate Below(s: State, p: int, l: int, but: int)
    requires IsProc(s, p) && IsLock(s, l)
  {
    forall m :: m in s.procs[p].slots && IsLock(s, m) && m != but ==> IdOf(s, m) < IdOf(s, l)
  }

  /** The discipline: a lock is requested only above everything held.  A condition wait gives
      its own lock back first. */
  ghost predicate Disciplined(s: State, e: Event)
    requires Enabled(s, e)
  {
    match e
    case Request(p, l) => Below(s, p, l, NONE)
    case DoCondWait(p, _, l) => Below(s, p, l, l)
    case _ => true
  }

  /** The lock a process waits for or will ask for when woken. */
  function Target(s: State, p: int): int
    requires IsProc(s, p)
  {
    match s.procs[p].pc
    case Acquiring(l) => l
    case Blocked(l) => l
    case CondBlocked(_, l) => l
    case _ => NONE
  }

  ghost predicate OrderedAt(s: State, p: int)
    requires IsProc(s, p)
  {
    Target(s, p) == NONE || (IsLock(s, Target(s, p)) && Below(s, p, Target(s, p), NONE))
  }

  ghost predicate Ordered(s: State) {
    forall p :: IsProc(s, p) ==> OrderedAt(s, p)
  }

  // ---------------------------------------------------------------- the discipline is kept

  /** Ids do not change while locks are in use. */
  ghost predicate SameIds(s: State, t: State) {
    |t.procs| == |s.procs| && |t.locks| == |s.locks| && |t.conds| == |s.conds|
    && forall l :: 0 <= l < |s.locks| ==> t.locks[l].id == s.locks[l].id
  }

  /** Waking and releasing never give a process a lock it did not hold or a new target. */
  ghost predicate Shrinks(s: State, t: State) {
    && SameIds(s, t)
    && (forall p :: IsProc(s, p) ==> Target(t, p) == Target(s, p) || Target(t, p) == NONE)
    && (forall p, m :: IsProc(s, p) && m != NONE && m in t.procs[p].slots ==> m in s.procs[p].slots)
  }

  lemma ShrinksOrdered(s: State, t: State)
    requires Ordered(s) && Shrinks(s, t)
    ensures Ordered(t)
  {
    forall p | IsProc(t, p) ensures OrderedAt(t, p) {
      assert IsProc(s, p) && OrderedAt(s, p);
    }
  }

  lemma ShrinksTwice(s: State, t: State, u: State)
    requires Shrinks(s, t) && Shrinks(t, u)
    ensures Shrinks(s, u)
  {
    forall p | IsProc(s, p) ensures Target(u, p) == Target(s, p) || Target(u, p) == NONE {
      assert IsProc(t, p);
    }
    forall p, m | IsProc(s, p) && m != NONE && m in u.procs[p].slots ensures m in s.procs[p].slots {
      assert IsProc(t, p) && m in t.procs[p].slots;
    }
  }

  lemma WakeShrinks(s: State, l: int)
    requires IsLock(s, l) && LockQueueOk(s, l)
    ensures Shrinks(s, WakeHead(s, l))
  {
    if s.locks[l].queue != [] { assert s.locks[l].queue[0] in s.locks[l].queue; }
  }

  lemma DropShrinks(s: State, p: int, l: int)
    requires IsProc(s, p) && IsLock(s, l)
    ensures Shrinks(s, Drop(s, p, l))
  {
  }

  lemma ReleaseShrinks(s: State, p: int, l: int)
    requires Inv(s) && IsProc(s, p) && IsLock(s, l)
    ensures Shrinks(s, Release(s, p, l))
  {
    assert LockQueueOk(s, l);
    var d := Drop(s, p, l);
    assert LockQueueOk(d, l);
    DropShrinks(s, p, l);
    WakeShrinks(d, l);
    ShrinksTwice(s, d, Release(s, p, l));
  }

  lemma {:induction false} ReleaseManyShrinks(s: State, p: int, ls: seq<int>)
    requires Inv(s) && Enabled(s, DoReleaseMany(p, ls))
    ensures Shrinks(s, ReleaseMany(s, p, ls))
    decreases |ls|
  {
    if ls != [] {
      StillHeld(s, p, ls);
      ReleaseShrinks(s, p, ls[0]);
      ReleaseManyShrinks(Release(s, p, ls[0]), p, ls[1..]);
      ShrinksTwice(s, Release(s, p, ls[0]), ReleaseMany(s, p, ls));
    }
  }

  lemma SignalShrinks(s: State, c: int)
    requires Inv(s) && IsCond(s, c)
    ensures Shrinks(s, Signal(s, c))
  {
    SignalKeeps(s, c);
  }

  lemma {:induction false} BroadcastShrinks(s: State, c: int)
    requires Inv(s) && IsCond(s, c)
    ensures Shrinks(s, Broadcast(s, c))
    decreases |s.conds[c]|
  {
    if s.conds[c] != [] {
      SignalKeeps(s, c);
      SignalShrinks(s, c);
      BroadcastShrinks(Signal(s, c), c);
      ShrinksTwice(s, Signal(s, c), Broadcast(s, c));
    }
  }

  lemma {:induction false} ExitShrinks(s: State, p: int, i: nat)
    requires Inv(s) && IsProc(s, p) && s.procs[p].pc == Run && i <= |s.procs[p].slots|
    requires forall j :: 0 <= j < i ==> s.procs[p].slots[j] == NONE
    ensures Shrinks(s, ExitFrom(s, p, i))
    decreases |s.procs[p].slots| - i
  {
    assert SlotsOk(s, p);
    if i < |s.procs[p].slots| {
      var l := s.procs[p].slots[i];
      if IsLock(s, l) {
        ReleaseKeeps(s, p, l);
        var f := ReplaceIs(s.procs[p].slots, l, NONE);
        ReleaseShrinks(s, p, l);
        ExitShrinks(Release(s, p, l), p, i + 1);
        ShrinksTwice(s, Release(s, p, l), ExitFrom(s, p, i));
      } else {
        ExitShrinks(s, p, i + 1);
      }
    }
  }

  lemma TryOrdered(s: State, p: int)
    requires Inv(s) && Ordered(s) && Enabled(s, TryAgain(p))
    ensures Ordered(Try(s, p))
  {
    var t := Try(s, p);
    forall q | IsProc(t, q) ensures OrderedAt(t, q) { assert IsProc(s, q) && OrderedAt(s, q); }
  }

  lemma RequestOrdered(s: State, p: int, l: int)
    requires Ordered(s) && Enabled(s, Request(p, l)) && Below(s, p, l, NONE)
    ensures Ordered(SetPc(s, p, Acquiring(l)))
  {
    var t := SetPc(s, p, Acquiring(l));
    forall q | IsProc(t, q) ensures OrderedAt(t, q) { assert IsProc(s, q) && OrderedAt(s, q); }
  }

  lemma CondWaitOrdered(s: State, p: int, c: int, l: int)
    requires Inv(s) && Ordered(s) && Enabled(s, DoCondWait(p, c, l)) && Below(s, p, l, l)
    ensures Ordered(CondWait(s, p, c, l))
  {
    var r := Release(s, p, l);
    ReleaseShrinks(s, p, l);
    ShrinksOrdered(s, r);
    DropKeeps(s, p, l);
    ReleaseKeeps(s, p, l);
    var t := CondWait(s, p, c, l);
    forall q | IsProc(t, q) ensures OrderedAt(t, q) {
      assert IsProc(r, q) && OrderedAt(r, q);
      if q == p {
        forall m | m in t.procs[p].slots && IsLock(t, m) ensures IdOf(t, m) < IdOf(t, l) {
          assert m != l && m in s.procs[p].slots;
        }
      }
    }
  }

  lemma InitOrdered(s: State, l: int)
    requires Inv(s) && Ordered(s) && IsLock(s, l)
    ensures Ordered(InitLock(s, l))
  {
    var t := InitLock(s, l);
    if !s.locks[l].init {
      assert Owned(s, l);
      forall q | IsProc(t, q) ensures OrderedAt(t, q) {
        assert IsProc(s, q) && OrderedAt(s, q) && PcOk(s, q);
        assert Target(s, q) != l;
        forall i | 0 <= i < |s.procs[q].slots| ensures s.procs[q].slots[i] != l {
          assert s.procs[q].slots[i] == l ==> Records(s, q, i, l);
        }
      }
    }
  }

  lemma StepKeepsOrder(s: State, e: Event)
    requires Inv(s) && Ordered(s) && Enabled(s, e) && Disciplined(s, e)
    ensures Ordered(Apply(s, e))
  {
    match e
    case Init(l) => InitOrdered(s, l);
    case Request(p, l) => RequestOrdered(s, p, l);
    case TryAgain(p) => TryOrdered(s, p);
    case DoRelease(p, l) => ReleaseShrinks(s, p, l); ShrinksOrdered(s, Apply(s, e));
    case DoReleaseMany(p, ls) => ReleaseManyShrinks(s, p, ls); ShrinksOrdered(s, Apply(s, e));
    case DoCondWait(p, c, l) => CondWaitOrdered(s, p, c, l);
    case DoSignal(c) => SignalShrinks(s, c); ShrinksOrdered(s, Apply(s, e));
    case DoBroadcast(c) => BroadcastShrinks(s, c); ShrinksOrdered(s, Apply(s, e));
    case DoExit(p) => ExitShrinks(s, p, 0); ShrinksOrdered(s, Apply(s, e));
  }

  lemma {:induction false} RunKeepsOrder(run: seq<State>, events: seq<Event>, n: nat)
    requires IsRun(run, events) && n < |run|
    requires run[0] == Start(|run[0].procs|, |run[0].locks|, |run[0].conds|)
    requires forall i :: 0 <= i < n ==> Disciplined(run[i], events[i])
    ensures Inv(run[n]) && Ordered(run[n])
  {
    LockProofs.RunKeepsInv(run, events, n);
    if n > 0 {
      RunKeepsOrder(run, events, n - 1);
      StepKeepsOrder(run[n - 1], events[n - 1]);
    }
  }

  // ---------------------------------------------------------------- no cycle

  /** Process p waits for a lock that process q owns. */
  ghost predicate WaitsFor(s: State, p: int, q: int) {
    && IsProc(s, p) && (s.procs[p].pc.Blocked? || s.procs[p].pc.Acquiring?)
    && IsLock(s, s.procs[p].pc.lock) && s.locks[s.procs[p].pc.lock].locked && s.locks[s.procs[p].pc.lock].owner == q
  }

  ghost predicate IsPath(s: State, path: seq<int>) {
    forall i :: 0 <= i < |path| - 1 ==> WaitsFor(s, path[i], path[i + 1])
  }

  lemma IdsRise(s: State, p: int, q: int, r: int)
    requires Inv(s) && Ordered(s) && WaitsFor(s, p, q) && WaitsFor(s, q, r)
    ensures IdOf(s, s.procs[p].pc.lock) < IdOf(s, s.procs[q].pc.lock)
  {
    assert Owned(s, s.procs[p].pc.lock) && OrderedAt(s, q);
  }

  lemma {:induction false} IdsRiseAlong(s: State, path: seq<int>, n: nat)
    requires Inv(s) && Ordered(s) && IsPath(s, path) && 0 < n < |path| - 1
    ensures WaitsFor(s, path[0], path[1]) && WaitsFor(s, path[n], path[n + 1])
    ensures IdOf(s, s.procs[path[0]].pc.lock) < IdOf(s, s.procs[path[n]].pc.lock)
  {
    IdsRise(s, path[n - 1], path[n], path[n + 1]);
    if n > 1 { IdsRiseAlong(s, path, n - 1); }
  }

  /** No reachable state of a disciplined run has a cycle in the wait-for graph, of any length. */
  lemma NoDeadlock(run: seq<State>, events: seq<Event>, n: nat, cycle: seq<int>)
    requires IsRun(run, events) && n < |run|
    requires run[0] == Start(|run[0].procs|, |run[0].locks|, |run[0].conds|)
    requires forall i :: 0 <= i < n ==> Disciplined(run[i], events[i])
    requires |cycle| >= 2 && cycle[0] == cycle[|cycle| - 1]
    ensures !IsPath(run[n], cycle)
  {
    RunKeepsOrder(run, events, n);
    if IsPath(run[n], cycle) {
      var path := cycle + [cycle[1]];
      assert forall i :: 0 <= i < |path| - 1 ==> WaitsFor(run[n], path[i], path[i + 1]);
      IdsRiseAlong(run[n], path, |cycle| - 1);
    }
  }

  ghost predicate HoldsSome(s: State, p: int)
    requires IsProc(s, p)
  {
    exists l :: IsLock(s, l) && IsHeld(s, p, l)
  }

  /** Behind every waiting process, found by following owners to ever larger ids, there is a process
      that holds a lock and does not wait for one, or one that is about to take a free lock. */
  lemma {:induction false} SomeoneRuns(s: State, p: int, q: int) returns (r: int)
    requires Inv(s) && Ordered(s) && WaitsFor(s, p, q)
    ensures IsProc(s, r)
    ensures s.procs[r].pc == Run || s.procs[r].pc.CondBlocked?
            || (s.procs[r].pc.Acquiring? && IsLock(s, s.procs[r].pc.lock) && !s.locks[s.procs[r].pc.lock].locked)
    ensures s.procs[r].pc == Run || s.procs[r].pc.CondBlocked? ==> HoldsSome(s, r)
    decreases s.nextId - IdOf(s, s.procs[p].pc.lock)
  {
    var l := s.procs[p].pc.lock;
    assert Owned(s, l) && LockQueueOk(s, l);
    if (s.procs[q].pc.Blocked? || s.procs[q].pc.Acquiring?) && s.locks[Target(s, q)].locked {
      assert PcOk(s, q);
      IdsRise(s, p, q, s.locks[Target(s, q)].owner);
      assert Owned(s, Target(s, q));
      r := SomeoneRuns(s, q, s.locks[Target(s, q)].owner);
    } else if s.procs[q].pc.Blocked? {
      assert PcOk(s, q) && LockQueueOk(s, Target(s, q)) && Awake(s, Target(s, q));
      assert q in s.locks[Target(s, q)].queue;
      r :| IsProc(s, r) && s.procs[r].pc == Acquiring(Target(s, q));
    } else {
      assert PcOk(s, q);
      r := q;
    }
  }

  /** When nobody sleeps on a condition with another lock in hand, somebody can really move: a
      running holder, or a process that takes a free lock. */
  lemma SomeoneMoves(s: State, p: int, q: int) returns (r: int)
    requires Inv(s) && Ordered(s) && WaitsFor(s, p, q)
    requires forall x :: IsProc(s, x) && s.procs[x].pc.CondBlocked? ==> !HoldsSome(s, x)
    ensures IsProc(s, r)
    ensures (s.procs[r].pc == Run && HoldsSome(s, r))
            || (Enabled(s, TryAgain(r)) && IsHeld(Try(s, r), r, s.procs[r].pc.lock))
  {
    r := SomeoneRuns(s, p, q);
    if s.procs[r].pc.Acquiring? { TryTakes(s, r); }
  }

  // ---------------------------------------------------------------- sorted requests

  /** Ids are unique, so a list of different locks in order of id is strictly increasing:
      asking for them one after the other keeps the discipline. */
  lemma SortedIsStrict(s: State, ls: seq<int>, i: nat, j: nat)
    requires IdsOk(s) && i < j < |ls|
    requires forall k :: 0 <= k < |ls| ==> IsLock(s, ls[k]) && s.locks[ls[k]].init
    requires NoDup(ls)
    requires forall a, b :: 0 <= a < b < |ls| ==> s.locks[ls[a]].id <= s.locks[ls[b]].id
    ensures s.locks[ls[i]].id < s.locks[ls[j]].id
  {
    assert ls[i] != ls[j];
  }
}
