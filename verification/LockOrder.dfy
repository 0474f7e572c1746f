/** What the order that qsort leaves means for mutex_lock_acquire_multiple: the discipline behind
    NoDeadlock is kept exactly for the lists that qsort sorts, and without it two processes can end
    in a cycle. */
module LockOrder {
  import opened Locks
  import opened Deadlock
  import Q = Quicksort

  function Ids(s: State, ls: seq<int>): (r: seq<int>)
    requires forall k :: 0 <= k < |ls| ==> IsLock(s, ls[k])
    ensures |r| == |ls| && forall k :: 0 <= k < |ls| ==> r[k] == IdOf(s, ls[k])
  {
    if ls == [] then [] else [IdOf(s, ls[0])] + Ids(s, ls[1..])
  }

  predicate AboveEarlier(c: seq<int>, i: nat)
    requires i < |c|
  {
    forall j :: 0 <= j < i ==> c[j] < c[i]
  }

  ghost predicate Rising(c: seq<int>) {
    forall i, j :: 0 <= i < j < |c| ==> c[i] < c[j]
  }

  lemma RisesStepByStep(c: seq<int>)
    ensures Rising(c) <==> forall i :: 0 <= i < |c| ==> AboveEarlier(c, i)
  {
    if forall i :: 0 <= i < |c| ==> AboveEarlier(c, i) {
      forall i, j | 0 <= i < j < |c| ensures c[i] < c[j] { assert AboveEarlier(c, j); }
    }
  }

  /** A list of different locks that are set up. */
  ghost predicate Distinct(s: State, ls: seq<int>) {
    IdsOk(s) && NoDup(ls) && forall k :: 0 <= k < |ls| ==> IsLock(s, ls[k]) && s.locks[ls[k]].init
  }

  lemma DistinctIds(s: State, ls: seq<int>)
    requires Distinct(s, ls)
    ensures NoDup(Ids(s, ls))
  {
    var r := Ids(s, ls);
    forall i, j | 0 <= i < |r| && 0 <= j < |r| && r[i] == r[j] ensures i == j {
      assert IdOf(s, ls[i]) == IdOf(s, ls[j]);
      assert ls[i] == ls[j];
    }
  }

  lemma {:induction false} OncePerElement(c: seq<int>, x: int)
    requires NoDup(c)
    ensures multiset(c)[x] <= 1
  {
    if c != [] {
      var rest := c[1..];
      assert c == [c[0]] + rest;
      forall i, j | 0 <= i < |rest| && 0 <= j < |rest| && rest[i] == rest[j] ensures i == j { assert c[i + 1] == c[j + 1]; }
      OncePerElement(rest, x);
      forall i | 0 <= i < |rest| ensures rest[i] != c[0] { assert rest[i] == c[i + 1]; }
    }
  }

  lemma TwiceInMultiset(c: seq<int>, i: nat, j: nat)
    requires i < j < |c| && c[i] == c[j]
    ensures multiset(c)[c[i]] >= 2
  {
    assert c == c[..i] + [c[i]] + c[i + 1..j] + [c[j]] + c[j + 1..];
  }

  /** Without duplicates, being sorted is being strictly increasing. */
  lemma SortedIsRising(c: seq<int>)
    requires NoDup(c)
    ensures Rising(Q.Sort(c)) <==> Q.Sortable(c)
  {
    var r := Q.Sort(c);
    Q.SortsExactly(c);
    Q.SortPermutes(c);
    forall i, j | 0 <= i < j < |r| ensures r[i] != r[j] {
      OncePerElement(c, r[i]);
      if r[i] == r[j] { TwiceInMultiset(r, i, j); }
    }
    assert Rising(r) <==> Q.Sorted(r);
  }

  /** Of all locks, the process holds just these. */
  ghost predicate HoldsJust(s: State, p: int, c: seq<int>) {
    IsProc(s, p) && forall m :: IsLock(s, m) ==> (m in s.procs[p].slots <==> m in c)
  }

  /** The states in which a process asks for the locks of a list, one after the other. */
  ghost predicate Asks(s: State, p: int, order: seq<int>, states: seq<State>) {
    |states| == |order| && forall i :: 0 <= i < |order| ==> AsksAt(s, p, order, states[i], i)
  }

  ghost predicate AsksAt(s: State, p: int, order: seq<int>, t: State, i: nat)
    requires i < |order|
  {
    SameIds(s, t) && HoldsJust(t, p, order[..i]) && Enabled(t, Request(p, order[i]))
  }

  lemma AskedInOrder(s: State, p: int, order: seq<int>, t: State, i: nat)
    requires i < |order| && AsksAt(s, p, order, t, i) && forall k :: 0 <= k < |order| ==> IsLock(s, order[k])
    ensures Disciplined(t, Request(p, order[i])) <==> AboveEarlier(Ids(s, order), i)
  {
    var r := Ids(s, order);
    forall j | 0 <= j < i ensures order[j] in t.procs[p].slots {
      assert order[j] == order[..i][j];
    }
  }

  /** A process that holds nothing and asks for different locks in the order qsort leaves keeps the
      discipline of NoDeadlock if and only if the ids, as passed, are sortable. */
  lemma AcquireMultipleExactly(s: State, p: int, ls: seq<int>, order: seq<int>, states: seq<State>)
    requires Distinct(s, ls) && (forall k :: 0 <= k < |order| ==> IsLock(s, order[k])) && Ids(s, order) == Q.Sort(Ids(s, ls))
    requires Asks(s, p, order, states)
    ensures (forall i :: 0 <= i < |order| ==> Enabled(states[i], Request(p, order[i])) && Disciplined(states[i], Request(p, order[i])))
      <==> Q.Sortable(Ids(s, ls))
  {
    DistinctIds(s, ls);
    SortedIsRising(Ids(s, ls));
    var r := Ids(s, order);
    RisesStepByStep(r);
    forall i | 0 <= i < |order|
      ensures AsksAt(s, p, order, states[i], i)
      ensures Disciplined(states[i], Request(p, order[i])) <==> AboveEarlier(r, i)
    {
      AskedInOrder(s, p, order, states[i], i);
    }
  }

  // ---------------------------------------------------------------- a cycle

  /** A run of the lock protocol from the start of two processes and three locks. */
  ghost predicate ReachedBy(run: seq<State>, events: seq<Event>, t: State) {
    IsRun(run, events) && run[0] == Start(2, 3, 0) && run[|events|] == t
  }

  ghost predicate Reachable(t: State) {
    exists run, events :: ReachedBy(run, events, t)
  }

  lemma OneEvent(s: State, e: Event) returns (t: State)
    requires Reachable(s) && Enabled(s, e)
    ensures t == Apply(s, e) && Reachable(t)
  {
    t := Apply(s, e);
    var run, events :| ReachedBy(run, events, s);
    LongerRun(run, events, s, e, t);
  }

  lemma LongerRun(run: seq<State>, events: seq<Event>, s: State, e: Event, t: State)
    requires ReachedBy(run, events, s) && Enabled(s, e) && t == Apply(s, e)
    ensures ReachedBy(run + [t], events + [e], t)
  {
    var r, es := run + [t], events + [e];
    forall i | 0 <= i < |es| ensures Enabled(r[i], es[i]) && r[i + 1] == Apply(r[i], es[i]) {
      if i < |events| { assert r[i] == run[i] && r[i + 1] == run[i + 1] && es[i] == events[i]; }
    }
  }

  /** The slots of a process that holds these locks, taken in this order. */
  function Slots(c: seq<int>): seq<int>
    requires |c| <= MAX_LOCK_NUM_FOR_A_PROC
  {
    c + seq(MAX_LOCK_NUM_FOR_A_PROC - |c|, _ => NONE)
  }

  lemma {:induction false} RecordsNext(c: seq<int>, l: int)
    requires |c| < MAX_LOCK_NUM_FOR_A_PROC && NONE !in c
    ensures NONE in Slots(c) && Replace(Slots(c), NONE, l) == Slots(c + [l])
  {
    assert Slots(c)[|c|] == NONE;
    var i := Find(Slots(c), NONE);
    assert i == |c|;
  }

  ghost predicate Looks(s: State, pc0: Pc, c0: seq<int>, pc1: Pc, c1: seq<int>, owners: seq<int>) {
    && |c0| <= MAX_LOCK_NUM_FOR_A_PROC && |c1| <= MAX_LOCK_NUM_FOR_A_PROC
    && s.procs == [Proc(pc0, Slots(c0)), Proc(pc1, Slots(c1))]
    && |s.locks| == |owners| == 3
    && forall l :: 0 <= l < 3 ==> s.locks[l].init && s.locks[l].id == l && s.locks[l].owner == owners[l] && s.locks[l].queue == []
                                  && (s.locks[l].locked <==> owners[l] != NONE)
  }

  lemma SetUp() returns (s: State)
    ensures Reachable(s) && Looks(s, Run, [], Run, [], [NONE, NONE, NONE])
  {
    s := Start(2, 3, 0);
    assert ReachedBy([s], [], s);
    s := OneEvent(s, Init(0));
    s := OneEvent(s, Init(1));
    s := OneEvent(s, Init(2));
    assert Slots([]) == seq(MAX_LOCK_NUM_FOR_A_PROC, _ => NONE);
  }

  /** Process p takes a free lock. */
  lemma Takes(s: State, p: nat, c: seq<int>, l: nat) returns (t: State)
    requires Reachable(s) && p < |s.procs| == 2 && l < |s.locks| && |c| < MAX_LOCK_NUM_FOR_A_PROC && NONE !in c
    requires s.procs[p] == Proc(Run, Slots(c)) && s.locks[l].init && !s.locks[l].locked && s.locks[l].queue == []
    ensures Reachable(t) && t.procs == s.procs[p := Proc(Run, Slots(c + [l]))]
    ensures t.locks == s.locks[l := s.locks[l].(locked := true, owner := p)]
  {
    RecordsNext(c, l);
    t := OneEvent(s, Request(p, l));
    t := OneEvent(t, TryAgain(p));
  }

  /** Process p asks for a lock that is taken. */
  lemma Waits(s: State, p: nat, c: seq<int>, l: nat) returns (t: State)
    requires Reachable(s) && p < |s.procs| == 2 && l < |s.locks| && |c| < MAX_LOCK_NUM_FOR_A_PROC && NONE !in c
    requires s.procs[p] == Proc(Run, Slots(c)) && s.locks[l].init && s.locks[l].locked
    ensures Reachable(t) && t.procs == s.procs[p := Proc(Blocked(l), Slots(c))]
    ensures t.locks == s.locks[l := s.locks[l].(queue := PushAbsent(s.locks[l].queue, p))]
  {
    RecordsNext(c, l);
    t := OneEvent(s, Request(p, l));
    t := OneEvent(t, TryAgain(p));
  }

  lemma FirstOrder()
    ensures Q.Sort([2, 0, 1]) == [0, 2, 1]
  {
    var s := [2, 0, 1];
    assert Q.SplitTo(s, 1) == Q.Parts([2], []);
    assert Q.SplitTo(s, 2) == Q.Parts([2, 0], []);
    assert Q.SplitTo(s, 3) == Q.Parts([2, 0], [1]);
    Q.SortIs(s);
    assert Q.Reverse([2, 0]) == [0, 2];
  }

  lemma SecondOrder()
    ensures Q.Sort([1, 2]) == [1, 2]
  {
    var s := [1, 2];
    assert Q.SplitTo(s, 1) == Q.Parts([1], []);
    assert Q.SplitTo(s, 2) == Q.Parts([1], [2]);
    Q.SortIs(s);
    assert Q.Reverse([1]) == [1];
  }

  /** Processes 0 and 1 call mutex_lock_acquire_multiple for the locks [2, 0, 1] and [1, 2].  In the
      order qsort leaves, 0 takes 0 and 2 and asks for 1, and 1 takes 1 and asks for 2: a cycle. */
  lemma AcquireMultipleDeadlocks() returns (run: seq<State>, events: seq<Event>)
    ensures IsRun(run, events) && run[0] == Start(2, 3, 0)
    ensures Q.Sort([2, 0, 1]) == [0, 2, 1] && Q.Sort([1, 2]) == [1, 2]
    ensures IsPath(run[|events|], [0, 1, 0])
  {
    FirstOrder();
    SecondOrder();
    var s := SetUp();
    s := Takes(s, 0, [], 0);
    s := Takes(s, 0, [0], 2);
    s := Takes(s, 1, [], 1);
    s := Waits(s, 0, [0, 2], 1);
    s := Waits(s, 1, [1], 2);
    assert WaitsFor(s, 0, 1) && WaitsFor(s, 1, 0);
    run, events :| ReachedBy(run, events, s);
  }
}
