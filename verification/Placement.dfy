/** Where every process is: over all runs without kill, each live process is in exactly one
    place, and the kind of place agrees with its status and priority. */
module Placement {
  import opened Scheduler

  /** How often a process occurs in all the queues together. */
  ghost function Occ(qs: seq<seq<Pid>>, p: Pid): nat {
    if qs == [] then 0 else multiset(qs[0])[p] + Occ(qs[1..], p)
  }

  lemma {:induction false} OccUpdate(qs: seq<seq<Pid>>, i: nat, c: seq<Pid>, p: Pid)
    requires i < |qs|
    ensures Occ(qs[i := c], p) + multiset(qs[i])[p] == Occ(qs, p) + multiset(c)[p]
    decreases |qs|
  {
    if i == 0 {
      assert qs[i := c][1..] == qs[1..];
    } else {
      assert qs[i := c][1..] == qs[1..][i - 1 := c];
      OccUpdate(qs[1..], i - 1, c, p);
    }
  }

  lemma {:induction false} OccHas(qs: seq<seq<Pid>>, i: nat, p: Pid)
    requires i < |qs|
    ensures multiset(qs[i])[p] <= Occ(qs, p)
    decreases |qs|
  {
    if i > 0 { OccHas(qs[1..], i - 1, p); }
  }

  lemma {:induction false} OccWhere(qs: seq<seq<Pid>>, p: Pid) returns (i: nat)
    requires Occ(qs, p) > 0
    ensures i < |qs| && p in qs[i]
    decreases |qs|
  {
    if p in multiset(qs[0]) {
      i := 0;
    } else {
      var k := OccWhere(qs[1..], p);
      i := k + 1;
    }
  }

  /** Queues and the processes `hand` the kernel is holding make up the live processes,
      each once. */
  ghost predicate Placed(s: Sys, hand: multiset<Pid>)
    requires WellFormed(s)
  {
    forall p: Pid :: hand[p] + Occ(s.queues, p) == if s.procs[p].status.Live() then 1 else 0
  }

  ghost predicate ReadyTyped(s: Sys, q: nat, c: seq<Pid>)
    requires WellFormed(s)
  {
    forall i :: 0 <= i < |c| ==> s.procs[c[i]].status.Runnable() && s.procs[c[i]].priority == q
  }

  ghost predicate BlockTyped(s: Sys, c: seq<Pid>)
    requires WellFormed(s)
  {
    forall i :: 0 <= i < |c| ==> s.procs[c[i]].status == Blocked
  }

  ghost predicate Typed(s: Sys)
    requires WellFormed(s)
  {
    && (forall q :: 0 <= q < MAX_PRIORITY_NUM ==> ReadyTyped(s, q, s.queues[q]))
    && (forall q :: MAX_PRIORITY_NUM <= q < |s.queues| ==> BlockTyped(s, s.queues[q]))
  }

  /** The idle process of init/main.c never blocks. */
  ghost predicate IdleRuns(s: Sys)
    requires WellFormed(s)
  {
    s.procs[0].status.Runnable() && s.procs[0].priority == 0
  }

  ghost predicate Inv(s: Sys) {
    && WellFormed(s) && Typed(s) && IdleRuns(s)
    && Placed(s, multiset{s.current})
    && s.procs[s.current].status.Runnable()
  }

  // ---------------------------------------------------------------- consequences

  lemma HeldIsUnqueued(s: Sys, hand: multiset<Pid>, p: Pid)
    requires WellFormed(s) && Placed(s, hand) && p in hand
    ensures Occ(s.queues, p) == 0 && hand[p] == 1 && s.procs[p].status.Live()
    ensures forall q :: 0 <= q < |s.queues| ==> p !in s.queues[q]
  {
    forall q | 0 <= q < |s.queues| ensures p !in s.queues[q] {
      OccHas(s.queues, q, p);
    }
  }

  lemma TwiceCounted(c: seq<Pid>, i: nat, j: nat)
    requires i < j < |c| && c[i] == c[j]
    ensures multiset(c)[c[i]] >= 2
  {
    assert c == c[..i] + [c[i]] + c[i + 1..j] + [c[j]] + c[j + 1..];
  }

  lemma QueuedOnce(s: Sys, hand: multiset<Pid>, q: nat, r: nat, i: nat, j: nat)
    requires WellFormed(s) && Placed(s, hand)
    requires q < |s.queues| && i < |s.queues[q]| && r < |s.queues| && j < |s.queues[r]|
    requires s.queues[q][i] == s.queues[r][j]
    ensures q == r && i == j
  {
    var c, p := s.queues[q], s.queues[q][i];
    assert Occ(s.queues, p) <= 1;
    OccHas(s.queues, q, p);
    if q == r {
      if i != j { TwiceCounted(c, if i < j then i else j, if i < j then j else i); }
    } else {
      OccUpdate(s.queues, q, [], p);
      OccHas(s.queues[q := []], r, p);
    }
  }

  lemma NoExited(s: Sys, q: nat)
    requires WellFormed(s) && Typed(s) && q < |s.queues|
    ensures DropExited(s.procs, s.queues[q]) == s.queues[q]
  {
    if s.queues[q] != [] {
      assert if q < MAX_PRIORITY_NUM then ReadyTyped(s, q, s.queues[q]) else BlockTyped(s, s.queues[q]);
    }
  }

  // ---------------------------------------------------------------- what each primitive keeps

  lemma AfterDequeue(s: Sys, hand: multiset<Pid>, q: nat)
    requires WellFormed(s) && Typed(s) && Placed(s, hand)
    requires q < |s.queues| && s.queues[q] != []
    ensures
      var t := WithQueue(s, q, s.queues[q][1..]);
      WellFormed(t) && Typed(t) && Placed(t, hand + multiset{s.queues[q][0]})
    ensures q >= MAX_PRIORITY_NUM ==> s.procs[s.queues[q][0]].status == Blocked
    ensures q < MAX_PRIORITY_NUM ==> s.procs[s.queues[q][0]].status.Runnable() && s.procs[s.queues[q][0]].priority == q
  {
    var c := s.queues[q];
    var t := WithQueue(s, q, c[1..]);
    assert c == [c[0]] + c[1..];
    forall p: Pid ensures Occ(t.queues, p) + multiset{c[0]}[p] == Occ(s.queues, p) {
      OccUpdate(s.queues, q, c[1..], p);
    }
    assert if q < MAX_PRIORITY_NUM then ReadyTyped(s, q, c) else BlockTyped(s, c);
    TypedElsewhere(s, t, q);
  }

  /** Typing of the other queues survives when no queued process changes. */
  lemma TypedElsewhere(s: Sys, t: Sys, q: nat)
    requires WellFormed(s) && WellFormed(t) && Typed(s)
    requires q < |s.queues| == |t.queues| && t.queues == s.queues[q := t.queues[q]]
    requires forall r, i :: 0 <= r < |s.queues| && r != q && 0 <= i < |s.queues[r]|
               ==> t.procs[s.queues[r][i]] == s.procs[s.queues[r][i]]
    requires if q < MAX_PRIORITY_NUM then ReadyTyped(t, q, t.queues[q]) else BlockTyped(t, t.queues[q])
    ensures Typed(t)
  {
    forall r | 0 <= r < MAX_PRIORITY_NUM ensures ReadyTyped(t, r, t.queues[r]) {
      if r != q { assert ReadyTyped(s, r, s.queues[r]); }
    }
    forall r | MAX_PRIORITY_NUM <= r < |t.queues| ensures BlockTyped(t, t.queues[r]) {
      if r != q { assert BlockTyped(s, s.queues[r]); }
    }
  }

  /** A held process may be changed at will as long as it stays live. */
  lemma AfterHeldUpdate(s: Sys, hand: multiset<Pid>, p: Pid, x: Proc)
    requires WellFormed(s) && Typed(s) && Placed(s, hand) && p in hand
    requires x.status.Live() && x.priority < MAX_PRIORITY_NUM
    ensures WellFormed(WithProc(s, p, x)) && Typed(WithProc(s, p, x)) && Placed(WithProc(s, p, x), hand)
  {
    HeldIsUnqueued(s, hand, p);
    var t := WithProc(s, p, x);
    TypedWithout(s, t, p);
  }

  lemma TypedWithout(s: Sys, t: Sys, p: Pid)
    requires WellFormed(s) && WellFormed(t) && Typed(s) && t.queues == s.queues
    requires forall q :: 0 <= q < |s.queues| ==> p !in s.queues[q]
    requires forall r: Pid :: r != p ==> t.procs[r] == s.procs[r]
    ensures Typed(t)
  {
    forall r | 0 <= r < MAX_PRIORITY_NUM ensures ReadyTyped(t, r, t.queues[r]) {
      assert ReadyTyped(s, r, s.queues[r]);
      forall i | 0 <= i < |s.queues[r]| ensures s.queues[r][i] != p { assert p !in s.queues[r]; }
    }
    forall r | MAX_PRIORITY_NUM <= r < |t.queues| ensures BlockTyped(t, t.queues[r]) {
      assert BlockTyped(s, s.queues[r]);
      forall i | 0 <= i < |s.queues[r]| ensures s.queues[r][i] != p { assert p !in s.queues[r]; }
    }
  }

  /** A held process goes to the end of a queue its status and priority fit. */
  lemma AfterPush(s: Sys, hand: multiset<Pid>, q: nat, p: Pid)
    requires WellFormed(s) && Typed(s) && Placed(s, hand + multiset{p}) && q < |s.queues|
    requires if q < MAX_PRIORITY_NUM then s.procs[p].status.Runnable() && s.procs[p].priority == q
             else s.procs[p].status == Blocked
    ensures
      var t := WithQueue(s, q, s.queues[q] + [p]);
      WellFormed(t) && Typed(t) && Placed(t, hand) && PushIfAbsent(s, q, p) == t
  {
    HeldIsUnqueued(s, hand + multiset{p}, p);
    var t := WithQueue(s, q, s.queues[q] + [p]);
    forall r: Pid ensures Occ(t.queues, r) == Occ(s.queues, r) + multiset{p}[r] {
      OccUpdate(s.queues, q, t.queues[q], r);
    }
    assert if q < MAX_PRIORITY_NUM then ReadyTyped(s, q, s.queues[q]) else BlockTyped(s, s.queues[q]);
    TypedElsewhere(s, t, q);
  }

  ghost predicate Settled(s: Sys, hand: multiset<Pid>) {
    WellFormed(s) && Typed(s) && IdleRuns(s) && Placed(s, hand)
  }

  lemma AfterWake(s: Sys, hand: multiset<Pid>, p: Pid)
    requires Settled(s, hand + multiset{p}) && s.procs[p].status == Blocked
    ensures Settled(Wake(s, p), hand)
    ensures forall r: Pid :: r != p ==> Wake(s, p).procs[r] == s.procs[r]
  {
    var t := WithProc(s, p, s.procs[p].(status := Running));
    AfterHeldUpdate(s, hand + multiset{p}, p, t.procs[p]);
    var u := t.(upper := Increase(t.upper, t.procs[p].priority));
    assert Typed(u) by { TypedWithoutChange(t, u); }
    AfterPush(u, hand, u.procs[p].priority, p);
  }

  lemma TypedWithoutChange(s: Sys, t: Sys)
    requires WellFormed(s) && WellFormed(t) && Typed(s) && t.queues == s.queues && t.procs == s.procs
    ensures Typed(t)
  {
    forall r | 0 <= r < MAX_PRIORITY_NUM ensures ReadyTyped(t, r, t.queues[r]) {
      assert ReadyTyped(s, r, s.queues[r]);
    }
    forall r | MAX_PRIORITY_NUM <= r < |t.queues| ensures BlockTyped(t, t.queues[r]) {
      assert BlockTyped(s, s.queues[r]);
    }
  }

  lemma AfterUnblockOne(s: Sys, hand: multiset<Pid>, q: nat)
    requires Settled(s, hand) && MAX_PRIORITY_NUM <= q < |s.queues|
    ensures Settled(UnblockOne(s, q), hand)
    ensures forall p: Pid :: s.procs[p].status != Blocked ==> UnblockOne(s, q).procs[p] == s.procs[p]
  {
    NoExited(s, q);
    if s.queues[q] == [] {
      assert s.queues[q := []] == s.queues;
    } else {
      AfterDequeue(s, hand, q);
      AfterWake(WithQueue(s, q, s.queues[q][1..]), hand, s.queues[q][0]);
    }
  }

  /** The longest waiter, and nobody else, goes to the end of the ready queue of its priority. */
  lemma UnblocksHead(s: Sys, hand: multiset<Pid>, q: nat)
    requires Settled(s, hand) && MAX_PRIORITY_NUM <= q < |s.queues|
    ensures s.queues[q] == [] ==> UnblockOne(s, q) == s
    ensures s.queues[q] != [] ==>
      var t := UnblockOne(s, q);
      var p := s.queues[q][0];
      var pr := s.procs[p].priority;
      && t.procs == s.procs[p := s.procs[p].(status := Running)] && t.upper == Increase(s.upper, pr)
      && |t.queues| == |s.queues| && t.queues[q] == s.queues[q][1..] && t.queues[pr] == s.queues[pr] + [p]
      && forall r :: 0 <= r < |s.queues| && r != q && r != pr ==> t.queues[r] == s.queues[r]
  {
    NoExited(s, q);
    if s.queues[q] == [] {
      assert s.queues[q := []] == s.queues;
    } else {
      var p := s.queues[q][0];
      AfterDequeue(s, hand, q);
      HeldIsUnqueued(WithQueue(s, q, s.queues[q][1..]), hand + multiset{p}, p);
      assert WithQueue(s, q, s.queues[q][1..]).queues[s.procs[p].priority] == s.queues[s.procs[p].priority];
    }
  }

  lemma {:induction false} AfterUnblockAll(s: Sys, hand: multiset<Pid>, q: nat)
    requires Settled(s, hand) && MAX_PRIORITY_NUM <= q < |s.queues|
    ensures Settled(UnblockAll(s, q), hand) && UnblockAll(s, q).queues[q] == []
    ensures forall p: Pid :: s.procs[p].status != Blocked ==> UnblockAll(s, q).procs[p] == s.procs[p]
    decreases |s.queues[q]|
  {
    if s.queues[q] != [] {
      AfterUnblockOne(s, hand, q);
      AfterUnblockAll(UnblockOne(s, q), hand, q);
    }
  }

  lemma {:induction false} AfterReleaseAll(s: Sys, hand: multiset<Pid>, held: seq<nat>)
    requires Settled(s, hand) && AreQueues(s, held) && forall i :: 0 <= i < |held| ==> MAX_PRIORITY_NUM <= held[i]
    ensures Settled(ReleaseAll(s, held), hand)
    ensures forall p: Pid :: s.procs[p].status != Blocked ==> ReleaseAll(s, held).procs[p] == s.procs[p]
    decreases |held|
  {
    if held != [] {
      AfterUnblockOne(s, hand, held[0]);
      AfterReleaseAll(UnblockOne(s, held[0]), hand, held[1..]);
    }
  }

  lemma AfterChecks(s: Sys, hand: multiset<Pid>, now: nat, net: bool)
    requires Settled(s, hand)
    ensures Settled(Checks(s, now, net), hand)
    ensures forall p: Pid :: s.procs[p].status != Blocked
              ==> Checks(s, now, net).procs[p] == s.procs[p]
  {
    var c := s.queues[SLEEP_QUEUE];
    var t := CheckSleeping(s, now);
    if t != s {
      AfterDequeue(s, hand, SLEEP_QUEUE);
      var u := WithQueue(s, SLEEP_QUEUE, c[1..]);
      var v := WithProc(u, c[0], u.procs[c[0]].(awake := 0));
      AfterHeldUpdate(u, hand + multiset{c[0]}, c[0], v.procs[c[0]]);
      AfterWake(v, hand, c[0]);
    }
    var d := t.queues[RECV_QUEUE];
    if d != [] && net {
      AfterDequeue(t, hand, RECV_QUEUE);
      AfterWake(WithQueue(t, RECV_QUEUE, d[1..]), hand, d[0]);
    }
  }

  // ---------------------------------------------------------------- the scheduler

  /** A state in which the scheduler may be called. */
  ghost predicate Schedulable(s: Sys) {
    && WellFormed(s)
    && Settled(s, if s.procs[s.current].status.Runnable() then multiset{s.current} else multiset{})
    && s.procs[s.current].status != Create
  }

  /** When the idle process is not running, ready queue 0 is not empty. */
  lemma IdleIsReady(s: Sys)
    requires Schedulable(s) && s.queues[0] == []
    ensures s.current == 0 && s.procs[0].status.Runnable()
  {
    if Occ(s.queues, 0) > 0 {
      var q := OccWhere(s.queues, 0);
      ReadyHas(s, q);
    }
  }

  lemma ReadyHas(s: Sys, q: nat)
    requires WellFormed(s) && Typed(s) && IdleRuns(s) && q < |s.queues| && 0 in s.queues[q]
    ensures q == 0
  {
    assert if q < MAX_PRIORITY_NUM then ReadyTyped(s, q, s.queues[q]) else BlockTyped(s, s.queues[q]);
  }

  lemma AfterDispatch(s: Sys, idx: nat, now: nat, net: bool)
    requires Schedulable(s) && idx < MAX_PRIORITY_NUM
    requires idx != 0 ==> s.queues[idx] != []
    ensures Inv(Dispatch(s, idx, now, net))
  {
    NoExited(s, idx);
    if s.queues[idx] == [] {
      IdleIsReady(s);
      assert s.queues[idx := []] == s.queues;
    } else {
      AfterTakeTop(s, idx);
      AfterSwitch(Requeue(TakeTop(s, idx, s.queues[idx])), s.queues[idx][0], now, net);
    }
  }

  lemma AfterTakeTop(s: Sys, idx: nat)
    requires Schedulable(s) && idx < MAX_PRIORITY_NUM && s.queues[idx] != []
    ensures
      var t := TakeTop(s, idx, s.queues[idx]);
      && Settled(Requeue(t), multiset{s.queues[idx][0]}) && Requeue(t).procs == t.procs
      && s.procs[s.queues[idx][0]].status.Runnable()
      && s.queues[idx][0] != s.current
  {
    var c := s.queues[idx];
    var top := c[0];
    var hand := if s.procs[s.current].status.Runnable() then multiset{s.current} else multiset{};
    AfterDequeue(s, hand, idx);
    var s0 := WithQueue(s, idx, c[1..]);
    HeldIsUnqueued(s0, hand + multiset{top}, top);
    AfterHeldUpdate(s0, hand + multiset{top}, top, s0.procs[top].(status := Running));
    var t := TakeTop(s, idx, c);
    assert t == WithProc(s0, top, s0.procs[top].(status := Running));
    AfterRequeue(t, top);
  }

  lemma AfterRequeue(s: Sys, top: Pid)
    requires WellFormed(s) && s.procs[s.current].status != Create
    requires Settled(s, (if s.procs[s.current].status.Runnable() then multiset{s.current} else multiset{}) + multiset{top})
    ensures Settled(Requeue(s), multiset{top})
    ensures Requeue(s).procs == s.procs
  {
    var me := s.current;
    if s.procs[me].status.Runnable() {
      assert multiset{me} + multiset{top} == multiset{top} + multiset{me};
      AfterPush(s, multiset{top}, s.procs[me].priority, me);
    } else {
      assert multiset{} + multiset{top} == multiset{top};
    }
  }

  lemma AfterSwitch(s: Sys, top: Pid, now: nat, net: bool)
    requires Settled(s, multiset{top}) && s.procs[top].status == Running
    ensures Inv(Checks(s, now, net).(current := top))
  {
    AfterChecks(s, multiset{top}, now, net);
    var t := Checks(s, now, net);
    TypedWithoutChange(t, t.(current := top));
  }

  lemma AfterSchedule(s: Sys, now: nat, net: bool)
    requires Schedulable(s)
    ensures Inv(Schedule(s, now, net))
  {
    var (idx, t) := Select(s);
    TypedWithoutChange(s, t);
    AfterDispatch(t, idx, now, net);
  }
}
