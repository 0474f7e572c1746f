/** The run counters of the ready queues over whole runs: a counter is the number of calls that took the
    queue since the last reset, so that a queue is taken no more often than its bound says. */
module Rounds {
  import opened Sealing
  import opened Counting
  import opened Scheduler
  import opened Placement
  import opened Runs
  import opened Waiting

  /** No queue from the last selection on has runs left: the counters 1 to 4 are set back. */
  ghost predicate Resets(b: Sys)
    requires WellFormed(b)
  {
    forall q :: b.lastSel <= q < MAX_PRIORITY_NUM ==> !HasRuns(b, q)
  }

  /** One call counts the queue it serves, from zero after a reset, and touches no other counter. */
  lemma CallCounts(b: Sys, now: nat, net: bool, p: nat)
    requires WellFormed(b) && p < MAX_PRIORITY_NUM
    ensures |Schedule(b, now, net).counter| == MAX_PRIORITY_NUM
    ensures Schedule(b, now, net).counter[p] == NextCount(b.counter[p], p, Resets(b), Serves(b, p))
  {
    var q := Chosen(b);
    SelectsExactly(b, q);
    ServesChosen(b, q, p);
    CountedBySelect(b, now, net);
  }

  lemma CountedBySelect(b: Sys, now: nat, net: bool)
    requires WellFormed(b)
    ensures Schedule(b, now, net).counter == Select(b).1.counter
  {
  }

  lemma ServesChosen(b: Sys, q: nat, p: nat)
    requires WellFormed(b) && b.lastSel <= q <= MAX_PRIORITY_NUM && p < MAX_PRIORITY_NUM
    requires (q < MAX_PRIORITY_NUM ==> HasRuns(b, q)) && forall r :: b.lastSel <= r < q ==> !HasRuns(b, r)
    ensures
      var c := if q == MAX_PRIORITY_NUM then 1 else q;
      Serves(b, p) <==> p == c && (b.schedCnt + 1) % SCHED_BOUND != 0 && b.queues[c] != []
  {
    ScansTo(b, b.lastSel, q);
  }

  /** The first queue from the last selection on that has runs left, or 5. */
  lemma Chosen(b: Sys) returns (q: nat)
    requires WellFormed(b)
    ensures b.lastSel <= q <= MAX_PRIORITY_NUM && (q < MAX_PRIORITY_NUM ==> HasRuns(b, q))
    ensures forall r :: b.lastSel <= r < q ==> !HasRuns(b, r)
    ensures q == MAX_PRIORITY_NUM <==> Resets(b)
  {
    q := b.lastSel;
    while q < MAX_PRIORITY_NUM && !HasRuns(b, q)
      invariant b.lastSel <= q <= MAX_PRIORITY_NUM && forall r :: b.lastSel <= r < q ==> !HasRuns(b, r)
    {
      q := q + 1;
    }
  }

  // ---------------------------------------------------------------- entries

  /** The entry reaches the scheduler in a state in which the counters are set back. */
  ghost predicate ResetBy(s: Sys, e: Event) {
    forall x: Seal {:trigger Open(x)} :: Open(x) ==>
      Enabled(s, e) && Calls(s, e) && Inv(s) && (BeforeSchedules(s, e); Resets(Before(s, e)))
  }

  /** If the entry reaches the scheduler, bound p is at most `bound` then. */
  ghost predicate BoundedBy(s: Sys, e: Event, p: nat, bound: nat)
    requires p < MAX_PRIORITY_NUM
  {
    forall x: Seal {:trigger Open(x)} :: Open(x) ==>
      Enabled(s, e) && Inv(s) && (Calls(s, e) ==> (BeforeSchedules(s, e); Before(s, e).upper[p] <= bound))
  }

  lemma EntryCounts(s: Sys, e: Event, t: Sys, p: nat, served: bool, reset: bool)
    requires Follows(s, e, t) && p < MAX_PRIORITY_NUM && served == ServedBy(s, e, p) && reset == ResetBy(s, e)
    ensures |s.counter| == |t.counter| == MAX_PRIORITY_NUM
    ensures t.counter[p] == NextCount(s.counter[p], p, reset, served)
  {
    assert Open(Seal);
    if Calls(s, e) {
      BeforeCounts(s, e);
      BeforeSchedules(s, e);
      ThenSchedules(s, e);
      CallCounts(Before(s, e), e.now, e.net, p);
    } else {
      OthersCount(s, e);
    }
  }

  lemma {:induction false} UnblockAllCounts(s: Sys, q: nat)
    requires WellFormed(s) && MAX_PRIORITY_NUM <= q < |s.queues|
    ensures UnblockAll(s, q).counter == s.counter
    decreases |s.queues[q]|
  {
    if s.queues[q] != [] { UnblockAllCounts(UnblockOne(s, q), q); }
  }

  lemma {:induction false} ReleaseAllCounts(s: Sys, held: seq<nat>)
    requires WellFormed(s) && AreQueues(s, held)
    ensures ReleaseAll(s, held).counter == s.counter
    decreases |held|
  {
    if held != [] { ReleaseAllCounts(UnblockOne(s, held[0]), held[1..]); }
  }

  lemma ExitCounts(s: Sys, held: seq<nat>)
    requires WellFormed(s) && AreQueues(s, held)
    ensures ExitCurrent(s, held).counter == s.counter
  {
    var t := WithProc(s, s.current, Proc(Exited, 1, WORD - 1));
    ReleaseAllCounts(t, held);
    UnblockAllCounts(ReleaseAll(t, held), FIRST_WAIT_QUEUE + s.current);
  }

  /** Nothing but the scheduler counts. */
  lemma BeforeCounts(s: Sys, e: Event)
    requires Enabled(s, e) && Calls(s, e)
    ensures Before(s, e).counter == s.counter
  {
    if e.DoExit? { ExitCounts(s, e.held); }
  }

  lemma OthersCount(s: Sys, e: Event)
    requires Enabled(s, e) && !Calls(s, e)
    ensures Apply(s, e).counter == s.counter
  {
    if e.DoUnblockAll? { UnblockAllCounts(s, e.q); }
  }

  /** A queue is served only while its counter is below its bound, or by the call that sets it back. */
  lemma ServedBelow(s: Sys, e: Event, p: nat, bound: nat, reset: bool)
    requires p < MAX_PRIORITY_NUM && ServedBy(s, e, p) && BoundedBy(s, e, p, bound) && reset == ResetBy(s, e)
    ensures |s.counter| == MAX_PRIORITY_NUM && (reset ==> p == 1) && (!reset ==> s.counter[p] < bound)
  {
    assert Open(Seal);
    BeforeCounts(s, e);
    BeforeSchedules(s, e);
    var b := Before(s, e);
    var q := Chosen(b);
    ServesChosen(b, q, p);
    assert Serves(b, p);
    assert reset <==> Resets(b);
  }

  // ---------------------------------------------------------------- runs

  ghost function Resettings(run: seq<Sys>, events: seq<Event>): seq<bool>
    requires |events| <= |run|
  {
    seq(|events|, i requires 0 <= i < |events| => ResetBy(run[i], events[i]))
  }

  /** A run from a placed state, with the entries that serve queue p and those that reset. */
  ghost predicate ARoundRun(run: seq<Sys>, events: seq<Event>, p: nat, served: seq<bool>, reset: seq<bool>) {
    && |run| == |events| + 1 == |served| + 1 == |reset| + 1 && p < MAX_PRIORITY_NUM
    && forall x: Seal {:trigger Open(x)} :: Open(x) ==>
         ARun(run, events) && served == Servings(run, events, p) && reset == Resettings(run, events)
  }

  lemma OneCount(run: seq<Sys>, events: seq<Event>, p: nat, served: seq<bool>, reset: seq<bool>, n: nat)
    requires ARoundRun(run, events, p, served, reset) && 0 < n < |run|
    ensures |run[n - 1].counter| == |run[n].counter| == MAX_PRIORITY_NUM
    ensures run[n].counter[p] == NextCount(run[n - 1].counter[p], p, reset[n - 1], served[n - 1])
  {
    assert Open(Seal);
    OneEntry(run, events, n);
    EntryCounts(run[n - 1], events[n - 1], run[n], p, served[n - 1], reset[n - 1]);
  }

  /** k more, as a 32-bit word. */
  function Counted(c: nat, k: nat): nat { if k == 0 then c else (c + k) % WORD }

  /** How often p was served by entries m to n - 1. */
  function Times(served: seq<bool>, m: nat, n: nat): nat
    requires m <= n <= |served|
  {
    CountGrows(served, m, n);
    Count(served, n) - Count(served, m)
  }

  lemma {:induction false} CountsUp(run: seq<Sys>, events: seq<Event>, p: nat, served: seq<bool>, reset: seq<bool>, m: nat, n: nat)
    requires ARoundRun(run, events, p, served, reset) && m < n < |run|
    requires p >= 1 ==> forall i :: m <= i < n ==> !reset[i]
    ensures |run[m].counter| == |run[n].counter| == MAX_PRIORITY_NUM
    ensures run[n].counter[p] == Counted(run[m].counter[p], Times(served, m, n))
  {
    OneCount(run, events, p, served, reset, n);
    if n > m + 1 { CountsUp(run, events, p, served, reset, m, n - 1); }
  }

  /** Between two resets a counter has grown by the number of calls that took its queue. */
  lemma CounterGrowsByCalls(run: seq<Sys>, events: seq<Event>, p: nat, m: nat, n: nat)
    requires IsRun(run, events) && Inv(run[0]) && p < MAX_PRIORITY_NUM && m < n < |run|
    requires p >= 1 ==> forall i :: m <= i < n ==> !ResetBy(run[i], events[i])
    ensures |run[m].counter| == |run[n].counter| == MAX_PRIORITY_NUM
    ensures run[n].counter[p] == Counted(run[m].counter[p], Times(Servings(run, events, p), m, n))
  {
    CountsUp(run, events, p, Servings(run, events, p), Resettings(run, events), m, n);
  }

  lemma {:induction false} CountsFromReset(run: seq<Sys>, events: seq<Event>, p: nat, served: seq<bool>, reset: seq<bool>, m: nat, n: nat)
    requires ARoundRun(run, events, p, served, reset) && 1 <= p && m < n < |run|
    requires reset[m] && forall i :: m < i < n ==> !reset[i]
    ensures |run[n].counter| == MAX_PRIORITY_NUM && run[n].counter[p] == Counted(0, Times(served, m, n))
  {
    OneCount(run, events, p, served, reset, n);
    if n > m + 1 { CountsFromReset(run, events, p, served, reset, m, n - 1); }
  }

  /** From a reset on, a counter is the number of calls that took its queue. */
  lemma CounterIsCalls(run: seq<Sys>, events: seq<Event>, p: nat, m: nat, n: nat)
    requires IsRun(run, events) && Inv(run[0]) && 1 <= p < MAX_PRIORITY_NUM && m < n < |run|
    requires ResetBy(run[m], events[m]) && forall i :: m < i < n ==> !ResetBy(run[i], events[i])
    ensures |run[n].counter| == MAX_PRIORITY_NUM
    ensures run[n].counter[p] == Counted(0, Times(Servings(run, events, p), m, n))
  {
    CountsFromReset(run, events, p, Servings(run, events, p), Resettings(run, events), m, n);
  }

  ghost predicate AllBounded(run: seq<Sys>, events: seq<Event>, p: nat, bound: nat, m: nat, n: nat)
    requires p < MAX_PRIORITY_NUM && m <= n <= |events| && n <= |run|
  {
    forall i :: m <= i < n ==> BoundedBy(run[i], events[i], p, bound)
  }

  /** The call that resets may take queue 1 whatever its bound is. */
  function AtMost(p: nat, bound: nat): nat { if p == 1 && bound == 0 then 1 else bound }

  lemma ServedFromReset(run: seq<Sys>, events: seq<Event>, p: nat, served: seq<bool>, reset: seq<bool>, bound: nat, n: nat)
    requires ARoundRun(run, events, p, served, reset) && 0 < n < |run| && served[n - 1] && BoundedBy(run[n - 1], events[n - 1], p, bound)
    ensures |run[n - 1].counter| == MAX_PRIORITY_NUM && (reset[n - 1] ==> p == 1) && (!reset[n - 1] ==> run[n - 1].counter[p] < bound)
  {
    assert Open(Seal);
    ServedBelow(run[n - 1], events[n - 1], p, bound, reset[n - 1]);
  }

  lemma {:induction false} NoMoreThanBound(run: seq<Sys>, events: seq<Event>, p: nat, served: seq<bool>, reset: seq<bool>, bound: nat, m: nat, n: nat)
    requires ARoundRun(run, events, p, served, reset) && 1 <= p && m < n < |run| && bound < WORD
    requires reset[m] && (forall i :: m < i < n ==> !reset[i]) && AllBounded(run, events, p, bound, m, n)
    ensures Times(served, m, n) <= AtMost(p, bound)
  {
    if n > m + 1 {
      NoMoreThanBound(run, events, p, served, reset, bound, m, n - 1);
      CountsFromReset(run, events, p, served, reset, m, n - 1);
    }
    if served[n - 1] { ServedFromReset(run, events, p, served, reset, bound, n); }
  }

  /** Between two resets a queue is taken no more often than its bound says, as long as the bound stays
      at or below some number; queue 1 is taken once in any case, by the call that resets. */
  lemma TakenAtMost(run: seq<Sys>, events: seq<Event>, p: nat, bound: nat, m: nat, n: nat)
    requires IsRun(run, events) && Inv(run[0]) && 1 <= p < MAX_PRIORITY_NUM && m < n < |run| && bound < WORD
    requires ResetBy(run[m], events[m]) && forall i :: m < i < n ==> !ResetBy(run[i], events[i])
    requires AllBounded(run, events, p, bound, m, n)
    ensures Times(Servings(run, events, p), m, n) <= AtMost(p, bound)
  {
    NoMoreThanBound(run, events, p, Servings(run, events, p), Resettings(run, events), bound, m, n);
  }

  /** What the next call finds, told from the calls alone: queue p has runs left if and only if it was
      taken less often since the reset than its bound says. */
  lemma RunsLeftExactly(run: seq<Sys>, events: seq<Event>, p: nat, m: nat, n: nat)
    requires IsRun(run, events) && Inv(run[0]) && 1 <= p < MAX_PRIORITY_NUM && m < n < |run|
    requires ResetBy(run[m], events[m]) && forall i :: m < i < n ==> !ResetBy(run[i], events[i])
    requires Times(Servings(run, events, p), m, n) < WORD
    ensures WellFormed(run[n]) && (HasRuns(run[n], p) <==> Times(Servings(run, events, p), m, n) < run[n].upper[p])
  {
    CounterIsCalls(run, events, p, m, n);
    WellFormedAt(run, events, n);
    BelowBound(run[n], p, Times(Servings(run, events, p), m, n));
  }

  lemma BelowBound(s: Sys, p: nat, k: nat)
    requires WellFormed(s) && p < MAX_PRIORITY_NUM && s.counter[p] == Counted(0, k) && k < WORD
    ensures HasRuns(s, p) <==> k < s.upper[p]
  {
  }

  lemma WellFormedAt(run: seq<Sys>, events: seq<Event>, n: nat)
    requires IsRun(run, events) && Inv(run[0]) && n < |run|
    ensures WellFormed(run[n])
  {
    RunKeepsPlacement(run, events, n);
  }

  /** Queue 0 is never set back: its counter has grown by the calls that took and counted it. */
  lemma QueueZeroCounts(run: seq<Sys>, events: seq<Event>, n: nat)
    requires IsRun(run, events) && Inv(run[0]) && 0 < n < |run|
    ensures |run[0].counter| == |run[n].counter| == MAX_PRIORITY_NUM
    ensures run[n].counter[0] == Counted(run[0].counter[0], Times(Servings(run, events, 0), 0, n))
  {
    CounterGrowsByCalls(run, events, 0, 0, n);
  }
}
