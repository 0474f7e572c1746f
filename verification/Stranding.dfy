/** Who is woken at a mailbox semaphore, and who is not: do_semaphore_up wakes nobody while the
    value is above zero, and a woken process tests the value again, so that a waiter can stay in
    the queue although the value is no longer negative. */
module Stranding {
  import opened Mailbox
  import opened Counting
  import opened Sealing

  // ---------------------------------------------------------------- the queues

  /** The queue of a semaphore holds exactly the processes blocked on it, each of them once. */
  ghost predicate QueueOk(pcs: seq<Pc>, send: bool, q: seq<int>) {
    && (forall i :: 0 <= i < |q| ==> 0 <= q[i] < |pcs| && pcs[q[i]].SemBlocked? && pcs[q[i]].op.Send? == send)
    && (forall i, j :: 0 <= i < j < |q| ==> q[i] != q[j])
    && (forall p :: 0 <= p < |pcs| && pcs[p].SemBlocked? && pcs[p].op.Send? == send ==> p in q)
  }

  ghost predicate QueuesOk(s: State) {
    forall send :: QueueOk(s.pc, send, SemOf(s.gate, send).queue)
  }

  /** do_semaphore_up, as far as the semaphore itself goes. */
  function AfterUp(x: Sem): Sem {
    Sem(x.value + 1, if x.queue != [] && x.value + 1 <= 0 then x.queue[1..] else x.queue)
  }

  /** do_block on the semaphore */
  function AfterBlock(x: Sem, p: int): Sem { Sem(x.value, x.queue + [p]) }

  /** do_semaphore_down up to its first block or its return */
  function AfterDown(x: Sem, p: int): Sem {
    var y := Sem(x.value - 1, x.queue);
    if y.value < 0 then AfterBlock(y, p) else y
  }

  lemma OtherMoves(pcs: seq<Pc>, p: nat, pc: Pc, send: bool, q: seq<int>)
    requires QueueOk(pcs, send, q) && p < |pcs| && !(pcs[p].SemBlocked? && pcs[p].op.Send? == send)
    requires !(pc.SemBlocked? && pc.op.Send? == send)
    ensures QueueOk(pcs[p := pc], send, q)
  {
  }

  lemma Blocks(pcs: seq<Pc>, p: nat, op: Op, q: seq<int>)
    requires QueueOk(pcs, op.Send?, q) && p < |pcs| && !pcs[p].SemBlocked?
    ensures QueueOk(pcs[p := SemBlocked(op)], op.Send?, PushAbsent(q, p)) && PushAbsent(q, p) == q + [p]
  {
  }

  lemma Unblocks(pcs: seq<Pc>, send: bool, q: seq<int>)
    requires QueueOk(pcs, send, q) && q != []
    ensures QueueOk(pcs[q[0] := Recheck(pcs[q[0]].op)], send, q[1..])
  {
  }

  lemma TestKeepsQueues(s: State, p: nat, op: Op)
    requires QueuesOk(s) && p < |s.pc| && !s.pc[p].SemBlocked?
    ensures QueuesOk(TestSem(s, p, op))
  {
    var t := TestSem(s, p, op);
    forall send ensures QueueOk(t.pc, send, SemOf(t.gate, send).queue) {
      assert QueueOk(s.pc, send, SemOf(s.gate, send).queue);
      if send == op.Send? && SemOf(s.gate, send).value < 0 {
        Blocks(s.pc, p, op, SemOf(s.gate, send).queue);
      } else {
        OtherMoves(s.pc, p, t.pc[p], send, SemOf(s.gate, send).queue);
      }
    }
  }

  /** A move of one process that leaves the semaphores' queues alone. */
  lemma QuietQueues(s: State, t: State, p: nat)
    requires QueuesOk(s) && p < |s.pc| && |t.pc| == |s.pc| && t.pc == s.pc[p := t.pc[p]]
    requires !s.pc[p].SemBlocked? && !t.pc[p].SemBlocked?
    requires t.gate.empty.queue == s.gate.empty.queue && t.gate.full.queue == s.gate.full.queue
    ensures QueuesOk(t)
  {
    forall send ensures QueueOk(t.pc, send, SemOf(t.gate, send).queue) {
      assert QueueOk(s.pc, send, SemOf(s.gate, send).queue);
      OtherMoves(s.pc, p, t.pc[p], send, SemOf(s.gate, send).queue);
    }
  }

  lemma WakeKeepsQueues(s: State, d: bool)
    requires QueuesOk(s) && SemOf(s.gate, d).queue != []
    ensures
      var h := SemOf(s.gate, d).queue[0];
      && 0 <= h < |s.pc| && s.pc[h].SemBlocked? && s.pc[h].op.Send? == d
      && WakeSem(s, d) == s.(pc := s.pc[h := Recheck(s.pc[h].op)], gate := Unqueued(s.gate, d))
    ensures QueuesOk(WakeSem(s, d))
  {
    assert QueueOk(s.pc, d, SemOf(s.gate, d).queue);
    var h, t := SemOf(s.gate, d).queue[0], WakeSem(s, d);
    forall send ensures QueueOk(t.pc, send, SemOf(t.gate, send).queue) {
      assert QueueOk(s.pc, send, SemOf(s.gate, send).queue);
      if send == d {
        Unblocks(s.pc, d, SemOf(s.gate, d).queue);
      } else {
        OtherMoves(s.pc, h, t.pc[h], send, SemOf(s.gate, send).queue);
      }
    }
  }

  lemma WakeLockKeepsQueues(s: State)
    requires QueuesOk(s)
    ensures QueuesOk(WakeLock(s)) && WakeLock(s).gate == s.gate
  {
    var t := WakeLock(s);
    if t.pc != s.pc {
      QuietQueues(s, t, s.waiting[0]);
    } else {
      forall send ensures QueueOk(t.pc, send, SemOf(t.gate, send).queue) {
        assert QueueOk(s.pc, send, SemOf(s.gate, send).queue);
      }
    }
  }

  /** Before anybody is woken, an up only raises the value. */
  function Raise(s: State, p: nat, op: Op): State
    requires p < |s.pc|
  {
    s.(pc := s.pc[p := Idle], gate := Raised(s.gate, op.Send?))
  }

  /** Does this up wake somebody? */
  predicate Wakes(x: Sem) { x.queue != [] && x.value + 1 <= 0 }

  lemma UpActs(s: State, p: nat, op: Op, t: State)
    requires QueuesOk(s) && p < |s.pc| && s.pc[p] == Up(op) && t == StepUp(s, p, op)
    ensures QueuesOk(t)
    ensures
      var d := !op.Send?;
      var x := SemOf(s.gate, d);
      && SemOf(t.gate, d) == AfterUp(x) && SemOf(t.gate, !d) == SemOf(s.gate, !d)
      && if Wakes(x) then 0 <= x.queue[0] < |s.pc| && s.pc[x.queue[0]].SemBlocked?
                          && t.pc == s.pc[p := Idle][x.queue[0] := Recheck(s.pc[x.queue[0]].op)]
         else t.pc == s.pc[p := Idle]
  {
    var u := Raise(s, p, op);
    QuietQueues(s, u, p);
    if SemOf(u.gate, !op.Send?).queue != [] { WakeKeepsQueues(u, !op.Send?); }
  }

  lemma LeaveActs(s: State, p: nat, op: Op, buf: Message, t: State)
    requires QueuesOk(s) && p < |s.pc| && s.pc[p] == Leave(op, buf) && t == WakeLock(Released(s, p, op, buf))
    ensures QueuesOk(t) && t.gate.empty == s.gate.empty && t.gate.full == s.gate.full && |t.pc| == |s.pc|
    ensures forall h :: 0 <= h < |s.pc| && s.pc[h].SemBlocked? ==> t.pc[h] == s.pc[h]
  {
    QuietQueues(s, Released(s, p, op, buf), p);
    WakeLockKeepsQueues(Released(s, p, op, buf));
  }

  lemma TestActs(s: State, p: nat, op: Op, t: State)
    requires QueuesOk(s) && p < |s.pc| && !s.pc[p].SemBlocked? && t == TestSem(s, p, op)
    ensures QueuesOk(t) && t.pc == s.pc[p := t.pc[p]] && SemOf(t.gate, !op.Send?) == SemOf(s.gate, !op.Send?)
    ensures
      var x := SemOf(s.gate, op.Send?);
      SemOf(t.gate, op.Send?) == if x.value < 0 then AfterBlock(x, p) else x
  {
    TestKeepsQueues(s, p, op);
    assert QueueOk(s.pc, op.Send?, SemOf(s.gate, op.Send?).queue);
    Blocks(s.pc, p, op, SemOf(s.gate, op.Send?).queue);
  }

  lemma DownActs(s: State, p: nat, op: Op, t: State)
    requires QueuesOk(s) && p < |s.pc| && s.pc[p] == Down(op) && t == TestSem(s.(gate := Started(s.gate, op.Send?)), p, op)
    ensures QueuesOk(t) && t.pc == s.pc[p := t.pc[p]] && SemOf(t.gate, !op.Send?) == SemOf(s.gate, !op.Send?)
    ensures SemOf(t.gate, op.Send?) == AfterDown(SemOf(s.gate, op.Send?), p)
  {
    var u := s.(gate := Started(s.gate, op.Send?));
    QuietQueues(s, u, p);
    TestActs(u, p, op, t);
  }

  /** The steps between the semaphores. */
  lemma OtherActs(s: State, p: nat, next: Op, t: State)
    requires QueuesOk(s) && SlotsOk(s.ring) && p < |s.pc| && t == Step(s, p, next)
    requires !s.pc[p].Down? && !s.pc[p].Recheck? && !s.pc[p].Leave? && !s.pc[p].Up?
    ensures QueuesOk(t) && |t.pc| == |s.pc| && t.pc == s.pc[p := t.pc[p]] && (s.pc[p].SemBlocked? ==> t == s)
    ensures t.gate.empty == s.gate.empty && t.gate.full == s.gate.full
  {
    if !s.pc[p].SemBlocked? { QuietQueues(s, t, p); }
  }

  lemma StepKeepsQueues(s: State, p: nat, next: Op)
    requires QueuesOk(s) && SlotsOk(s.ring) && p < |s.pc|
    ensures QueuesOk(Step(s, p, next))
  {
    var t := Step(s, p, next);
    match s.pc[p] {
      case Down(op) => DownActs(s, p, op, t);
      case Recheck(op) => TestActs(s, p, op, t);
      case Leave(op, buf) => LeaveActs(s, p, op, buf, t);
      case Up(op) => UpActs(s, p, op, t);
      case _ => OtherActs(s, p, next, t);
    }
  }

  lemma InitQueues(n: nat)
    ensures QueuesOk(Init(n))
  {
  }

  // ---------------------------------------------------------------- who is woken

  /** An up that takes a process out of the queue of semaphore d: the raised value is not above zero. */
  predicate LowUp(s: State, p: nat, d: bool)
    requires p < |s.pc|
  {
    s.pc[p].Up? && s.pc[p].op.Send? != d && SemOf(s.gate, d).value + 1 <= 0
  }

  predicate First(q: seq<int>, h: nat) { q != [] && q[0] == h }

  /** A blocked process goes on if and only if it stands first in its queue and the step is an up
      that finds the value below zero; an up that finds it at zero or above wakes nobody. */
  lemma WakesExactly(s: State, p: nat, next: Op, h: nat)
    requires QueuesOk(s) && SlotsOk(s.ring) && p < |s.pc| && h < |s.pc| && s.pc[h].SemBlocked?
    ensures |Step(s, p, next).pc| == |s.pc|
    ensures
      var d := s.pc[h].op.Send?;
      Step(s, p, next).pc[h] != s.pc[h] <==> LowUp(s, p, d) && First(SemOf(s.gate, d).queue, h)
  {
    var d, t := s.pc[h].op.Send?, Step(s, p, next);
    assert QueueOk(s.pc, d, SemOf(s.gate, d).queue);
    match s.pc[p] {
      case Down(op) => DownActs(s, p, op, t);
      case Recheck(op) => TestActs(s, p, op, t);
      case Leave(op, buf) => LeaveActs(s, p, op, buf, t);
      case Up(op) => UpWakes(s, p, op, h, t);
      case _ => OtherActs(s, p, next, t);
    }
  }

  lemma UpWakes(s: State, p: nat, op: Op, h: nat, t: State)
    requires QueuesOk(s) && p < |s.pc| && s.pc[p] == Up(op) && t == StepUp(s, p, op) && h < |s.pc| && s.pc[h].SemBlocked?
    ensures |t.pc| == |s.pc|
    ensures
      var d := s.pc[h].op.Send?;
      t.pc[h] != s.pc[h] <==> LowUp(s, p, d) && First(SemOf(s.gate, d).queue, h)
  {
    var d := !op.Send?;
    assert QueueOk(s.pc, d, SemOf(s.gate, d).queue);
    UpActs(s, p, op, t);
  }

  /** What any step does to a semaphore. */
  lemma StepOnSem(s: State, p: nat, next: Op, d: bool)
    requires QueuesOk(s) && SlotsOk(s.ring) && p < |s.pc|
    ensures
      var x := SemOf(s.gate, d);
      var y := SemOf(Step(s, p, next).gate, d);
      var pc := s.pc[p];
      if pc.Up? && pc.op.Send? != d then y == AfterUp(x)
      else if pc.Down? && pc.op.Send? == d then y == AfterDown(x, p)
      else if pc.Recheck? && pc.op.Send? == d then y == if x.value < 0 then AfterBlock(x, p) else x
      else y == x
  {
    var t := Step(s, p, next);
    match s.pc[p] {
      case Down(op) => DownActs(s, p, op, t);
      case Recheck(op) => TestActs(s, p, op, t);
      case Leave(op, buf) => LeaveActs(s, p, op, buf, t);
      case Up(op) => UpActs(s, p, op, t);
      case _ => OtherActs(s, p, next, t);
    }
  }

  // ---------------------------------------------------------------- stranded waiters

  /** Somebody waits although the value is not negative. */
  predicate Stranded(x: Sem) { x.value >= 0 && x.queue != [] }

  /** An up that brings the value to zero while more than one process is in the queue. */
  predicate Strands(s: State, p: nat, d: bool)
    requires p < |s.pc|
  {
    s.pc[p].Up? && s.pc[p].op.Send? != d && SemOf(s.gate, d).value == -1 && |SemOf(s.gate, d).queue| >= 2
  }

  /** A step strands somebody if and only if it is such an up. */
  lemma StrandsExactly(s: State, p: nat, next: Op, d: bool)
    requires QueuesOk(s) && SlotsOk(s.ring) && p < |s.pc| && !Stranded(SemOf(s.gate, d))
    ensures Stranded(SemOf(Step(s, p, next).gate, d)) <==> Strands(s, p, d)
  {
    StepOnSem(s, p, next, d);
  }

  /** Over runs: somebody is stranded at some time if and only if some up brought the value to zero
      with two or more waiting. */
  lemma {:induction false} RunStrandsExactly(run: seq<State>, moves: seq<Move>, d: bool, n: nat)
    requires IsRun(run, moves) && QueuesOk(run[0]) && !Stranded(SemOf(run[0].gate, d)) && n < |run|
    ensures QueuesOk(run[n])
    ensures (exists i :: 0 < i <= n && Stranded(SemOf(run[i].gate, d)))
      <==> (exists i :: 0 <= i < n && Strands(run[i], moves[i].p, d))
  {
    if n > 0 {
      RunStrandsExactly(run, moves, d, n - 1);
      var s, m := run[n - 1], moves[n - 1];
      StepKeepsQueues(s, m.p, m.next);
      if !Stranded(SemOf(s.gate, d)) {
        StrandsExactly(s, m.p, m.next, d);
      } else {
        assert !Strands(s, m.p, d);
      }
    }
  }

  // ---------------------------------------------------------------- how long a waiter waits

  ghost predicate Waiting(s: State, x: nat, d: bool, k: nat) {
    && x < |s.pc| && s.pc[x].SemBlocked? && s.pc[x].op.Send? == d
    && k < |SemOf(s.gate, d).queue| && SemOf(s.gate, d).queue[k] == x
  }

  lemma StepAdvances(s: State, p: nat, next: Op, x: nat, d: bool, k: nat)
    requires QueuesOk(s) && SlotsOk(s.ring) && p < |s.pc| && Waiting(s, x, d, k)
    ensures !LowUp(s, p, d) ==> Waiting(Step(s, p, next), x, d, k)
    ensures LowUp(s, p, d) && k > 0 ==> Waiting(Step(s, p, next), x, d, k - 1)
    ensures LowUp(s, p, d) && k == 0 ==> |Step(s, p, next).pc| == |s.pc| && !Step(s, p, next).pc[x].SemBlocked?
  {
    StepOnSem(s, p, next, d);
    WakesExactly(s, p, next, x);
    assert QueueOk(s.pc, d, SemOf(s.gate, d).queue);
  }

  /** For every move: is it an up that takes somebody out of the queue? */
  ghost function LowUps(run: seq<State>, moves: seq<Move>, d: bool): seq<bool>
    requires IsRun(run, moves)
  {
    seq(|moves|, i requires 0 <= i < |moves| => LowUp(run[i], moves[i].p, d))
  }

  ghost predicate WokenBy(run: seq<State>, x: nat, n: nat)
    requires n < |run|
  {
    exists m :: 0 < m <= n && x < |run[m].pc| && !run[m].pc[x].SemBlocked?
  }

  ghost predicate Moves(s: State, m: Move, t: State) {
    SlotsOk(s.ring) && m.p < |s.pc| && t == Step(s, m.p, m.next)
  }

  ghost predicate Advanced(run: seq<State>, x: nat, d: bool, k: nat, j: nat, n: nat)
    requires n < |run|
  {
    if j <= k then Waiting(run[n], x, d, k - j) else WokenBy(run, x, n)
  }

  lemma Advances(run: seq<State>, m: Move, x: nat, d: bool, k: nat, j: nat, n: nat)
    requires 0 < n < |run| && Moves(run[n - 1], m, run[n])
    requires QueuesOk(run[n - 1]) && Advanced(run, x, d, k, j, n - 1)
    ensures Advanced(run, x, d, k, j + if LowUp(run[n - 1], m.p, d) then 1 else 0, n)
  {
    if j <= k {
      StepAdvances(run[n - 1], m.p, m.next, x, d, k - j);
    } else {
      var i :| 0 < i <= n - 1 && x < |run[i].pc| && !run[i].pc[x].SemBlocked?;
      assert 0 < i <= n;
    }
  }

  lemma {:induction false} RunKeepsQueues(run: seq<State>, moves: seq<Move>, n: nat)
    requires IsRun(run, moves) && QueuesOk(run[0]) && n < |run|
    ensures QueuesOk(run[n])
  {
    if n > 0 {
      RunKeepsQueues(run, moves, n - 1);
      StepKeepsQueues(run[n - 1], moves[n - 1].p, moves[n - 1].next);
    }
  }

  /** A run with what every move is to the queue, taken as a whole. */
  ghost predicate ARun(run: seq<State>, moves: seq<Move>, d: bool, b: seq<bool>) {
    && |run| == |moves| + 1 == |b| + 1
    && forall x: Seal {:trigger Open(x)} :: Open(x) ==> IsRun(run, moves) && QueuesOk(run[0]) && b == LowUps(run, moves, d)
  }

  lemma MoveAdvances(run: seq<State>, moves: seq<Move>, b: seq<bool>, x: nat, d: bool, k: nat, j: nat, n: nat)
    requires ARun(run, moves, d, b) && 0 < n < |run| && Advanced(run, x, d, k, j, n - 1)
    ensures Advanced(run, x, d, k, j + if b[n - 1] then 1 else 0, n)
  {
    assert Open(Seal);
    RunKeepsQueues(run, moves, n - 1);
    assert run[n - 1 + 1] == Step(run[n - 1], moves[n - 1].p, moves[n - 1].next);
    Advances(run, moves[n - 1], x, d, k, j, n);
  }

  lemma {:induction false} WaitsSoFar(run: seq<State>, moves: seq<Move>, b: seq<bool>, x: nat, d: bool, k: nat, n: nat)
    requires ARun(run, moves, d, b) && Waiting(run[0], x, d, k) && n < |run|
    ensures Advanced(run, x, d, k, Count(b, n), n)
  {
    if n > 0 {
      WaitsSoFar(run, moves, b, x, d, k, n - 1);
      MoveAdvances(run, moves, b, x, d, k, Count(b, n - 1), n);
    }
  }

  /** A process at position k of a semaphore's queue is woken within n steps if and only if more
      than k of them are ups that find the value below zero.  The other ups do not help it. */
  lemma {:induction false} WokenExactly(run: seq<State>, moves: seq<Move>, x: nat, d: bool, k: nat, n: nat)
    requires IsRun(run, moves) && QueuesOk(run[0]) && Waiting(run[0], x, d, k) && n < |run|
    ensures WokenBy(run, x, n) <==> Count(LowUps(run, moves, d), n) > k
  {
    var b := LowUps(run, moves, d);
    WaitsSoFar(run, moves, b, x, d, k, n);
    if Count(b, n) <= k {
      forall m | 0 < m <= n ensures !(x < |run[m].pc| && !run[m].pc[x].SemBlocked?) {
        CountGrows(b, m, n);
        WaitsSoFar(run, moves, b, x, d, k, m);
      }
    }
  }

  /** A stranded process stays where it is for as long as the value is not negative, however many
      ups there are. */
  lemma StaysStranded(run: seq<State>, moves: seq<Move>, x: nat, d: bool, k: nat, n: nat)
    requires IsRun(run, moves) && QueuesOk(run[0]) && Waiting(run[0], x, d, k) && n < |run|
    requires forall i :: 0 <= i < n ==> SemOf(run[i].gate, d).value >= 0
    ensures !WokenBy(run, x, n) && Waiting(run[n], x, d, k)
  {
    var b := LowUps(run, moves, d);
    NothingCounted(b, n);
    WokenExactly(run, moves, x, d, k, n);
    StillWaits(run, moves, b, x, d, k, n);
  }

  lemma StillWaits(run: seq<State>, moves: seq<Move>, b: seq<bool>, x: nat, d: bool, k: nat, n: nat)
    requires ARun(run, moves, d, b) && Waiting(run[0], x, d, k) && n < |run| && Count(b, n) == 0
    ensures Waiting(run[n], x, d, k)
  {
    WaitsSoFar(run, moves, b, x, d, k, n);
  }

  // ---------------------------------------------------------------- runs of a mailbox

  /** From the start on, the queues hold exactly the blocked processes, so that what is said above holds
      of every part of every run. */
  lemma MailboxQueues(run: seq<State>, moves: seq<Move>, n: nat)
    requires IsRun(run, moves) && run[0] == Init(|run[0].pc|) && n < |run|
    ensures QueuesOk(run[n])
  {
    InitQueues(|run[0].pc|);
    RunKeepsQueues(run, moves, n);
  }

  /** Somebody has been stranded at a mailbox if and only if some up found -1 with two or more waiting. */
  lemma MailboxStrandsExactly(run: seq<State>, moves: seq<Move>, d: bool, n: nat)
    requires IsRun(run, moves) && run[0] == Init(|run[0].pc|) && n < |run|
    ensures (exists i :: 0 <= i <= n && Stranded(SemOf(run[i].gate, d)))
      <==> (exists i :: 0 <= i < n && Strands(run[i], moves[i].p, d))
  {
    InitQueues(|run[0].pc|);
    assert !Stranded(SemOf(run[0].gate, d));
    RunStrandsExactly(run, moves, d, n);
  }

  /** What is left of a run from some time on is a run. */
  lemma RestOfRun(run: seq<State>, moves: seq<Move>, m: nat, r: seq<State>, ms: seq<Move>)
    requires IsRun(run, moves) && m < |run| && r == run[m..] && ms == moves[m..]
    ensures IsRun(r, ms) && r[0] == run[m]
  {
    forall i | 0 <= i < |ms| ensures SlotsOk(r[i].ring) && ms[i].p < |r[i].pc| && r[i + 1] == Step(r[i], ms[i].p, ms[i].next) {
      assert r[i] == run[m + i] && r[i + 1] == run[m + i + 1] && ms[i] == moves[m + i];
    }
  }

  /** In every run of a mailbox, and from any time m on, a process blocked at position k is woken by the
      next n moves if and only if more than k of them are ups that find the value below zero. */
  lemma MailboxWokenExactly(run: seq<State>, moves: seq<Move>, m: nat, r: seq<State>, ms: seq<Move>, n: nat, x: nat, d: bool, k: nat)
    requires IsRun(run, moves) && run[0] == Init(|run[0].pc|) && m < |run| && r == run[m..] && ms == moves[m..]
    requires n < |r| && Waiting(r[0], x, d, k)
    ensures IsRun(r, ms) && (WokenBy(r, x, n) <==> Count(LowUps(r, ms, d), n) > k)
  {
    MailboxQueues(run, moves, m);
    RestOfRun(run, moves, m, r, ms);
    WokenExactly(r, ms, x, d, k, n);
  }

  // ---------------------------------------------------------------- a mailbox that gets stuck

  /** Three processes get from the start to state t in n steps. */
  ghost predicate Reaches(n: nat, t: State) {
    exists run, moves :: ReachedBy(run, moves, n, t)
  }

  ghost predicate ReachedBy(run: seq<State>, moves: seq<Move>, n: nat, t: State) {
    IsRun(run, moves) && |moves| == n && run[0] == Init(3) && run[n] == t
  }

  lemma OneMove(n: nat, s: State, p: nat, next: Op) returns (t: State)
    requires Reaches(n, s) && SlotsOk(s.ring) && p < |s.pc|
    ensures t == Step(s, p, next) && Reaches(n + 1, t)
  {
    t := Step(s, p, next);
    var run, moves :| ReachedBy(run, moves, n, s);
    LongerRun(run, moves, n, s, Move(p, next));
  }

  lemma LongerRun(run: seq<State>, moves: seq<Move>, n: nat, s: State, m: Move)
    requires ReachedBy(run, moves, n, s) && SlotsOk(s.ring) && m.p < |s.pc|
    ensures ReachedBy(run + [Step(s, m.p, m.next)], moves + [m], n + 1, Step(s, m.p, m.next))
  {
    var r, ms := run + [Step(s, m.p, m.next)], moves + [m];
    forall i | 0 <= i <= n ensures SlotsOk(r[i].ring) && ms[i].p < |r[i].pc| && r[i + 1] == Step(r[i], ms[i].p, ms[i].next) {
      if i < n { assert r[i] == run[i] && r[i + 1] == run[i + 1] && ms[i] == moves[i]; }
    }
  }

  /** Nobody is in the critical section or waits for the lock. */
  ghost predicate Calm(s: State) {
    |s.pc| == 3 && SlotsOk(s.ring) && !s.locked && s.waiting == []
  }

  /** A call up to the point where it has passed the semaphore or is blocked on it. */
  lemma Starts(n: nat, s: State, p: nat, op: Op) returns (t: State)
    requires Reaches(n, s) && Calm(s) && p < 3 && s.pc[p] == Idle && p !in SemOf(s.gate, op.Send?).queue
    ensures Reaches(n + 2, t) && Calm(t) && t.ring == s.ring
    ensures t.pc == s.pc[p := if SemOf(s.gate, op.Send?).value > 0 then Acquire(op) else SemBlocked(op)]
    ensures SemOf(t.gate, op.Send?) == AfterDown(SemOf(s.gate, op.Send?), p)
    ensures SemOf(t.gate, !op.Send?) == SemOf(s.gate, !op.Send?)
  {
    t := OneMove(n, s, p, op);
    t := OneMove(n + 1, t, p, op);
  }

  lemma TestsAgain(n: nat, s: State, p: nat, op: Op) returns (t: State)
    requires Reaches(n, s) && Calm(s) && p < 3 && s.pc[p] == Recheck(op) && p !in SemOf(s.gate, op.Send?).queue
    ensures Reaches(n + 1, t) && Calm(t) && t.ring == s.ring && SemOf(t.gate, !op.Send?) == SemOf(s.gate, !op.Send?)
    ensures
      var x := SemOf(s.gate, op.Send?);
      if x.value < 0 then t.pc == s.pc[p := SemBlocked(op)] && SemOf(t.gate, op.Send?) == AfterBlock(x, p)
      else t.pc == s.pc[p := Acquire(op)] && SemOf(t.gate, op.Send?) == x
  {
    t := OneMove(n, s, p, op);
  }

  /** The critical section, with a message of length zero. */
  lemma Passes(n: nat, s: State, p: nat, op: Op) returns (t: State)
    requires Reaches(n, s) && Calm(s) && p < 3 && s.pc[p] == Acquire(op) && (op == Send([]) || op == Recv(0))
    ensures Reaches(n + 4, t) && Calm(t) && t.pc == s.pc[p := Up(op)]
    ensures t.gate.empty == s.gate.empty && t.gate.full == s.gate.full
    ensures |t.ring.sent| == |s.ring.sent| + (if op.Send? then 1 else 0)
    ensures |t.ring.got| == |s.ring.got| + (if op.Send? then 0 else 1)
  {
    t := OneMove(n, s, p, op);
    t := OneMove(n + 1, t, p, op);
    t := OneMove(n + 2, t, p, op);
    t := OneMove(n + 3, t, p, op);
  }

  lemma Raises(n: nat, s: State, p: nat, op: Op) returns (t: State)
    requires Reaches(n, s) && Calm(s) && p < 3 && s.pc[p] == Up(op)
    requires
      var q := SemOf(s.gate, !op.Send?).queue;
      q != [] ==> 0 <= q[0] < 3 && q[0] != p && s.pc[q[0]].SemBlocked?
    ensures Reaches(n + 1, t) && Calm(t) && t.ring == s.ring && SemOf(t.gate, op.Send?) == SemOf(s.gate, op.Send?)
    ensures
      var x := SemOf(s.gate, !op.Send?);
      && SemOf(t.gate, !op.Send?) == AfterUp(x)
      && t.pc == if Wakes(x) then s.pc[p := Idle][x.queue[0] := Recheck(s.pc[x.queue[0]].op)] else s.pc[p := Idle]
  {
    t := OneMove(n, s, p, op);
  }

  lemma Sends(n: nat, s: State, p: nat) returns (t: State)
    requires Reaches(n, s) && Calm(s) && p < 3 && s.pc[p] == Idle && s.gate.empty.value > 0 && p !in s.gate.empty.queue
    ensures Reaches(n + 6, t) && Calm(t) && t.pc == s.pc[p := Up(Send([]))] && t.gate.full == s.gate.full
    ensures t.gate.empty == Sem(s.gate.empty.value - 1, s.gate.empty.queue)
    ensures |t.ring.sent| == |s.ring.sent| + 1 && |t.ring.got| == |s.ring.got|
  {
    t := Starts(n, s, p, Send([]));
    t := Passes(n + 2, t, p, Send([]));
  }

  ghost predicate Looks(s: State, pcs: seq<Pc>, empty: Sem, full: Sem, sent: nat, got: nat) {
    Calm(s) && s.pc == pcs && s.gate.empty == empty && s.gate.full == full && |s.ring.sent| == sent && |s.ring.got| == got
  }

  lemma OneReceiverWoken() returns (s: State)
    ensures Reaches(9, s)
    ensures Looks(s, [Recheck(Recv(0)), Idle, Idle], Sem(1, []), Sem(0, []), 1, 0)
  {
    assert ReachedBy([Init(3)], [], 0, Init(3));
    s := Starts(0, Init(3), 0, Recv(0));
    s := Sends(2, s, 1);
    s := Raises(8, s, 1, Send([]));
    assert s.pc == [Recheck(Recv(0)), Idle, Idle];
  }

  /** One receiver waits; the message it is woken for does not reach it before another receiver
      has come in, and it blocks again behind that one. */
  lemma TwoReceiversWait() returns (s: State)
    ensures Reaches(18, s)
    ensures Looks(s, [SemBlocked(Recv(0)), Up(Send([])), SemBlocked(Recv(0))], Sem(0, []), Sem(-1, [2, 0]), 2, 0)
  {
    s := OneReceiverWoken();
    s := Sends(9, s, 1);
    s := Starts(15, s, 2, Recv(0));
    s := TestsAgain(17, s, 0, Recv(0));
  }

  /** The second up wakes only the receiver in front; this strands the other one. */
  lemma OneReceives() returns (s: State)
    ensures Reaches(25, s)
    ensures Looks(s, [SemBlocked(Recv(0)), Idle, Idle], Sem(1, []), Sem(0, [0]), 2, 1)
  {
    s := TwoReceiversWait();
    s := Raises(18, s, 1, Send([]));
    assert s.pc == [SemBlocked(Recv(0)), Idle, Recheck(Recv(0))];
    s := TestsAgain(19, s, 2, Recv(0));
    s := Passes(20, s, 2, Recv(0));
    s := Raises(24, s, 2, Recv(0));
    assert s.pc == [SemBlocked(Recv(0)), Idle, Idle];
  }

  lemma FullAndUnread() returns (s: State)
    ensures Reaches(34, s)
    ensures Looks(s, [SemBlocked(Recv(0)), Idle, SemBlocked(Send([]))], Sem(-1, [2]), Sem(1, [0]), 3, 1)
  {
    s := OneReceives();
    s := Sends(25, s, 1);
    s := Raises(31, s, 1, Send([]));
    assert s.pc == [SemBlocked(Recv(0)), Idle, Idle];
    s := Starts(32, s, 2, Send([]));
  }

  /** A run of 34 steps of three processes after which a receiver is blocked beside two unread
      messages and a sender is blocked on the full mailbox; nobody else is under way. */
  lemma MailboxGetsStuck() returns (run: seq<State>, moves: seq<Move>)
    ensures IsRun(run, moves) && |moves| == 34 && run[0] == Init(3)
    ensures Looks(run[34], [SemBlocked(Recv(0)), Idle, SemBlocked(Send([]))], Sem(-1, [2]), Sem(1, [0]), 3, 1)
    ensures Stranded(run[34].gate.full)
  {
    var s := FullAndUnread();
    run, moves :| ReachedBy(run, moves, 34, s);
  }

  /** When the third process sends too, all three are blocked, and nothing ever happens again. */
  lemma MailboxDeadlocks() returns (run: seq<State>, moves: seq<Move>)
    ensures IsRun(run, moves) && |moves| == 36 && run[0] == Init(3)
    ensures Looks(run[36], [SemBlocked(Recv(0)), SemBlocked(Send([])), SemBlocked(Send([]))], Sem(-2, [2, 1]), Sem(1, [0]), 3, 1)
    ensures forall p :: 0 <= p < |run[36].pc| ==> run[36].pc[p].SemBlocked?
  {
    var s := FullAndUnread();
    s := Starts(34, s, 1, Send([]));
    assert s.pc == [SemBlocked(Recv(0)), SemBlocked(Send([])), SemBlocked(Send([]))];
    run, moves :| ReachedBy(run, moves, 36, s);
  }

  lemma {:induction false} BlockedForGood(run: seq<State>, moves: seq<Move>, n: nat)
    requires IsRun(run, moves) && n < |run| && forall p :: 0 <= p < |run[0].pc| ==> run[0].pc[p].SemBlocked?
    ensures run[n] == run[0]
  {
    if n > 0 { BlockedForGood(run, moves, n - 1); }
  }
}
