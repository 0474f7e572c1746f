/** The lock of a mailbox: whoever waits for it stands in its queue, a release wakes the longest waiter,
    a free lock with waiters has somebody about to take it, and a holder gives it back after a number of
    moves of its own that is known beforehand. */
module MailboxLock {
  import opened Mailbox
  import opened MailboxProofs
  import opened Counting
  import opened Sealing

  // ---------------------------------------------------------------- the queue

  /** The queue holds exactly the processes blocked on the lock, each of them once. */
  ghost predicate WaitersOk(pcs: seq<Pc>, q: seq<int>) {
    && (forall i :: 0 <= i < |q| ==> 0 <= q[i] < |pcs| && pcs[q[i]].LockBlocked?)
    && (forall i, j :: 0 <= i < j < |q| ==> q[i] != q[j])
    && (forall p :: 0 <= p < |pcs| && pcs[p].LockBlocked? ==> p in q)
  }

  ghost predicate SomeHolds(pcs: seq<Pc>) { exists p :: 0 <= p < |pcs| && Holds(pcs[p]) }

  ghost predicate SomeAcquires(pcs: seq<Pc>) { exists p :: 0 <= p < |pcs| && pcs[p].Acquire? }

  /** A lock that is taken has a holder; a free one with waiters has a process about to test it. */
  ghost predicate LockOk(s: State) {
    && WaitersOk(s.pc, s.waiting)
    && (s.locked ==> SomeHolds(s.pc))
    && (!s.locked && s.waiting != [] ==> SomeAcquires(s.pc))
  }

  /** A move of one process that has nothing to do with the lock. */
  lemma Elsewhere(s: State, t: State, p: nat)
    requires LockOk(s) && p < |s.pc| && |t.pc| == |s.pc| && t.pc == s.pc[p := t.pc[p]]
    requires t.locked == s.locked && t.waiting == s.waiting && !s.pc[p].LockBlocked? && !t.pc[p].LockBlocked?
    requires (Holds(s.pc[p]) ==> Holds(t.pc[p])) && !s.pc[p].Acquire?
    ensures LockOk(t)
  {
    if s.locked {
      var h :| 0 <= h < |s.pc| && Holds(s.pc[h]);
      assert Holds(t.pc[h]);
    }
    if !s.locked && s.waiting != [] {
      var a :| 0 <= a < |s.pc| && s.pc[a].Acquire?;
      assert t.pc[a].Acquire?;
    }
  }

  lemma AcquireKeepsLock(s: State, p: nat, op: Op, t: State)
    requires LockOk(s) && p < |s.pc| && s.pc[p] == Acquire(op) && t == StepAcquire(s, p, op)
    ensures LockOk(t) && t.locked
    ensures if s.locked then t.pc == s.pc[p := LockBlocked(op)] && t.waiting == s.waiting + [p]
            else t.pc == s.pc[p := Enter(op)] && t.waiting == s.waiting
  {
    if s.locked {
      var h :| 0 <= h < |s.pc| && Holds(s.pc[h]);
      assert Holds(t.pc[h]);
    } else {
      assert Holds(t.pc[p]);
    }
  }

  /** What the end of a critical section does: the longest waiter, if there is one, is about to test. */
  lemma LeaveKeepsLock(s: State, p: nat, op: Op, buf: Message, t: State)
    requires LockOk(s) && p < |s.pc| && s.pc[p] == Leave(op, buf) && t == WakeLock(Released(s, p, op, buf))
    ensures LockOk(t) && !t.locked
    ensures
      if s.waiting == [] then t.pc == s.pc[p := Up(op)] && t.waiting == []
      else 0 <= s.waiting[0] < |s.pc| && s.pc[s.waiting[0]].LockBlocked? && t.waiting == s.waiting[1..]
           && t.pc == s.pc[p := Up(op)][s.waiting[0] := Acquire(s.pc[s.waiting[0]].op)]
  {
    if s.waiting != [] {
      assert t.pc[s.waiting[0]].Acquire?;
    }
  }

  lemma UpKeepsLock(s: State, p: nat, op: Op, t: State)
    requires LockOk(s) && p < |s.pc| && s.pc[p] == Up(op) && t == StepUp(s, p, op)
    ensures LockOk(t) && t.waiting == s.waiting && |t.pc| == |s.pc| && t.locked == s.locked
    ensures forall h :: 0 <= h < |s.pc| && (s.pc[h].LockBlocked? || Holds(s.pc[h])) ==> t.pc[h] == s.pc[h]
  {
    var u := s.(pc := s.pc[p := Idle], gate := Raised(s.gate, op.Send?));
    Elsewhere(s, u, p);
    if t.pc != u.pc { Elsewhere(u, t, SemOf(u.gate, !op.Send?).queue[0]); }
  }

  /** The steps that leave the lock alone. */
  lemma OtherKeepsLock(s: State, p: nat, next: Op, t: State)
    requires LockOk(s) && SlotsOk(s.ring) && p < |s.pc| && t == Step(s, p, next)
    requires !s.pc[p].Acquire? && !s.pc[p].Leave? && !s.pc[p].Up?
    ensures LockOk(t) && t.waiting == s.waiting && t.locked == s.locked && |t.pc| == |s.pc| && t.pc == s.pc[p := t.pc[p]]
    ensures s.pc[p].LockBlocked? ==> t == s
  {
    if !s.pc[p].LockBlocked? && !s.pc[p].SemBlocked? { Elsewhere(s, t, p); }
  }

  lemma StepKeepsLock(s: State, p: nat, next: Op)
    requires LockOk(s) && SlotsOk(s.ring) && p < |s.pc|
    ensures LockOk(Step(s, p, next))
  {
    var t := Step(s, p, next);
    match s.pc[p] {
      case Acquire(op) => AcquireKeepsLock(s, p, op, t);
      case Leave(op, buf) => LeaveKeepsLock(s, p, op, buf, t);
      case Up(op) => UpKeepsLock(s, p, op, t);
      case _ => OtherKeepsLock(s, p, next, t);
    }
  }

  lemma {:induction false} RunKeepsLock(run: seq<State>, moves: seq<Move>, n: nat)
    requires IsRun(run, moves) && LockOk(run[0]) && n < |run|
    ensures LockOk(run[n])
  {
    if n > 0 {
      RunKeepsLock(run, moves, n - 1);
      StepKeepsLock(run[n - 1], moves[n - 1].p, moves[n - 1].next);
    }
  }

  /** In every state of every run the queue of the lock is exactly its waiters. */
  lemma MailboxWaiters(run: seq<State>, moves: seq<Move>, n: nat)
    requires IsRun(run, moves) && run[0] == Init(|run[0].pc|) && n < |run|
    ensures LockOk(run[n]) && WaitersOk(run[n].pc, run[n].waiting)
  {
    RunKeepsLock(run, moves, n);
  }

  /** In every state of every run, when somebody waits, the lock is held by a process inside the critical
      section, or it is free and some process takes it in its next step. */
  lemma MailboxLockMoves(run: seq<State>, moves: seq<Move>, n: nat, next: Op) returns (p: nat)
    requires IsRun(run, moves) && run[0] == Init(|run[0].pc|) && n < |run| && run[n].waiting != []
    ensures p < |run[n].pc| && SlotsOk(run[n].ring)
    ensures if run[n].locked then Holds(run[n].pc[p])
            else run[n].pc[p].Acquire? && Step(run[n], p, next).locked && Step(run[n], p, next).pc[p] == Enter(run[n].pc[p].op)
  {
    RunKeepsLock(run, moves, n);
    RunKeepsInv(run, moves, n);
    var s := run[n];
    if s.locked {
      p :| 0 <= p < |s.pc| && Holds(s.pc[p]);
    } else {
      p :| 0 <= p < |s.pc| && s.pc[p].Acquire?;
      AcquireKeepsLock(s, p, s.pc[p].op, Step(s, p, next));
    }
  }

  // ---------------------------------------------------------------- who is woken

  /** A process blocked on the lock goes on if and only if it stands first in the queue and the step ends
      a critical section; it is then about to test the lock for the call it was making. */
  lemma LockWakesExactly(s: State, p: nat, next: Op, h: nat)
    requires LockOk(s) && SlotsOk(s.ring) && p < |s.pc| && h < |s.pc| && s.pc[h].LockBlocked?
    ensures
      var t := Step(s, p, next);
      && |t.pc| == |s.pc|
      && (t.pc[h] != s.pc[h] <==> s.pc[p].Leave? && s.waiting != [] && s.waiting[0] == h)
      && (t.pc[h] != s.pc[h] ==> t.pc[h] == Acquire(s.pc[h].op))
  {
    var t := Step(s, p, next);
    match s.pc[p] {
      case Acquire(op) => AcquireKeepsLock(s, p, op, t);
      case Leave(op, buf) => LeaveKeepsLock(s, p, op, buf, t);
      case Up(op) => UpKeepsLock(s, p, op, t);
      case _ => OtherKeepsLock(s, p, next, t);
    }
  }

  /** Process x stands at position k of the lock's queue. */
  ghost predicate Queued(s: State, x: nat, k: nat) {
    x < |s.pc| && s.pc[x].LockBlocked? && k < |s.waiting| && s.waiting[k] == x
  }

  lemma QueueAdvances(s: State, p: nat, next: Op, x: nat, k: nat)
    requires LockOk(s) && SlotsOk(s.ring) && p < |s.pc| && Queued(s, x, k)
    ensures !s.pc[p].Leave? ==> Queued(Step(s, p, next), x, k)
    ensures s.pc[p].Leave? && k > 0 ==> Queued(Step(s, p, next), x, k - 1)
    ensures s.pc[p].Leave? && k == 0 ==> |Step(s, p, next).pc| == |s.pc| && Step(s, p, next).pc[x] == Acquire(s.pc[x].op)
  {
    LockWakesExactly(s, p, next, x);
    var t := Step(s, p, next);
    match s.pc[p] {
      case Acquire(op) => AcquireKeepsLock(s, p, op, t);
      case Leave(op, buf) => LeaveKeepsLock(s, p, op, buf, t);
      case Up(op) => UpKeepsLock(s, p, op, t);
      case _ => OtherKeepsLock(s, p, next, t);
    }
  }

  /** For every move: does it end a critical section? */
  ghost function Releases(run: seq<State>, moves: seq<Move>): seq<bool>
    requires IsRun(run, moves)
  {
    seq(|moves|, i requires 0 <= i < |moves| => run[i].pc[moves[i].p].Leave?)
  }

  ghost predicate TestsBy(run: seq<State>, x: nat, n: nat)
    requires n < |run|
  {
    exists m :: 0 < m <= n && x < |run[m].pc| && run[m].pc[x].Acquire?
  }

  ghost predicate Nearer(run: seq<State>, x: nat, k: nat, j: nat, n: nat)
    requires n < |run|
  {
    if j <= k then Queued(run[n], x, k - j) else TestsBy(run, x, n)
  }

  /** A run with what every move is to the lock, taken as a whole. */
  ghost predicate ARun(run: seq<State>, moves: seq<Move>, b: seq<bool>) {
    && |run| == |moves| + 1 == |b| + 1
    && forall x: Seal {:trigger Open(x)} :: Open(x) ==> IsRun(run, moves) && LockOk(run[0]) && b == Releases(run, moves)
  }

  ghost predicate OneMove(s: State, m: Move, t: State) { SlotsOk(s.ring) && m.p < |s.pc| && t == Step(s, m.p, m.next) }

  lemma ComesNearer(run: seq<State>, m: Move, x: nat, k: nat, j: nat, n: nat)
    requires 0 < n < |run| && OneMove(run[n - 1], m, run[n]) && LockOk(run[n - 1]) && Nearer(run, x, k, j, n - 1)
    ensures Nearer(run, x, k, j + if run[n - 1].pc[m.p].Leave? then 1 else 0, n)
  {
    if j <= k {
      QueueAdvances(run[n - 1], m.p, m.next, x, k - j);
    } else {
      var i :| 0 < i <= n - 1 && x < |run[i].pc| && run[i].pc[x].Acquire?;
      assert 0 < i <= n;
    }
  }

  lemma MoveComesNearer(run: seq<State>, moves: seq<Move>, b: seq<bool>, x: nat, k: nat, j: nat, n: nat)
    requires ARun(run, moves, b) && 0 < n < |run| && Nearer(run, x, k, j, n - 1)
    ensures Nearer(run, x, k, j + if b[n - 1] then 1 else 0, n)
  {
    assert Open(Seal);
    RunKeepsLock(run, moves, n - 1);
    assert run[n - 1 + 1] == Step(run[n - 1], moves[n - 1].p, moves[n - 1].next);
    ComesNearer(run, moves[n - 1], x, k, j, n);
  }

  lemma {:induction false} NearerSoFar(run: seq<State>, moves: seq<Move>, b: seq<bool>, x: nat, k: nat, n: nat)
    requires ARun(run, moves, b) && Queued(run[0], x, k) && n < |run|
    ensures Nearer(run, x, k, Count(b, n), n)
  {
    if n > 0 {
      NearerSoFar(run, moves, b, x, k, n - 1);
      MoveComesNearer(run, moves, b, x, k, Count(b, n - 1), n);
    }
  }

  /** A process at position k of the lock's queue comes to test the lock within n moves if and only if
      more than k of them end a critical section. */
  lemma LockWokenExactly(run: seq<State>, moves: seq<Move>, x: nat, k: nat, n: nat)
    requires IsRun(run, moves) && LockOk(run[0]) && Queued(run[0], x, k) && n < |run|
    ensures TestsBy(run, x, n) <==> Count(Releases(run, moves), n) > k
  {
    var b := Releases(run, moves);
    NearerSoFar(run, moves, b, x, k, n);
    if Count(b, n) <= k {
      forall m | 0 < m <= n ensures !(x < |run[m].pc| && run[m].pc[x].Acquire?) {
        CountGrows(b, m, n);
        NearerSoFar(run, moves, b, x, k, m);
      }
    }
  }

  // ---------------------------------------------------------------- how long a holder holds

  function Length(op: Op): nat { if op.Send? then |op.msg| else op.len }

  /** The bytes that are copied; an over-long message is not copied at all. */
  function Copied(op: Op): nat { if Length(op) <= MSG_MAX_LEN then Length(op) else 0 }

  /** The moves a holder still has to make until the lock is free again. */
  function Remaining(pc: Pc): int {
    match pc
    case Enter(op) => Copied(op) + 3
    case Copy(op, _, done, _) => Copied(op) - (if Length(op) <= MSG_MAX_LEN then done else 0) + 2
    case Leave(_, _) => 1
    case _ => 0
  }

  lemma HolderIsWell(s: State, h: nat)
    requires Inv(s) && h < |s.pc| && s.pc[h].Copy?
    ensures s.pc[h].cnt < MSG_MAX_NUM && (Length(s.pc[h].op) <= MSG_MAX_LEN ==> s.pc[h].done <= Length(s.pc[h].op))
  {
    assert Progress(s.ring, s.pc[h]);
  }

  lemma HolderSteps(s: State, h: nat, next: Op)
    requires Inv(s) && h < |s.pc| && Holds(s.pc[h])
    ensures
      var t := Step(s, h, next);
      && |t.pc| == |s.pc| && Remaining(s.pc[h]) > 0 && Remaining(t.pc[h]) == Remaining(s.pc[h]) - 1
      && (if Remaining(s.pc[h]) == 1 then t.pc[h].Up? && !t.locked else Holds(t.pc[h]))
  {
    if s.pc[h].Copy? { HolderIsWell(s, h); }
  }

  /** Nobody else moves a holder on. */
  lemma OthersLeaveHolder(s: State, p: nat, next: Op, h: nat)
    requires Inv(s) && LockOk(s) && p < |s.pc| && h < |s.pc| && Holds(s.pc[h]) && p != h
    ensures |Step(s, p, next).pc| == |s.pc| && Step(s, p, next).pc[h] == s.pc[h]
  {
    var t := Step(s, p, next);
    match s.pc[p] {
      case Acquire(op) => AcquireKeepsLock(s, p, op, t);
      case Leave(op, buf) => LeaveKeepsLock(s, p, op, buf, t);
      case Up(op) => UpKeepsLock(s, p, op, t);
      case _ => OtherKeepsLock(s, p, next, t);
    }
  }

  function OwnMoves(moves: seq<Move>, h: nat): seq<bool> {
    seq(|moves|, i requires 0 <= i < |moves| => moves[i].p == h)
  }

  lemma {:induction false} HolderSoFar(run: seq<State>, moves: seq<Move>, h: nat, n: nat)
    requires IsRun(run, moves) && Inv(run[0]) && LockOk(run[0]) && h < |run[0].pc| && Holds(run[0].pc[h]) && n < |run|
    requires Count(OwnMoves(moves, h), n) < Remaining(run[0].pc[h])
    ensures Inv(run[n]) && LockOk(run[n]) && h < |run[n].pc| && Holds(run[n].pc[h])
    ensures Remaining(run[n].pc[h]) == Remaining(run[0].pc[h]) - Count(OwnMoves(moves, h), n)
  {
    if n > 0 {
      HolderSoFar(run, moves, h, n - 1);
      HolderMoves(run[n - 1], moves[n - 1], run[n], h);
    }
  }

  lemma HolderMoves(s: State, m: Move, t: State, h: nat)
    requires OneMove(s, m, t) && Inv(s) && LockOk(s) && h < |s.pc| && Holds(s.pc[h])
    ensures Inv(t) && LockOk(t) && |t.pc| == |s.pc|
    ensures Remaining(t.pc[h]) == Remaining(s.pc[h]) - (if m.p == h then 1 else 0)
    ensures if m.p == h && Remaining(s.pc[h]) == 1 then t.pc[h].Up? && !t.locked else Holds(t.pc[h])
  {
    StepKeepsInv(s, m.p, m.next);
    StepKeepsLock(s, m.p, m.next);
    if m.p == h { HolderSteps(s, h, m.next); } else { OthersLeaveHolder(s, m.p, m.next, h); }
  }

  /** A holder holds the lock until it has made as many moves as are left of its critical section, and
      with the last of them it gives the lock back, whatever the others do. */
  lemma HolderLeaves(run: seq<State>, moves: seq<Move>, h: nat, n: nat)
    requires IsRun(run, moves) && Inv(run[0]) && LockOk(run[0]) && h < |run[0].pc| && Holds(run[0].pc[h]) && n < |moves|
    requires Count(OwnMoves(moves, h), n) < Remaining(run[0].pc[h])
    ensures h < |run[n].pc| && Holds(run[n].pc[h]) && h < |run[n + 1].pc|
    ensures Count(OwnMoves(moves, h), n + 1) == Remaining(run[0].pc[h]) ==> run[n + 1].pc[h].Up? && !run[n + 1].locked
  {
    HolderSoFar(run, moves, h, n);
    HolderMoves(run[n], moves[n], run[n + 1], h);
  }

  /** While a message of more than 64 bytes is sent or received, no slot changes. */
  lemma LongKeepsSlots(s: State, p: nat, next: Op, h: nat)
    requires Inv(s) && p < |s.pc| && h < |s.pc| && Holds(s.pc[h]) && Length(s.pc[h].op) > MSG_MAX_LEN
    ensures Step(s, p, next).ring.slots == s.ring.slots
  {
    if Holds(s.pc[p]) { assert p == h; }
  }
}
