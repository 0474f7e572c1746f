/** Mailboxes: a two-slot ring buffer guarded by two semaphores and a mutex, used by any number
    of senders and receivers that may be preempted between any two steps.

    libs/mailbox.c runs in user mode, so every system call and every copied byte is a step of
    its own.  A semaphore or lock call runs without interruption until it blocks or returns. */
module Mailbox {

  const MSG_MAX_LEN := 64
  const MSG_MAX_NUM := 2

  type Byte = bv8
  type Message = seq<Byte>

  /** The two directions; each waits on one semaphore and raises the other. */
  datatype Op = Send(msg: Message) | Recv(len: nat)

  datatype Pc =
    | Idle
    | Down(op: Op)                      // about to call semaphore_down
    | SemBlocked(op: Op)                // in the semaphore's queue
    | Recheck(op: Op)                   // woken, about to test the value again
    | Acquire(op: Op)                   // about to test the lock
    | LockBlocked(op: Op)               // in the lock's queue
    | Enter(op: Op)                     // holds the lock, about to advance the index
    | Copy(op: Op, cnt: nat, done: nat, buf: Message)
    | Leave(op: Op, buf: Message)       // about to release the lock
    | Up(op: Op)                        // about to call semaphore_up

  datatype Sem = Sem(value: int, queue: seq<int>)

  /** One received message: the length asked for and the bytes copied. */
  datatype Receipt = Receipt(len: nat, bytes: Message)

  /** Events counted since the mailbox was set up, for one direction. */
  datatype Tally = Tally(started: nat, downs: nat, entered: nat, left: nat, ups: nat)

  /** The two semaphores with the tallies of both directions. */
  datatype Gate = Gate(empty: Sem, full: Sem, sends: Tally, recvs: Tally)

  /** The buffer, and what went through it in critical-section order. */
  datatype Ring = Ring(head: nat, tail: nat, slots: seq<Message>, sent: seq<Message>, got: seq<Receipt>)

  datatype State = State(pc: seq<Pc>, gate: Gate, locked: bool, waiting: seq<int>, ring: Ring)

  function Init(n: nat): State {
    var none := Tally(0, 0, 0, 0, 0);
    State(seq(n, _ => Idle), Gate(Sem(MSG_MAX_NUM, []), Sem(0, []), none, none), false, [],
          Ring(0, 0, [seq(MSG_MAX_LEN, _ => 0), seq(MSG_MAX_LEN, _ => 0)], [], []))
  }

  // ---------------------------------------------------------------- semaphores

  /** The semaphore a direction waits on; it raises the one of the other direction. */
  function SemOf(g: Gate, send: bool): Sem { if send then g.empty else g.full }

  function SetSem(g: Gate, send: bool, x: Sem): Gate {
    if send then g.(empty := x) else g.(full := x)
  }

  function TallyOf(g: Gate, send: bool): Tally { if send then g.sends else g.recvs }

  function SetTally(g: Gate, send: bool, t: Tally): Gate {
    if send then g.(sends := t) else g.(recvs := t)
  }

  function PushAbsent(q: seq<int>, p: int): seq<int> {
    if p in q then q else q + [p]
  }

  /** The decrement at the start of do_semaphore_down */
  function Started(g: Gate, send: bool): Gate {
    var x, t := SemOf(g, send), TallyOf(g, send);
    SetTally(SetSem(g, send, x.(value := x.value - 1)), send, t.(started := t.started + 1))
  }

  /** do_block on the semaphore's queue */
  function Queued(g: Gate, send: bool, p: int): Gate {
    var x := SemOf(g, send);
    SetSem(g, send, x.(queue := PushAbsent(x.queue, p)))
  }

  function Completed(g: Gate, send: bool): Gate {
    var t := TallyOf(g, send);
    SetTally(g, send, t.(downs := t.downs + 1))
  }

  function Entered(g: Gate, send: bool): Gate {
    var t := TallyOf(g, send);
    SetTally(g, send, t.(entered := t.entered + 1))
  }

  function Left(g: Gate, send: bool): Gate {
    var t := TallyOf(g, send);
    SetTally(g, send, t.(left := t.left + 1))
  }

  /** The increment of do_semaphore_up on the semaphore of the other direction */
  function Raised(g: Gate, send: bool): Gate {
    var x, t := SemOf(g, !send), TallyOf(g, send);
    SetTally(SetSem(g, !send, x.(value := x.value + 1)), send, t.(ups := t.ups + 1))
  }

  function Unqueued(g: Gate, send: bool): Gate
    requires SemOf(g, send).queue != []
  {
    var x := SemOf(g, send);
    SetSem(g, send, x.(queue := x.queue[1..]))
  }

  // ---------------------------------------------------------------- steps

  /** The test of the while loop in do_semaphore_down: block, or go on to the lock. */
  function TestSem(s: State, p: nat, op: Op): State
    requires p < |s.pc|
  {
    if SemOf(s.gate, op.Send?).value < 0 then
      s.(pc := s.pc[p := SemBlocked(op)], gate := Queued(s.gate, op.Send?, p))
    else
      s.(pc := s.pc[p := Acquire(op)], gate := Completed(s.gate, op.Send?))
  }

  /** do_mutex_lock_acquire up to its next block or its return */
  function StepAcquire(s: State, p: nat, op: Op): State
    requires p < |s.pc|
  {
    if s.locked then s.(pc := s.pc[p := LockBlocked(op)], waiting := PushAbsent(s.waiting, p))
    else
      var w := if s.waiting != [] && s.waiting[0] == p then s.waiting[1..] else s.waiting;
      s.(pc := s.pc[p := Enter(op)], locked := true, waiting := w)
  }

  function StepEnter(s: State, p: nat, op: Op): State
    requires p < |s.pc|
  {
    var g := Entered(s.gate, op.Send?);
    if op.Send? then
      var cnt := (s.ring.tail + 1) % MSG_MAX_NUM;
      s.(pc := s.pc[p := Copy(op, cnt, 0, [])], gate := g, ring := s.ring.(tail := cnt))
    else
      var cnt := (s.ring.head + 1) % MSG_MAX_NUM;
      s.(pc := s.pc[p := Copy(op, cnt, 0, [])], gate := g, ring := s.ring.(head := cnt))
  }

  /** One round of the copy loop, or its end; over-long messages are not copied at all. */
  function StepCopy(s: State, p: nat, op: Op, cnt: nat, done: nat, buf: Message): State
    requires p < |s.pc| && cnt < |s.ring.slots| && |s.ring.slots[cnt]| == MSG_MAX_LEN
  {
    var slots := s.ring.slots;
    match op
    case Send(msg) =>
      if |msg| <= MSG_MAX_LEN && done < |msg| then
        s.(pc := s.pc[p := Copy(op, cnt, done + 1, buf)],
           ring := s.ring.(slots := slots[cnt := slots[cnt][done := msg[done]]]))
      else s.(pc := s.pc[p := Leave(op, buf)])
    case Recv(len) =>
      if len <= MSG_MAX_LEN && done < len then
        s.(pc := s.pc[p := Copy(op, cnt, done + 1, buf + [slots[cnt][done]])])
      else s.(pc := s.pc[p := Leave(op, buf)])
  }

  /** do_unblock_one on the lock's queue */
  function WakeLock(s: State): State {
    if s.waiting == [] then s
    else
      var h := s.waiting[0];
      if 0 <= h < |s.pc| && s.pc[h].LockBlocked? then
        s.(pc := s.pc[h := Acquire(s.pc[h].op)], waiting := s.waiting[1..])
      else s.(waiting := s.waiting[1..])
  }

  /** The end of the critical section, before the lock's queue is looked at. */
  function Released(s: State, p: nat, op: Op, buf: Message): State
    requires p < |s.pc|
  {
    var r := if op.Send? then s.ring.(sent := s.ring.sent + [op.msg])
             else s.ring.(got := s.ring.got + [Receipt(op.len, buf)]);
    State(s.pc[p := Up(op)], Left(s.gate, op.Send?), false, s.waiting, r)
  }

  /** do_unblock_one on a semaphore's queue */
  function WakeSem(s: State, send: bool): State {
    var x := SemOf(s.gate, send);
    if x.queue == [] then s
    else
      var h := x.queue[0];
      if 0 <= h < |s.pc| && s.pc[h].SemBlocked? then
        s.(pc := s.pc[h := Recheck(s.pc[h].op)], gate := Unqueued(s.gate, send))
      else s.(gate := Unqueued(s.gate, send))
  }

  /** do_semaphore_up */
  function StepUp(s: State, p: nat, op: Op): State
    requires p < |s.pc|
  {
    var t := s.(pc := s.pc[p := Idle], gate := Raised(s.gate, op.Send?));
    if SemOf(t.gate, !op.Send?).value <= 0 then WakeSem(t, !op.Send?) else t
  }

  /** One step of process p; an idle process starts the operation `next`.  Blocked processes
      do not move. */
  function Step(s: State, p: nat, next: Op): State
    requires p < |s.pc| && SlotsOk(s.ring)
  {
    match s.pc[p]
    case Idle => s.(pc := s.pc[p := Down(next)])
    case Down(op) => TestSem(s.(gate := Started(s.gate, op.Send?)), p, op)
    case SemBlocked(_) => s
    case Recheck(op) => TestSem(s, p, op)
    case Acquire(op) => StepAcquire(s, p, op)
    case LockBlocked(_) => s
    case Enter(op) => StepEnter(s, p, op)
    case Copy(op, cnt, done, buf) => if cnt < MSG_MAX_NUM then StepCopy(s, p, op, cnt, done, buf) else s
    case Leave(op, buf) => WakeLock(Released(s, p, op, buf))
    case Up(op) => StepUp(s, p, op)
  }

  predicate SlotsOk(r: Ring) {
    |r.slots| == MSG_MAX_NUM && |r.slots[0]| == |r.slots[1]| == MSG_MAX_LEN
  }

  /** A schedule: who moves, and what it starts if it is idle. */
  datatype Move = Move(p: nat, next: Op)

  ghost predicate IsRun(run: seq<State>, moves: seq<Move>) {
    && |run| == |moves| + 1
    && forall i :: 0 <= i < |moves| ==>
         && SlotsOk(run[i].ring) && moves[i].p < |run[i].pc|
         && run[i + 1] == Step(run[i], moves[i].p, moves[i].next)
  }

  // ---------------------------------------------------------------- counting processes

  datatype Phase = Waits(send: bool) | Granted(send: bool) | Inside(send: bool) | Raises(send: bool) | Elsewhere

  function PhaseOf(pc: Pc): Phase {
    match pc
    case SemBlocked(op) => Waits(op.Send?)
    case Recheck(op) => Waits(op.Send?)
    case Acquire(op) => Granted(op.Send?)
    case LockBlocked(op) => Granted(op.Send?)
    case Enter(op) => Granted(op.Send?)
    case Copy(op, _, _, _) => Inside(op.Send?)
    case Leave(op, _) => Inside(op.Send?)
    case Up(op) => Raises(op.Send?)
    case _ => Elsewhere
  }

  predicate Holds(pc: Pc) { pc.Enter? || pc.Copy? || pc.Leave? }

  function Phases(pcs: seq<Pc>): seq<Phase> {
    seq(|pcs|, i requires 0 <= i < |pcs| => PhaseOf(pcs[i]))
  }

  /** How many processes are in each phase. */
  ghost function Census(pcs: seq<Pc>): multiset<Phase> { multiset(Phases(pcs)) }

  lemma CensusUpdate(pcs: seq<Pc>, i: nat, pc: Pc)
    requires i < |pcs|
    ensures Census(pcs[i := pc]) == Census(pcs) - multiset{PhaseOf(pcs[i])} + multiset{PhaseOf(pc)}
    ensures PhaseOf(pcs[i]) in Census(pcs)
  {
    assert Phases(pcs[i := pc]) == Phases(pcs)[i := PhaseOf(pc)];
    assert Phases(pcs)[i] == PhaseOf(pcs[i]);
  }

  lemma CensusHas(pcs: seq<Pc>, ph: Phase) returns (i: nat)
    requires ph in Census(pcs)
    ensures i < |pcs| && PhaseOf(pcs[i]) == ph
  {
    assert ph in Phases(pcs);
    i :| 0 <= i < |pcs| && Phases(pcs)[i] == ph;
  }

  /** The tallies of one direction account for the processes in each phase. */
  ghost predicate Accounted(census: multiset<Phase>, send: bool, t: Tally) {
    && t.started == t.downs + census[Waits(send)]
    && t.downs == t.entered + census[Granted(send)]
    && t.entered == t.left + census[Inside(send)]
    && t.left == t.ups + census[Raises(send)]
  }

  /** A semaphore's value, and the lemma behind all semaphore safety: completed downs never
      exceed the initial value plus the ups. */
  ghost predicate SemOk(x: Sem, init: nat, downs: Tally, ups: Tally) {
    && x.value == init + ups.ups - downs.started
    && downs.downs <= init + ups.ups
  }

  function InitialValue(send: bool): nat { if send then MSG_MAX_NUM else 0 }

  ghost predicate Flow(pcs: seq<Pc>, send: bool, t: Tally) { Accounted(Census(pcs), send, t) }

  ghost predicate SemsOk(g: Gate) {
    forall send :: SemOk(SemOf(g, send), InitialValue(send), TallyOf(g, send), TallyOf(g, !send))
  }

  ghost predicate Counts(pcs: seq<Pc>, g: Gate) {
    SemsOk(g) && forall send :: Flow(pcs, send, TallyOf(g, send))
  }

  /** At most one process holds the lock, and none when it is not locked. */
  ghost predicate Exclusive(s: State) {
    && (forall p, q :: 0 <= p < |s.pc| && 0 <= q < |s.pc| && Holds(s.pc[p]) && Holds(s.pc[q]) ==> p == q)
    && (!s.locked ==> forall p :: 0 <= p < |s.pc| ==> !Holds(s.pc[p]))
  }
}
