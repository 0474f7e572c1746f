/** Over every interleaving, what is received is what was sent, in order. */
module MailboxProofs {
  import opened Mailbox

  // ---------------------------------------------------------------- tallies

  /** The tally changes that fit a move from phase a to phase b, for one direction. */
  predicate Advances(a: Phase, b: Phase, send: bool, t: Tally, u: Tally) {
    if a == Elsewhere && b == Waits(send) then u == t.(started := t.started + 1)
    else if a == Elsewhere && b == Granted(send) then u == t.(started := t.started + 1, downs := t.downs + 1)
    else if a == Waits(send) && b == Granted(send) then u == t.(downs := t.downs + 1)
    else if a == Granted(send) && b == Inside(send) then u == t.(entered := t.entered + 1)
    else if a == Inside(send) && b == Raises(send) then u == t.(left := t.left + 1)
    else if a == Raises(send) && b == Elsewhere then u == t.(ups := t.ups + 1)
    else u == t && (a == b || (Foreign(a, send) && Foreign(b, send)))
  }

  predicate Foreign(a: Phase, send: bool) { a == Elsewhere || a.send != send }

  function One(b: bool): int { if b then 1 else 0 }

  lemma Flows(pcs: seq<Pc>, p: nat, pc: Pc, send: bool, t: Tally, u: Tally)
    requires p < |pcs| && Flow(pcs, send, t)
    requires Advances(PhaseOf(pcs[p]), PhaseOf(pc), send, t, u)
    ensures Flow(pcs[p := pc], send, u)
  {
    var a, b := PhaseOf(pcs[p]), PhaseOf(pc);
    CensusUpdate(pcs, p, pc);
    CensusFlows(Census(pcs), Census(pcs[p := pc]), a, b, send, t, u);
  }

  lemma CensusFlows(c: multiset<Phase>, d: multiset<Phase>, a: Phase, b: Phase, send: bool, t: Tally, u: Tally)
    requires Accounted(c, send, t) && Advances(a, b, send, t, u)
    requires forall ph :: d[ph] == c[ph] - One(ph == a) + One(ph == b)
    ensures Accounted(d, send, u)
  {
  }

  /** A waiting process keeps the started downs ahead of the completed ones. */
  lemma SomeWait(pcs: seq<Pc>, p: nat, send: bool, t: Tally)
    requires p < |pcs| && PhaseOf(pcs[p]) == Waits(send) && Flow(pcs, send, t)
    ensures t.downs < t.started
  {
    CensusUpdate(pcs, p, pcs[p]);
  }

  lemma MoveCounts(pcs: seq<Pc>, g: Gate, h: Gate, p: nat, pc: Pc)
    requires Counts(pcs, g) && p < |pcs| && SemsOk(h)
    requires forall send :: Advances(PhaseOf(pcs[p]), PhaseOf(pc), send, TallyOf(g, send), TallyOf(h, send))
    ensures Counts(pcs[p := pc], h)
  {
    forall send ensures Flow(pcs[p := pc], send, TallyOf(h, send)) {
      Flows(pcs, p, pc, send, TallyOf(g, send), TallyOf(h, send));
    }
  }

  /** Queues do not matter to the counts. */
  lemma SameValues(g: Gate, h: Gate)
    requires SemsOk(g) && h.sends == g.sends && h.recvs == g.recvs
    requires h.empty.value == g.empty.value && h.full.value == g.full.value
    ensures SemsOk(h)
  {
    forall send ensures SemOk(SemOf(h, send), InitialValue(send), TallyOf(h, send), TallyOf(h, !send)) {
      assert SemOk(SemOf(g, send), InitialValue(send), TallyOf(g, send), TallyOf(g, !send));
    }
  }

  lemma SamePhaseCounts(pcs: seq<Pc>, g: Gate, h: Gate, p: nat, pc: Pc)
    requires Counts(pcs, g) && p < |pcs| && PhaseOf(pc) == PhaseOf(pcs[p])
    requires h.sends == g.sends && h.recvs == g.recvs
    requires h.empty.value == g.empty.value && h.full.value == g.full.value
    ensures Counts(pcs[p := pc], h)
  {
    SameValues(g, h);
    MoveCounts(pcs, g, h, p, pc);
  }

  lemma TestCounts(s: State, p: nat, op: Op)
    requires Counts(s.pc, s.gate) && p < |s.pc| && s.pc[p] == Recheck(op)
    ensures Counts(TestSem(s, p, op).pc, TestSem(s, p, op).gate)
  {
    var g, send := s.gate, op.Send?;
    if SemOf(g, send).value < 0 {
      SamePhaseCounts(s.pc, g, Queued(g, send, p), p, SemBlocked(op));
    } else {
      SomeWait(s.pc, p, send, TallyOf(g, send));
      CompletedOk(g, send);
      MoveCounts(s.pc, g, Completed(g, send), p, Acquire(op));
    }
  }

  /** A down completes only when the value is not negative. */
  lemma CompletedOk(g: Gate, send: bool)
    requires SemsOk(g) && SemOf(g, send).value >= 0 && TallyOf(g, send).downs < TallyOf(g, send).started
    ensures SemsOk(Completed(g, send))
  {
    var h := Completed(g, send);
    forall d ensures SemOk(SemOf(h, d), InitialValue(d), TallyOf(h, d), TallyOf(h, !d)) {
      assert SemOk(SemOf(g, d), InitialValue(d), TallyOf(g, d), TallyOf(g, !d));
    }
  }

  lemma StartedOk(g: Gate, send: bool)
    requires SemsOk(g)
    ensures SemsOk(Started(g, send))
  {
    var h := Started(g, send);
    forall d ensures SemOk(SemOf(h, d), InitialValue(d), TallyOf(h, d), TallyOf(h, !d)) {
      assert SemOk(SemOf(g, d), InitialValue(d), TallyOf(g, d), TallyOf(g, !d));
    }
  }

  lemma DownCounts(s: State, p: nat, op: Op)
    requires Counts(s.pc, s.gate) && p < |s.pc| && s.pc[p] == Down(op)
    ensures
      var t := TestSem(s.(gate := Started(s.gate, op.Send?)), p, op);
      Counts(t.pc, t.gate)
  {
    var send := op.Send?;
    var g := Started(s.gate, send);
    StartedOk(s.gate, send);
    if SemOf(g, send).value < 0 {
      SameValues(g, Queued(g, send, p));
      MoveCounts(s.pc, s.gate, Queued(g, send, p), p, SemBlocked(op));
    } else {
      PassCounts(s, p, op);
    }
  }

  lemma PassCounts(s: State, p: nat, op: Op)
    requires Counts(s.pc, s.gate) && p < |s.pc| && s.pc[p] == Down(op) && SemOf(Started(s.gate, op.Send?), op.Send?).value >= 0
    ensures Counts(s.pc[p := Acquire(op)], Completed(Started(s.gate, op.Send?), op.Send?))
  {
    var send := op.Send?;
    var g := Started(s.gate, send);
    StartedOk(s.gate, send);
    assert Flow(s.pc, send, TallyOf(s.gate, send));
    CompletedOk(g, send);
    MoveCounts(s.pc, s.gate, Completed(g, send), p, Acquire(op));
  }

  lemma EnterCounts(s: State, p: nat, op: Op)
    requires Counts(s.pc, s.gate) && p < |s.pc| && s.pc[p] == Enter(op)
    ensures Counts(StepEnter(s, p, op).pc, StepEnter(s, p, op).gate)
  {
    var g := Entered(s.gate, op.Send?);
    TalliesOk(s.gate, g);
    MoveCounts(s.pc, s.gate, g, p, StepEnter(s, p, op).pc[p]);
  }

  /** The semaphores look only at downs, starts and ups. */
  lemma TalliesOk(g: Gate, h: Gate)
    requires SemsOk(g) && h.empty == g.empty && h.full == g.full
    requires h.sends.downs == g.sends.downs && h.sends.started == g.sends.started && h.sends.ups == g.sends.ups
    requires h.recvs.downs == g.recvs.downs && h.recvs.started == g.recvs.started && h.recvs.ups == g.recvs.ups
    ensures SemsOk(h)
  {
    forall d ensures SemOk(SemOf(h, d), InitialValue(d), TallyOf(h, d), TallyOf(h, !d)) {
      assert SemOk(SemOf(g, d), InitialValue(d), TallyOf(g, d), TallyOf(g, !d));
    }
  }

  lemma WakeLockCounts(s: State)
    requires Counts(s.pc, s.gate)
    ensures Counts(WakeLock(s).pc, WakeLock(s).gate)
  {
    if s.waiting != [] {
      var h := s.waiting[0];
      if 0 <= h < |s.pc| && s.pc[h].LockBlocked? {
        SamePhaseCounts(s.pc, s.gate, s.gate, h, Acquire(s.pc[h].op));
      }
    }
  }

  lemma LeaveCounts(s: State, p: nat, op: Op, buf: Message)
    requires Counts(s.pc, s.gate) && p < |s.pc| && s.pc[p] == Leave(op, buf)
    ensures Counts(WakeLock(Released(s, p, op, buf)).pc, WakeLock(Released(s, p, op, buf)).gate)
  {
    var g := Left(s.gate, op.Send?);
    TalliesOk(s.gate, g);
    MoveCounts(s.pc, s.gate, g, p, Up(op));
    WakeLockCounts(Released(s, p, op, buf));
  }

  lemma WakeSemCounts(s: State, send: bool)
    requires Counts(s.pc, s.gate)
    ensures Counts(WakeSem(s, send).pc, WakeSem(s, send).gate)
  {
    var x := SemOf(s.gate, send);
    if x.queue != [] {
      var h, g := x.queue[0], Unqueued(s.gate, send);
      if 0 <= h < |s.pc| && s.pc[h].SemBlocked? {
        SamePhaseCounts(s.pc, s.gate, g, h, Recheck(s.pc[h].op));
      } else {
        SameValues(s.gate, g);
        forall d ensures Flow(s.pc, d, TallyOf(g, d)) { assert Flow(s.pc, d, TallyOf(s.gate, d)); }
      }
    }
  }

  lemma RaisedOk(g: Gate, send: bool)
    requires SemsOk(g)
    ensures SemsOk(Raised(g, send))
  {
    var h := Raised(g, send);
    forall d ensures SemOk(SemOf(h, d), InitialValue(d), TallyOf(h, d), TallyOf(h, !d)) {
      assert SemOk(SemOf(g, d), InitialValue(d), TallyOf(g, d), TallyOf(g, !d));
    }
  }

  lemma UpCounts(s: State, p: nat, op: Op)
    requires Counts(s.pc, s.gate) && p < |s.pc| && s.pc[p] == Up(op)
    ensures Counts(StepUp(s, p, op).pc, StepUp(s, p, op).gate)
  {
    RaisedOk(s.gate, op.Send?);
    var h := Raised(s.gate, op.Send?);
    MoveCounts(s.pc, s.gate, h, p, Idle);
    WakeSemCounts(s.(pc := s.pc[p := Idle], gate := h), !op.Send?);
  }

  /** Every step keeps the tallies; in particular completed downs stay within the initial
      value plus the ups, for both semaphores. */
  lemma StepKeepsCounts(s: State, p: nat, next: Op)
    requires Counts(s.pc, s.gate) && SlotsOk(s.ring) && p < |s.pc|
    ensures Counts(Step(s, p, next).pc, Step(s, p, next).gate)
  {
    match s.pc[p]
    case Down(op) => DownCounts(s, p, op);
    case Recheck(op) => TestCounts(s, p, op);
    case Enter(op) => EnterCounts(s, p, op);
    case Leave(op, buf) => LeaveCounts(s, p, op, buf);
    case Up(op) => UpCounts(s, p, op);
    case _ => QuietCounts(s, p, next);
  }

  /** The steps that change no tally. */
  lemma QuietCounts(s: State, p: nat, next: Op)
    requires Counts(s.pc, s.gate) && SlotsOk(s.ring) && p < |s.pc|
    requires s.pc[p].Idle? || s.pc[p].SemBlocked? || s.pc[p].Acquire? || s.pc[p].LockBlocked? || s.pc[p].Copy?
    ensures Counts(Step(s, p, next).pc, Step(s, p, next).gate)
  {
    match s.pc[p]
    case Idle => SamePhaseCounts(s.pc, s.gate, s.gate, p, Down(next));
    case Acquire(op) => SamePhaseCounts(s.pc, s.gate, s.gate, p, Step(s, p, next).pc[p]);
    case Copy(op, cnt, done, buf) =>
      if cnt < MSG_MAX_NUM { SamePhaseCounts(s.pc, s.gate, s.gate, p, Step(s, p, next).pc[p]); }
    case _ =>
  }

  // ---------------------------------------------------------------- mutual exclusion

  /** A move of process p that neither takes nor gives back the lock. */
  lemma MoveExclusive(s: State, t: State, p: nat)
    requires Exclusive(s) && p < |s.pc| == |t.pc| && t.pc == s.pc[p := t.pc[p]]
    requires Holds(t.pc[p]) == Holds(s.pc[p]) && t.locked == s.locked
    ensures Exclusive(t)
  {
  }

  lemma WakeLockExclusive(s: State)
    requires Exclusive(s)
    ensures Exclusive(WakeLock(s))
  {
    var t := WakeLock(s);
    if t.pc != s.pc { MoveExclusive(s, t, s.waiting[0]); }
  }

  lemma WakeSemExclusive(s: State, send: bool)
    requires Exclusive(s)
    ensures Exclusive(WakeSem(s, send))
  {
    var t := WakeSem(s, send);
    if t.pc != s.pc { MoveExclusive(s, t, SemOf(s.gate, send).queue[0]); }
  }

  lemma StepKeepsExclusive(s: State, p: nat, next: Op)
    requires Exclusive(s) && SlotsOk(s.ring) && p < |s.pc|
    ensures Exclusive(Step(s, p, next))
  {
    match s.pc[p]
    case Idle => MoveExclusive(s, Step(s, p, next), p);
    case Down(op) => MoveExclusive(s, Step(s, p, next), p);
    case SemBlocked(_) =>
    case Recheck(op) => MoveExclusive(s, Step(s, p, next), p);
    case Acquire(op) =>
    case LockBlocked(_) =>
    case Enter(op) => MoveExclusive(s, Step(s, p, next), p);
    case Copy(op, cnt, done, buf) => if cnt < MSG_MAX_NUM { MoveExclusive(s, Step(s, p, next), p); }
    case Leave(op, buf) =>
      assert Exclusive(Released(s, p, op, buf));
      WakeLockExclusive(Released(s, p, op, buf));
    case Up(op) =>
      var t := s.(pc := s.pc[p := Idle], gate := Raised(s.gate, op.Send?));
      MoveExclusive(s, t, p);
      WakeSemExclusive(t, !op.Send?);
  }

  // ---------------------------------------------------------------- contents

  ghost predicate Stored(slot: Message, m: Message) {
    |m| <= MSG_MAX_LEN ==> |slot| == MSG_MAX_LEN && slot[..|m|] == m
  }

  /** Head and tail count entries modulo two. */
  ghost predicate RingOk(r: Ring, g: Gate) {
    && SlotsOk(r)
    && r.tail == g.sends.entered % MSG_MAX_NUM && r.head == g.recvs.entered % MSG_MAX_NUM
    && |r.sent| == g.sends.left && |r.got| == g.recvs.left
  }

  /** Message j sits in slot (j+1) mod 2 until the send two further on starts to write. */
  ghost predicate Kept(r: Ring, entered: nat)
    requires SlotsOk(r)
  {
    forall j :: 0 <= j < |r.sent| && j + MSG_MAX_NUM >= entered ==> Stored(r.slots[(j + 1) % MSG_MAX_NUM], r.sent[j])
  }

  /** A receipt agrees with a message on the bytes both have; an over-long one has none. */
  ghost predicate Matches(m: Message, r: Receipt) {
    if r.len > MSG_MAX_LEN then r.bytes == []
    else
      && |r.bytes| == r.len
      && (|m| <= MSG_MAX_LEN ==> forall i :: 0 <= i < |m| && i < r.len ==> r.bytes[i] == m[i])
  }

  ghost predicate Delivered(r: Ring) {
    |r.got| <= |r.sent| && forall j :: 0 <= j < |r.got| ==> Matches(r.sent[j], r.got[j])
  }

  /** What a process inside the critical section has copied so far. */
  ghost predicate Progress(r: Ring, pc: Pc)
    requires SlotsOk(r) && r.head < MSG_MAX_NUM && r.tail < MSG_MAX_NUM
  {
    match pc
    case Copy(Send(m), cnt, done, _) =>
      cnt == r.tail && done <= |m| && (|m| <= MSG_MAX_LEN ==> r.slots[cnt][..done] == m[..done])
    case Copy(Recv(len), cnt, done, buf) =>
      && cnt == r.head && |buf| == done
      && (if len <= MSG_MAX_LEN then done <= len && buf == r.slots[cnt][..done] else buf == [])
    case Leave(Send(m), _) => Stored(r.slots[r.tail], m)
    case Leave(Recv(len), buf) => buf == if len <= MSG_MAX_LEN then r.slots[r.head][..len] else []
    case _ => true
  }

  ghost predicate AllProgress(s: State)
    requires RingOk(s.ring, s.gate)
  {
    forall p :: 0 <= p < |s.pc| ==> Progress(s.ring, s.pc[p])
  }

  ghost predicate Inv(s: State) {
    && Counts(s.pc, s.gate) && Exclusive(s)
    && RingOk(s.ring, s.gate) && Kept(s.ring, s.gate.sends.entered) && Delivered(s.ring)
    && AllProgress(s)
  }

  // ---------------------------------------------------------------- bounds from the tallies

  /** Receivers never overtake finished senders; senders stay within two of finished receivers. */
  lemma Bounds(pcs: seq<Pc>, g: Gate)
    requires Counts(pcs, g)
    ensures g.recvs.left <= g.recvs.entered <= g.sends.left <= g.sends.entered <= g.recvs.left + MSG_MAX_NUM
  {
    assert Flow(pcs, true, TallyOf(g, true)) && Flow(pcs, false, TallyOf(g, false));
    assert SemOk(SemOf(g, true), InitialValue(true), TallyOf(g, true), TallyOf(g, !true));
    assert SemOk(SemOf(g, false), InitialValue(false), TallyOf(g, false), TallyOf(g, !false));
  }

  /** The process inside the critical section is the only one, so one entry is unfinished. */
  lemma OneInside(s: State, p: nat, send: bool)
    requires Counts(s.pc, s.gate) && Exclusive(s) && p < |s.pc| && PhaseOf(s.pc[p]) == Inside(send)
    ensures TallyOf(s.gate, send).entered == TallyOf(s.gate, send).left + 1
    ensures TallyOf(s.gate, !send).entered == TallyOf(s.gate, !send).left
  {
    assert Flow(s.pc, true, TallyOf(s.gate, true)) && Flow(s.pc, false, TallyOf(s.gate, false));
    CensusUpdate(s.pc, p, Idle);
    NoneInside(s.pc[p := Idle], true);
    NoneInside(s.pc[p := Idle], false);
  }

  lemma NoneInside(pcs: seq<Pc>, send: bool)
    requires forall q :: 0 <= q < |pcs| ==> PhaseOf(pcs[q]) != Inside(send)
    ensures Census(pcs)[Inside(send)] == 0
  {
    if Inside(send) in Census(pcs) { var q := CensusHas(pcs, Inside(send)); }
  }

  /** A process about to enter finds nobody inside. */
  lemma EmptyInside(s: State, p: nat)
    requires Counts(s.pc, s.gate) && Exclusive(s) && p < |s.pc| && s.pc[p].Enter?
    ensures s.gate.sends.entered == s.gate.sends.left && s.gate.recvs.entered == s.gate.recvs.left
  {
    assert Flow(s.pc, true, TallyOf(s.gate, true)) && Flow(s.pc, false, TallyOf(s.gate, false));
    NoneInside(s.pc, true);
    NoneInside(s.pc, false);
  }

  // ---------------------------------------------------------------- contents step by step

  ghost predicate Contents(s: State) {
    && RingOk(s.ring, s.gate) && Kept(s.ring, s.gate.sends.entered) && Delivered(s.ring)
    && AllProgress(s)
  }

  /** Moves outside the critical section do not touch the buffer. */
  lemma OutsideContents(s: State, t: State, p: nat)
    requires Contents(s) && p < |s.pc| == |t.pc| && t.pc == s.pc[p := t.pc[p]] && t.ring == s.ring
    requires t.gate.sends.entered == s.gate.sends.entered && t.gate.recvs.entered == s.gate.recvs.entered
    requires t.gate.sends.left == s.gate.sends.left && t.gate.recvs.left == s.gate.recvs.left
    requires PhaseOf(t.pc[p]) != Inside(true) && PhaseOf(t.pc[p]) != Inside(false)
    ensures Contents(t)
  {
    forall q | 0 <= q < |t.pc| ensures Progress(t.ring, t.pc[q]) {
      assert q != p ==> Progress(s.ring, s.pc[q]);
    }
  }

  lemma EnterContents(s: State, p: nat, op: Op)
    requires Inv(s) && p < |s.pc| && s.pc[p] == Enter(op)
    ensures Contents(StepEnter(s, p, op))
  {
    EmptyInside(s, p);
    var t := StepEnter(s, p, op);
    forall q | 0 <= q < |t.pc| ensures Progress(t.ring, t.pc[q]) {
      assert q != p ==> !Holds(s.pc[q]) && t.pc[q] == s.pc[q];
    }
  }

  lemma CopySendContents(s: State, p: nat, m: Message, cnt: nat, done: nat, buf: Message)
    requires Inv(s) && p < |s.pc| && s.pc[p] == Copy(Send(m), cnt, done, buf) && cnt < MSG_MAX_NUM
    ensures Contents(StepCopy(s, p, Send(m), cnt, done, buf))
  {
    OneInside(s, p, true);
    var t := StepCopy(s, p, Send(m), cnt, done, buf);
    assert Progress(s.ring, s.pc[p]);
    if |m| <= MSG_MAX_LEN && done < |m| {
      assert t.ring.slots[cnt][..done + 1] == s.ring.slots[cnt][..done] + [m[done]];
      assert m[..done + 1] == m[..done] + [m[done]];
    } else if |m| <= MSG_MAX_LEN {
      assert m[..done] == m;
    }
    forall q | 0 <= q < |t.pc| ensures Progress(t.ring, t.pc[q]) {
      assert q != p ==> !Holds(s.pc[q]) && t.pc[q] == s.pc[q];
    }
  }

  lemma CopyRecvContents(s: State, p: nat, len: nat, cnt: nat, done: nat, buf: Message)
    requires Inv(s) && p < |s.pc| && s.pc[p] == Copy(Recv(len), cnt, done, buf) && cnt < MSG_MAX_NUM
    ensures Contents(StepCopy(s, p, Recv(len), cnt, done, buf))
  {
    var t := StepCopy(s, p, Recv(len), cnt, done, buf);
    assert Progress(s.ring, s.pc[p]);
    if len <= MSG_MAX_LEN && done < len {
      assert s.ring.slots[cnt][..done + 1] == s.ring.slots[cnt][..done] + [s.ring.slots[cnt][done]];
    }
    forall q | 0 <= q < |t.pc| ensures Progress(t.ring, t.pc[q]) {
      assert q != p ==> !Holds(s.pc[q]) && t.pc[q] == s.pc[q];
    }
  }

  lemma ReleaseSendContents(s: State, p: nat, m: Message, buf: Message)
    requires Inv(s) && p < |s.pc| && s.pc[p] == Leave(Send(m), buf)
    ensures Contents(Released(s, p, Send(m), buf))
  {
    OneInside(s, p, true);
    var t := Released(s, p, Send(m), buf);
    assert Progress(s.ring, s.pc[p]);
    forall q | 0 <= q < |t.pc| ensures Progress(t.ring, t.pc[q]) {
      assert q != p ==> !Holds(s.pc[q]) && t.pc[q] == s.pc[q];
    }
  }

  /** The heart of the matter: the slot a receiver has copied still holds its message. */
  lemma ReleaseRecvContents(s: State, p: nat, len: nat, buf: Message)
    requires Inv(s) && p < |s.pc| && s.pc[p] == Leave(Recv(len), buf)
    ensures Contents(Released(s, p, Recv(len), buf))
  {
    OneInside(s, p, false);
    Bounds(s.pc, s.gate);
    var t := Released(s, p, Recv(len), buf);
    var j := |s.ring.got|;
    assert Progress(s.ring, s.pc[p]);
    assert j < |s.ring.sent| && s.ring.head == (j + 1) % MSG_MAX_NUM;
    assert Stored(s.ring.slots[s.ring.head], s.ring.sent[j]);
    assert Matches(s.ring.sent[j], Receipt(len, buf)) by { SlotMatches(s.ring.slots[s.ring.head], s.ring.sent[j], len, buf); }
    forall q | 0 <= q < |t.pc| ensures Progress(t.ring, t.pc[q]) {
      assert q != p ==> !Holds(s.pc[q]) && t.pc[q] == s.pc[q];
    }
  }

  lemma SlotMatches(slot: Message, m: Message, len: nat, buf: Message)
    requires |slot| == MSG_MAX_LEN && Stored(slot, m)
    requires buf == if len <= MSG_MAX_LEN then slot[..len] else []
    ensures Matches(m, Receipt(len, buf))
  {
    if len <= MSG_MAX_LEN && |m| <= MSG_MAX_LEN {
      forall i | 0 <= i < |m| && i < len ensures buf[i] == m[i] {
        assert buf[i] == slot[i] == slot[..|m|][i];
      }
    }
  }

  lemma WakeLockContents(s: State)
    requires Contents(s)
    ensures Contents(WakeLock(s))
  {
    var t := WakeLock(s);
    if t.pc != s.pc { OutsideContents(s, t, s.waiting[0]); }
  }

  lemma WakeSemContents(s: State, send: bool)
    requires Contents(s)
    ensures Contents(WakeSem(s, send))
  {
    var t := WakeSem(s, send);
    if t.pc != s.pc { OutsideContents(s, t, SemOf(s.gate, send).queue[0]); }
  }

  lemma StepKeepsContents(s: State, p: nat, next: Op)
    requires Inv(s) && p < |s.pc|
    ensures Contents(Step(s, p, next))
  {
    match s.pc[p]
    case Enter(op) => EnterContents(s, p, op);
    case Copy(op, cnt, done, buf) =>
      if cnt < MSG_MAX_NUM {
        if op.Send? { CopySendContents(s, p, op.msg, cnt, done, buf); } else { CopyRecvContents(s, p, op.len, cnt, done, buf); }
      }
    case Leave(op, buf) =>
      if op.Send? { ReleaseSendContents(s, p, op.msg, buf); } else { ReleaseRecvContents(s, p, op.len, buf); }
      WakeLockContents(Released(s, p, op, buf));
    case Up(op) =>
      var t := s.(pc := s.pc[p := Idle], gate := Raised(s.gate, op.Send?));
      OutsideContents(s, t, p);
      WakeSemContents(t, !op.Send?);
    case _ => BeforeContents(s, p, next);
  }

  /** Steps up to and including the acquisition of the lock. */
  lemma BeforeContents(s: State, p: nat, next: Op)
    requires Contents(s) && p < |s.pc|
    requires s.pc[p].Idle? || s.pc[p].Down? || s.pc[p].SemBlocked? || s.pc[p].Recheck? || s.pc[p].Acquire? || s.pc[p].LockBlocked?
    ensures Contents(Step(s, p, next))
  {
    if !s.pc[p].SemBlocked? && !s.pc[p].LockBlocked? { OutsideContents(s, Step(s, p, next), p); }
  }

  // ---------------------------------------------------------------- the theorem

  lemma StepKeepsInv(s: State, p: nat, next: Op)
    requires Inv(s) && p < |s.pc|
    ensures Inv(Step(s, p, next))
  {
    StepKeepsCounts(s, p, next);
    StepKeepsExclusive(s, p, next);
    StepKeepsContents(s, p, next);
  }

  lemma InitInv(n: nat)
    ensures Inv(Init(n))
  {
    var s := Init(n);
    forall send ensures Flow(s.pc, send, TallyOf(s.gate, send)) {
      assert forall ph :: ph in Census(s.pc) ==> ph == Elsewhere;
    }
  }

  lemma {:induction false} RunKeepsInv(run: seq<State>, moves: seq<Move>, n: nat)
    requires IsRun(run, moves) && run[0] == Init(|run[0].pc|) && n < |run|
    ensures Inv(run[n])
  {
    if n == 0 {
      InitInv(|run[0].pc|);
    } else {
      RunKeepsInv(run, moves, n - 1);
      StepKeepsInv(run[n - 1], moves[n - 1].p, moves[n - 1].next);
    }
  }

  /** For any number of senders and receivers and any interleaving, the k-th receipt is a
      copy of the k-th message, on all bytes both have. */
  lemma ReceivedIsSent(run: seq<State>, moves: seq<Move>, n: nat)
    requires IsRun(run, moves) && run[0] == Init(|run[0].pc|) && n < |run|
    ensures
      var r := run[n].ring;
      |r.got| <= |r.sent| && forall k :: 0 <= k < |r.got| ==> Matches(r.sent[k], r.got[k])
  {
    RunKeepsInv(run, moves, n);
  }

  /** With equal lengths of at most 64 bytes the received messages are a prefix of the sent ones. */
  lemma ReceivedIsPrefix(run: seq<State>, moves: seq<Move>, n: nat, len: nat)
    requires IsRun(run, moves) && run[0] == Init(|run[0].pc|) && n < |run| && len <= MSG_MAX_LEN
    requires forall k :: 0 <= k < |run[n].ring.sent| ==> |run[n].ring.sent[k]| == len
    requires forall k :: 0 <= k < |run[n].ring.got| ==> run[n].ring.got[k].len == len
    ensures
      var r := run[n].ring;
      seq(|r.got|, k requires 0 <= k < |r.got| => r.got[k].bytes) <= r.sent
  {
    RunKeepsInv(run, moves, n);
    var r := run[n].ring;
    forall k | 0 <= k < |r.got| ensures r.got[k].bytes == r.sent[k] {
      assert Matches(r.sent[k], r.got[k]);
    }
  }

  /** While a sender writes a slot, every message still to be received is in the other one. */
  lemma NoUnreadOverwritten(run: seq<State>, moves: seq<Move>, n: nat, p: nat, j: nat)
    requires IsRun(run, moves) && run[0] == Init(|run[0].pc|) && n < |run| && p < |run[n].pc|
    requires run[n].pc[p].Copy? && run[n].pc[p].op.Send?
    requires |run[n].ring.got| <= j < |run[n].ring.sent|
    ensures run[n].pc[p].cnt != (j + 1) % MSG_MAX_NUM && run[n].pc[p].cnt < MSG_MAX_NUM
    ensures SlotsOk(run[n].ring) && Stored(run[n].ring.slots[(j + 1) % MSG_MAX_NUM], run[n].ring.sent[j])
  {
    RunKeepsInv(run, moves, n);
    var s := run[n];
    assert Progress(s.ring, s.pc[p]);
    OneInside(s, p, true);
    Bounds(s.pc, s.gate);
  }

  // ---------------------------------------------------------------- what a woken process finds

  /** A woken process gets past the semaphore if and only if every down that was started is
      covered by the initial value and the ups.  One up thus frees a waiting process only when no
      other one waits: with two waiting it is tested again and blocks again. */
  lemma PassesExactly(s: State, p: nat, op: Op)
    requires Counts(s.pc, s.gate) && p < |s.pc| && s.pc[p] == Recheck(op)
    ensures TestSem(s, p, op).pc[p] == Acquire(op)
      <==> TallyOf(s.gate, op.Send?).started <= InitialValue(op.Send?) + TallyOf(s.gate, !op.Send?).ups
  {
    assert SemOk(SemOf(s.gate, op.Send?), InitialValue(op.Send?), TallyOf(s.gate, op.Send?), TallyOf(s.gate, !op.Send?));
  }
}
