/** Intrusive queues: the process control blocks of one table are threaded on many queues
    through a single pair of links, as in kernel/sched/queue.c.  Pointers into the table are
    indices, NULL is -1. */
module Links {
  import opened Scheduler
  import opened Sealing

  const NULL := -1

  datatype Pcb = Pcb(status: Status, priority: nat, awake: nat, next: int, prev: int)

  datatype Header = Header(head: int, tail: int)

  ghost function Procs(m: seq<Pcb>): seq<Proc> {
    seq(|m|, i requires 0 <= i < |m| => Proc(m[i].status, m[i].priority, m[i].awake))
  }

  /** Header h and the links in table m represent exactly the sequence c. */
  ghost predicate Represents(m: seq<Pcb>, h: Header, c: seq<Pid>) {
    && |m| == NUM_MAX_TASK
    && h == (if c == [] then Header(NULL, NULL) else Header(c[0], c[|c| - 1]))
    && forall i :: 0 <= i < |c| ==> Linked(m, c, i)
  }

  ghost predicate Linked(m: seq<Pcb>, c: seq<Pid>, i: nat)
    requires |m| == NUM_MAX_TASK && i < |c|
  {
    && m[c[i]].next == (if i + 1 < |c| then c[i + 1] else NULL)
    && m[c[i]].prev == (if i > 0 then c[i - 1] else NULL)
  }

  ghost predicate Apart(cs: seq<seq<Pid>>) {
    forall q, i, r, j |
      0 <= q < |cs| && 0 <= i < |cs[q]| && 0 <= r < |cs| && 0 <= j < |cs[r]| && cs[q][i] == cs[r][j] ::
      q == r && i == j
  }

  /** All queues at once: each represents its contents and no process is queued twice. */
  ghost predicate Mem(m: seq<Pcb>, hs: seq<Header>, cs: seq<seq<Pid>>) {
    |m| == NUM_MAX_TASK && |hs| == |cs| && forall s: Seal {:trigger Open(s)} :: Open(s) ==> Intact(m, hs, cs)
  }

  ghost predicate Intact(m: seq<Pcb>, hs: seq<Header>, cs: seq<seq<Pid>>)
    requires |hs| == |cs|
  {
    (forall q :: 0 <= q < |cs| ==> Represents(m, hs[q], cs[q])) && Apart(cs)
  }

  /** One queue of the memory. */
  lemma ThisQueue(m: seq<Pcb>, hs: seq<Header>, cs: seq<seq<Pid>>, q: nat)
    requires Mem(m, hs, cs) && q < |cs|
    ensures Represents(m, hs[q], cs[q])
  {
    assert Open(Seal);
  }

  ghost predicate Unqueued(cs: seq<seq<Pid>>, p: Pid) {
    forall q :: 0 <= q < |cs| ==> p !in cs[q]
  }

  /** Queues none of whose members changed their links still represent their contents. */
  lemma RepresentsElsewhere(m: seq<Pcb>, m': seq<Pcb>, h: Header, c: seq<Pid>)
    requires Represents(m, h, c) && |m'| == |m|
    requires forall i :: 0 <= i < |c| ==> m'[c[i]] == m[c[i]]
    ensures Represents(m', h, c)
  {
    forall i | 0 <= i < |c| ensures Linked(m', c, i) { assert Linked(m, c, i); }
  }

  lemma ApartWith(cs: seq<seq<Pid>>, q: nat, c: seq<Pid>)
    requires Apart(cs) && q < |cs|
    requires forall i, j :: 0 <= i < |c| && 0 <= j < |c| && c[i] == c[j] ==> i == j
    requires forall r :: 0 <= r < |cs| && r != q ==> forall i :: 0 <= i < |c| ==> c[i] !in cs[r]
    ensures Apart(cs[q := c])
  {
  }

  // ---------------------------------------------------------------- push

  ghost function Pushed(m: seq<Pcb>, c: seq<Pid>, p: Pid): seq<Pcb>
    requires |m| == NUM_MAX_TASK
  {
    var m1 := if c == [] then m else m[c[|c| - 1] := m[c[|c| - 1]].(next := p)];
    m1[p := m1[p].(next := NULL, prev := if c == [] then NULL else c[|c| - 1])]
  }

  lemma PushRepresents(m: seq<Pcb>, h: Header, c: seq<Pid>, p: Pid)
    requires Represents(m, h, c) && p !in c
    requires forall i, j :: 0 <= i < |c| && 0 <= j < |c| && c[i] == c[j] ==> i == j
    ensures Represents(Pushed(m, c, p), Header(if c == [] then p else h.head, p), c + [p])
  {
    var d, m' := c + [p], Pushed(m, c, p);
    forall i | 0 <= i < |d|
      ensures Linked(m', d, i)
    {
      if i < |c| {
        assert Linked(m, c, i) && c[i] != p;
        assert i + 1 < |c| ==> c[i] != c[|c| - 1];
      }
    }
  }

  lemma MemPush(m: seq<Pcb>, hs: seq<Header>, cs: seq<seq<Pid>>, q: nat, p: Pid)
    requires Mem(m, hs, cs) && q < |cs| && Unqueued(cs, p)
    ensures Mem(Pushed(m, cs[q], p), hs[q := Header(if cs[q] == [] then p else hs[q].head, p)], cs[q := cs[q] + [p]])
    ensures Procs(Pushed(m, cs[q], p)) == Procs(m)
  {
    assert Open(Seal);
    var c, m' := cs[q], Pushed(m, cs[q], p);
    assert Represents(m, hs[q], c) && p !in c;
    PushRepresents(m, hs[q], c, p);
    forall r | 0 <= r < |cs| && r != q ensures Represents(m', hs[r], cs[r]) {
      assert Represents(m, hs[r], cs[r]) && p !in cs[r];
      RepresentsElsewhere(m, m', hs[r], cs[r]);
    }
    forall r | 0 <= r < |cs| && r != q ensures forall i :: 0 <= i < |c + [p]| ==> (c + [p])[i] !in cs[r] {
      assert p !in cs[r];
    }
    ApartWith(cs, q, c + [p]);
  }

  // ---------------------------------------------------------------- pop

  ghost function Popped(m: seq<Pcb>, c: seq<Pid>): seq<Pcb>
    requires |m| == NUM_MAX_TASK && c != []
  {
    var m1 := if |c| == 1 then m else m[c[1] := m[c[1]].(prev := NULL)];
    m1[c[0] := m1[c[0]].(next := NULL, prev := NULL)]
  }

  lemma PopRepresents(m: seq<Pcb>, h: Header, c: seq<Pid>)
    requires Represents(m, h, c) && c != []
    requires forall i, j :: 0 <= i < |c| && 0 <= j < |c| && c[i] == c[j] ==> i == j
    ensures Represents(Popped(m, c), if |c| == 1 then Header(NULL, NULL) else Header(c[1], h.tail), c[1..])
  {
    var d, m' := c[1..], Popped(m, c);
    forall i | 0 <= i < |d|
      ensures Linked(m', d, i)
    {
      assert Linked(m, c, i + 1) && c[i + 1] != c[0];
      assert i > 0 ==> c[i + 1] != c[1];
    }
  }

  lemma MemPop(m: seq<Pcb>, hs: seq<Header>, cs: seq<seq<Pid>>, q: nat)
    requires Mem(m, hs, cs) && q < |cs| && cs[q] != []
    ensures Mem(Popped(m, cs[q]), hs[q := if |cs[q]| == 1 then Header(NULL, NULL) else Header(cs[q][1], hs[q].tail)],
                cs[q := cs[q][1..]])
    ensures Procs(Popped(m, cs[q])) == Procs(m)
    ensures Unqueued(cs[q := cs[q][1..]], cs[q][0])
  {
    assert Open(Seal);
    var c, m' := cs[q], Popped(m, cs[q]);
    assert Represents(m, hs[q], c);
    PopRepresents(m, hs[q], c);
    forall r | 0 <= r < |cs| && r != q ensures Represents(m', hs[r], cs[r]) {
      assert Represents(m, hs[r], cs[r]);
      RepresentsElsewhere(m, m', hs[r], cs[r]);
    }
    ApartWith(cs, q, c[1..]);
  }

  /** Changing what is not a link changes no queue. */
  lemma MemSame(m: seq<Pcb>, m': seq<Pcb>, hs: seq<Header>, cs: seq<seq<Pid>>)
    requires Mem(m, hs, cs) && |m'| == |m|
    requires forall i :: 0 <= i < |m| ==> m'[i].next == m[i].next && m'[i].prev == m[i].prev
    ensures Mem(m', hs, cs)
  {
    assert Open(Seal);
    forall q | 0 <= q < |cs| ensures Represents(m', hs[q], cs[q]) {
      assert Represents(m, hs[q], cs[q]);
      forall i | 0 <= i < |cs[q]| ensures Linked(m', cs[q], i) { assert Linked(m, cs[q], i); }
    }
  }
}
