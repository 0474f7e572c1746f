/** The scheduler as kernel/sched/queue.c and kernel/sched/sched.c write it: a table of process
    control blocks, queue headers and counters changed in place.  Every method is proved equal
    to an action of module Scheduler, so the theorems about runs hold of this code. */
module Kernel {
  import opened Scheduler
  import opened Placement
  import opened Runs
  import opened Links
  import opened Sealing

  /** After the next process is taken, the running one can be queued again. */
  lemma CurrentUnqueued(s: Sys, idx: nat)
    requires Schedulable(s) && idx < MAX_PRIORITY_NUM && DropExited(s.procs, s.queues[idx]) != []
    ensures
      var t := TakeTop(s, idx, DropExited(s.procs, s.queues[idx]));
      && t.procs[t.current].status != Create
      && (t.procs[t.current].status.Runnable() ==> Unqueued(t.queues, t.current))
  {
    NoExited(s, idx);
    AfterTakeTop(s, idx);
    if s.procs[s.current].status.Runnable() { HeldIsUnqueued(s, multiset{s.current}, s.current); }
  }

  /** A process slot that is not live is in no queue. */
  lemma SlotUnqueued(s: Sys, p: Pid)
    requires WellFormed(s) && Placed(s, multiset{s.current}) && !s.procs[p].status.Live()
    ensures Unqueued(s.queues, p)
  {
    forall q | 0 <= q < |s.queues| ensures p !in s.queues[q] { OccHas(s.queues, q, p); }
  }

  /** Taking one process at a time from a queue wakes the same processes as do_unblock_all. */
  lemma DrainStep(s: Sys, q: nat, p: Pid, c: seq<Pid>)
    requires WellFormed(s) && MAX_PRIORITY_NUM <= q < |s.queues| && s.queues[q] == c
    ensures UnblockAll(WithQueue(s, q, [p] + c), q) ==
              if s.procs[p].status == Exited then UnblockAll(s, q) else UnblockAll(Wake(s, p), q)
  {
    var t := WithQueue(s, q, [p] + c);
    assert ([p] + c)[1..] == c;
    assert WithQueue(t, q, c) == s;
    if s.procs[p].status == Exited {
      assert DropExited(t.procs, [p] + c) == DropExited(s.procs, c);
      assert forall d :: WithQueue(t, q, d) == WithQueue(s, q, d);
      assert UnblockOne(t, q) == UnblockOne(s, q);
      if c == [] { assert WithQueue(s, q, []) == s; }
    }
  }

  /** Waking a process leaves the blocking queues alone. */
  lemma WakeOther(s: Sys, p: Pid, q: nat)
    requires WellFormed(s) && MAX_PRIORITY_NUM <= q < |s.queues|
    ensures Wake(s, p).queues[q] == s.queues[q]
    ensures s.queues[q] != [] ==>
              var t := Wake(s, p);
              WithQueue(WithQueue(t, q, t.queues[q][1..]), q, [t.queues[q][0]] + t.queues[q][1..]) == t
              && WithQueue(WithQueue(s, q, s.queues[q][1..]), q, [s.queues[q][0]] + s.queues[q][1..]) == s
  {
    if s.queues[q] != [] { assert [s.queues[q][0]] + s.queues[q][1..] == s.queues[q]; }
  }

  lemma UnblockShrinks(s: Sys, q: nat)
    requires WellFormed(s) && MAX_PRIORITY_NUM <= q < |s.queues| && s.queues[q] != []
    ensures UnblockAll(s, q) == UnblockAll(UnblockOne(s, q), q)
    ensures |UnblockOne(s, q).queues[q]| < |s.queues[q]|
  {
  }

  class Kernel {
    const pcb: array<Pcb>
    const queues: array<Header>
    const counter: array<nat>
    const upper: array<nat>
    var current: Pid
    var lastSel: nat
    var schedCnt: nat
    ghost var contents: seq<seq<Pid>>

    ghost predicate Valid()
      reads this, pcb, queues, counter, upper
    {
      && pcb.Length == NUM_MAX_TASK && queues.Length >= FIRST_OTHER_QUEUE
      && counter.Length == upper.Length == MAX_PRIORITY_NUM && counter != upper
      && Mem(pcb[..], queues[..], contents)
      && WellFormed(Model())
    }

    ghost function Model(): Sys
      reads this, pcb, queues, counter, upper
    {
      Sys(Procs(pcb[..]), contents, current, lastSel, schedCnt, counter[..], upper[..])
    }

    /** The memory of a booted kernel, with `others` further queues for locks and the like. */
    constructor (others: nat, lastSelected: nat)
      requires lastSelected < MAX_PRIORITY_NUM
      ensures Valid() && Model() == Boot(others, lastSelected)
      ensures fresh(pcb) && fresh(queues) && fresh(counter) && fresh(upper)
    {
      pcb := new Pcb[NUM_MAX_TASK](i => if i < 2 then Pcb(Ready, 0, WORD - 1, NULL, NULL)
                                        else Pcb(Create, 1, WORD - 1, NULL, NULL));
      queues := new Header[FIRST_OTHER_QUEUE + others](q => if q == 0 then Header(1, 1) else Header(NULL, NULL));
      counter := new nat[MAX_PRIORITY_NUM](_ => 0);
      upper := new nat[MAX_PRIORITY_NUM](i => if i == 0 then 6 else 0);
      current, lastSel, schedCnt := 0, lastSelected, 0;
      contents := Boot(others, lastSelected).queues;
      new;
      assert Open(Seal);
      forall q | 0 <= q < |contents| ensures Represents(pcb[..], queues[..][q], contents[q]) {
        assert q == 0 ==> Linked(pcb[..], contents[q], 0);
      }
      assert Procs(pcb[..]) == Boot(others, lastSelected).procs;
      assert counter[..] == [0, 0, 0, 0, 0];
      assert upper[..] == [6, 0, 0, 0, 0];
    }

    // -------------------------------------------------------------- queue.c

    /** queue_is_empty */
    method IsEmpty(q: nat) returns (empty: bool)
      requires Valid() && q < queues.Length
      ensures empty <==> contents[q] == []
    {
      ThisQueue(pcb[..], queues[..], contents, q);
      empty := queues[q].head == NULL;
    }

    /** queue_push */
    method Push(q: nat, p: Pid)
      requires Valid() && q < queues.Length && Unqueued(contents, p)
      modifies pcb, queues, this`contents
      ensures Valid() && Model() == WithQueue(old(Model()), q, old(contents)[q] + [p])
    {
      MemPush(pcb[..], queues[..], contents, q, p);
      ThisQueue(pcb[..], queues[..], contents, q);
      ghost var goal := Pushed(pcb[..], contents[q], p);
      if queues[q].head == NULL {
        queues[q] := Header(p, p);
        pcb[p] := pcb[p].(next := NULL, prev := NULL);
      } else {
        var tail := queues[q].tail;
        pcb[tail] := pcb[tail].(next := p);
        pcb[p] := pcb[p].(next := NULL, prev := tail);
        queues[q] := queues[q].(tail := p);
      }
      assert pcb[..] == goal;
      contents := contents[q := contents[q] + [p]];
    }

    /** queue_push_if_not_exist: walks the links before it pushes */
    method PushIfNotExist(q: nat, p: Pid)
      requires Valid() && q < queues.Length
      requires forall r :: 0 <= r < |contents| && r != q ==> p !in contents[r]
      modifies pcb, queues, this`contents
      ensures Valid() && Model() == PushIfAbsent(old(Model()), q, p)
    {
      ghost var c := contents[q];
      ThisQueue(pcb[..], queues[..], contents, q);
      var at := queues[q].head;
      ghost var i := 0;
      while at != NULL
        invariant 0 <= i <= |c| && p !in c[..i]
        invariant at == if i < |c| then c[i] else NULL
        decreases |c| - i
      {
        if at == p { return; }
        assert Linked(pcb[..], c, i);
        at := pcb[at].next;
        i := i + 1;
      }
      assert c[..i] == c;
      Push(q, p);
    }

    /** queue_dequeue */
    method Dequeue(q: nat) returns (p: int)
      requires Valid() && q < queues.Length
      modifies pcb, queues, this`contents
      ensures Valid()
      ensures old(contents)[q] == [] ==> p == NULL && Model() == old(Model())
      ensures old(contents)[q] != [] ==>
                && p == old(contents)[q][0] && Unqueued(contents, p)
                && Model() == WithQueue(old(Model()), q, old(contents)[q][1..])
    {
      ghost var c := contents[q];
      ThisQueue(pcb[..], queues[..], contents, q);
      p := queues[q].head;
      if p == NULL { return; }
      assert Linked(pcb[..], c, 0);
      MemPop(pcb[..], queues[..], contents, q);
      ghost var goal := Popped(pcb[..], c);
      var next := pcb[p].next;
      if next == NULL {
        queues[q] := Header(NULL, NULL);
      } else {
        queues[q] := queues[q].(head := next);
        pcb[next] := pcb[next].(prev := NULL);
      }
      pcb[p] := pcb[p].(next := NULL, prev := NULL);
      assert pcb[..] == goal;
      contents := contents[q := c[1..]];
    }

    /** The dequeue loop of the scheduler and of do_unblock_one: exited processes are dropped. */
    method DequeueLive(q: nat) returns (p: int)
      requires Valid() && q < queues.Length
      modifies pcb, queues, this`contents
      ensures Valid()
      ensures
        var c := DropExited(old(Model()).procs, old(contents)[q]);
        && (c == [] ==> p == NULL && Model() == WithQueue(old(Model()), q, []))
        && (c != [] ==> p == c[0] && Unqueued(contents, p) && Model() == WithQueue(old(Model()), q, c[1..]))
    {
      p := Dequeue(q);
      assert p == NULL ==> contents == contents[q := []];
      while p != NULL && pcb[p].status == Exited
        invariant Valid() && |contents| == |old(contents)|
        invariant Model() == WithQueue(old(Model()), q, contents[q])
        invariant p == NULL ==> contents[q] == [] && DropExited(old(Model()).procs, old(contents)[q]) == []
        invariant p != NULL ==> 0 <= p < NUM_MAX_TASK && Unqueued(contents, p)
        invariant p != NULL ==>
          DropExited(old(Model()).procs, old(contents)[q]) == DropExited(old(Model()).procs, [p as Pid] + contents[q])
        decreases |contents[q]|, p != NULL
      {
        p := Dequeue(q);
      }
    }

    // -------------------------------------------------------------- fields of one process

    method SetStatus(p: Pid, status: Status)
      requires Valid()
      modifies pcb
      ensures Valid() && Model() == WithProc(old(Model()), p, old(Model()).procs[p].(status := status))
    {
      ghost var m := pcb[..];
      pcb[p] := pcb[p].(status := status);
      MemSame(m, pcb[..], queues[..], contents);
      assert Procs(pcb[..]) == Procs(m)[p := Procs(m)[p].(status := status)];
    }

    method SetAwake(p: Pid, awake: nat)
      requires Valid()
      modifies pcb
      ensures Valid() && Model() == WithProc(old(Model()), p, old(Model()).procs[p].(awake := awake))
    {
      ghost var m := pcb[..];
      pcb[p] := pcb[p].(awake := awake);
      MemSame(m, pcb[..], queues[..], contents);
      assert Procs(pcb[..]) == Procs(m)[p := Procs(m)[p].(awake := awake)];
    }

    method SetPriority(p: Pid, priority: nat)
      requires Valid() && priority < MAX_PRIORITY_NUM
      modifies pcb
      ensures Valid() && Model() == WithProc(old(Model()), p, old(Model()).procs[p].(priority := priority))
    {
      ghost var m := pcb[..];
      pcb[p] := pcb[p].(priority := priority);
      MemSame(m, pcb[..], queues[..], contents);
      assert Procs(pcb[..]) == Procs(m)[p := Procs(m)[p].(priority := priority)];
    }

    // -------------------------------------------------------------- quotas

    method IncreaseBound(priority: nat)
      requires Valid()
      modifies upper
      ensures Valid() && Model() == old(Model()).(upper := Increase(old(Model()).upper, priority))
    {
      var p := if priority >= MAX_PRIORITY_NUM then MAX_PRIORITY_NUM - 1 else priority;
      upper[p] := (upper[p] + PRIORITY_FACTOR * (p + 1)) % WORD;
    }

    method DecreaseBound(priority: nat)
      requires Valid()
      modifies upper
      ensures Valid() && Model() == old(Model()).(upper := Decrease(old(Model()).upper, priority))
    {
      var p := if priority >= MAX_PRIORITY_NUM then MAX_PRIORITY_NUM - 1 else priority;
      var decrement := PRIORITY_FACTOR * (p + 1);
      if decrement > upper[p] {
        upper[p] := 0;
      } else {
        upper[p] := upper[p] - decrement;
      }
    }

    // -------------------------------------------------------------- waking

    /** invoke_blocked_proc */
    method InvokeBlocked(p: Pid)
      requires Valid() && Unqueued(contents, p)
      modifies pcb, queues, upper, this`contents
      ensures Valid() && Model() == Wake(old(Model()), p)
    {
      SetStatus(p, Running);
      IncreaseBound(pcb[p].priority);
      assert Model().procs[p].priority < MAX_PRIORITY_NUM;
      PushIfNotExist(pcb[p].priority, p);
    }

    /** do_unblock_one */
    method DoUnblockOne(q: nat)
      requires Valid() && q < queues.Length
      modifies pcb, queues, upper, this`contents
      ensures Valid() && Model() == UnblockOne(old(Model()), q)
    {
      var p := DequeueLive(q);
      if p == NULL { return; }
      InvokeBlocked(p);
    }

    /** do_unblock_all */
    method DoUnblockAll(q: nat)
      requires Valid() && MAX_PRIORITY_NUM <= q < queues.Length
      modifies pcb, queues, upper, this`contents
      ensures Valid() && Model() == UnblockAll(old(Model()), q)
    {
      ghost var goal, s := UnblockAll(Model(), q), Model();
      var empty := IsEmpty(q);
      while !empty
        invariant Valid() && s == Model() && q < |s.queues| && UnblockAll(s, q) == goal
        invariant empty <==> s.queues[q] == []
        decreases |s.queues[q]|
      {
        UnblockShrinks(s, q);
        DoUnblockOne(q);
        s := Model();
        empty := IsEmpty(q);
      }
    }

    // -------------------------------------------------------------- the scheduler

    /** Lines 142-177 of sched.c */
    method SelectQueue() returns (idx: nat)
      requires Valid()
      modifies counter, this`lastSel, this`schedCnt
      ensures Valid() && idx == Select(old(Model())).0 && Model() == Select(old(Model())).1
    {
      idx := NextTurn();
      ThisQueue(pcb[..], queues[..], contents, idx);
      schedCnt := schedCnt + 1;
      if schedCnt >= SCHED_BOUND {
        idx := 0;
        schedCnt := 0;
      } else if queues[idx].head == NULL {
        idx := 0;
      } else {
        lastSel := idx;
        counter[idx] := (counter[idx] + 1) % WORD;
      }
    }

    /** Lines 142-163: the scan for a counter below its bound, and the reset when there is none */
    method NextTurn() returns (idx: nat)
      requires Valid()
      modifies counter
      ensures
        var i := Scan(old(counter[..]), upper[..], lastSel);
        if i >= MAX_PRIORITY_NUM then idx == 1 && counter[..] == [old(counter[0]), 0, 0, 0, 0]
        else idx == i && counter[..] == old(counter[..])
    {
      idx := lastSel;
      while idx < MAX_PRIORITY_NUM && counter[idx] >= upper[idx]
        invariant idx <= MAX_PRIORITY_NUM
        invariant Scan(counter[..], upper[..], idx) == Scan(counter[..], upper[..], lastSel)
      {
        idx := idx + 1;
      }
      if idx >= MAX_PRIORITY_NUM {
        idx := 1;
        for i := 1 to MAX_PRIORITY_NUM
          invariant forall j :: 1 <= j < i ==> counter[j] == 0
          invariant counter[0] == old(counter[0])
          modifies counter
        {
          counter[i] := 0;
        }
        assert counter[..] == [old(counter[0]), 0, 0, 0, 0];
      }
    }

    /** check_sleeping */
    method CheckSleepers(now: nat)
      requires Valid()
      modifies pcb, queues, upper, this`contents
      ensures Valid() && Model() == CheckSleeping(old(Model()), now)
    {
      ThisQueue(pcb[..], queues[..], contents, SLEEP_QUEUE);
      var top := queues[SLEEP_QUEUE].head;
      if top != NULL {
        if now > pcb[top].awake {
          var p := Dequeue(SLEEP_QUEUE);
          SetAwake(p, 0);
          InvokeBlocked(p);
        }
      }
    }

    /** check_net_recv; `net` is the state of the descriptor the head waits for */
    method CheckReceivers(net: bool)
      requires Valid()
      modifies pcb, queues, upper, this`contents
      ensures Valid() && Model() == CheckNet(old(Model()), net)
    {
      ThisQueue(pcb[..], queues[..], contents, RECV_QUEUE);
      var p := queues[RECV_QUEUE].head;
      if p != NULL && net {
        var _ := Dequeue(RECV_QUEUE);
        InvokeBlocked(p);
      }
    }

    /** Lines 196-199: the running process goes back to its ready queue if it can go on */
    method RequeueCurrent()
      requires Valid() && Model().procs[current].status != Create
      requires Model().procs[current].status.Runnable() ==> Unqueued(contents, current)
      modifies pcb, queues, this`contents
      ensures Valid() && Model() == Requeue(old(Model()))
    {
      assert Model().procs[current] == Proc(pcb[current].status, pcb[current].priority, pcb[current].awake);
      if pcb[current].status != Blocked && pcb[current].status != Exited {
        Push(pcb[current].priority, current);
      }
    }

    method RunChecks(now: nat, net: bool)
      requires Valid()
      modifies pcb, queues, upper, this`contents
      ensures Valid() && Model() == Checks(old(Model()), now, net)
    {
      CheckSleepers(now);
      CheckReceivers(net);
    }

    /** The next process of queue idx, taken out and marked running */
    method TakeNext(idx: nat) returns (top: int)
      requires Valid() && idx < MAX_PRIORITY_NUM
      modifies pcb, queues, this`contents
      ensures Valid()
      ensures
        var c := DropExited(old(Model()).procs, old(contents)[idx]);
        && (c == [] ==> top == NULL && Model() == WithQueue(old(Model()), idx, []))
        && (c != [] ==> top == c[0] && Model() == TakeTop(old(Model()), idx, c))
    {
      top := DequeueLive(idx);
      if top != NULL { SetStatus(top, Running); }
    }

    /** Lines 179-207 of sched.c */
    method Switch(idx: nat, now: nat, net: bool)
      requires Valid() && Schedulable(Model()) && idx < MAX_PRIORITY_NUM
      modifies pcb, queues, upper, this`contents, this`current
      ensures Valid() && Model() == Dispatch(old(Model()), idx, now, net)
    {
      ghost var s := Model();
      var top := TakeNext(idx);
      if top == NULL { return; }
      CurrentUnqueued(s, idx);
      RequeueAndCheck(now, net);
      current := top;
    }

    method RequeueAndCheck(now: nat, net: bool)
      requires Valid() && Model().procs[current].status != Create
      requires Model().procs[current].status.Runnable() ==> Unqueued(contents, current)
      modifies pcb, queues, upper, this`contents
      ensures Valid() && Model() == Checks(Requeue(old(Model())), now, net)
    {
      RequeueCurrent();
      RunChecks(now, net);
    }

    /** do_scheduler, entered by a timer tick or by a process that just blocked or exited */
    method DoScheduler(now: nat, net: bool)
      requires Valid() && Schedulable(Model())
      modifies pcb, queues, upper, counter, this
      ensures Valid() && Model() == Schedule(old(Model()), now, net) && Inv(Model())
    {
      ghost var s := Model();
      AfterSchedule(s, now, net);
      var idx := SelectQueue();
      TypedWithoutChange(s, Model());
      Switch(idx, now, net);
    }

    // -------------------------------------------------------------- entry points

    /** do_block; the running process may already stand in the queue it blocks on */
    method DoBlock(q: nat, now: nat, net: bool)
      requires Valid() && MAX_PRIORITY_NUM <= q < queues.Length
      requires forall r :: 0 <= r < |contents| && r != q ==> current !in contents[r]
      requires Schedulable(BlockCurrent(Model(), q))
      modifies pcb, queues, upper, counter, this
      ensures Valid() && Model() == Block(old(Model()), q, now, net) && Inv(Model())
    {
      PushIfNotExist(q, current);
      SetStatus(current, Blocked);
      assert Model().procs[current].priority == pcb[current].priority;
      DecreaseBound(pcb[current].priority);
      DoScheduler(now, net);
    }

    /** A process that stands in no queue blocks. */
    method BlockSelf(q: nat, now: nat, net: bool)
      requires Valid() && Inv(Model()) && current != 0 && MAX_PRIORITY_NUM <= q < queues.Length
      modifies pcb, queues, upper, counter, this
      ensures Valid() && Model() == Block(old(Model()), q, now, net) && Inv(Model())
    {
      HeldIsUnqueued(Model(), multiset{current}, current);
      AfterBlockCurrent(Model(), q);
      DoBlock(q, now, net);
    }

    /** The body of the loop in do_mutex_lock_acquire: the queue is pushed to, and then again
        inside do_block. */
    method PushAndBlock(q: nat, now: nat, net: bool)
      requires Valid() && Inv(Model()) && current != 0 && MAX_PRIORITY_NUM <= q < queues.Length
      modifies pcb, queues, upper, counter, this
      ensures Valid() && Model() == Block(old(Model()), q, now, net) && Inv(Model())
    {
      ghost var s := Model();
      HeldIsUnqueued(s, multiset{current}, current);
      AfterBlockCurrent(s, q);
      PushIfNotExist(q, current);
      assert BlockCurrent(Model(), q) == BlockCurrent(s, q);
      DoBlock(q, now, net);
    }

    /** do_sleep */
    method DoSleep(time: nat, now: nat, net: bool)
      requires Valid() && Inv(Model()) && current != 0
      modifies pcb, queues, upper, counter, this
      ensures Valid() && Model() == Sleep(old(Model()), time, now, net) && Inv(Model())
    {
      ghost var s := Model();
      AfterHeldUpdate(s, multiset{current}, current, s.procs[current].(awake := (time + now) % WORD));
      SetAwake(current, (time + now) % WORD);
      BlockSelf(SLEEP_QUEUE, now, net);
    }

    /** get_proc_by_pid: is there a live process with this number? */
    method IsLive(pid: int) returns (live: bool)
      requires Valid()
      ensures live <==> 0 <= pid < NUM_MAX_TASK && Model().procs[pid].status.Live()
    {
      if pid < 0 || pid >= NUM_MAX_TASK { return false; }
      var status := pcb[pid].status;
      return status == Running || status == Blocked || status == Ready;
    }

    /** do_waitpid */
    method DoWaitPid(pid: int, now: nat, net: bool)
      requires Valid() && Inv(Model()) && current != 0
      modifies pcb, queues, upper, counter, this
      ensures Valid() && Model() == WaitPid(old(Model()), pid, now, net) && Inv(Model())
    {
      if pid <= 0 || pid > NUM_MAX_TASK { return; }
      var live := IsLive(pid);
      if live { BlockSelf(FIRST_WAIT_QUEUE + pid, now, net); }
    }

    /** The search loop of create_proc_with_priority */
    method FindSlot() returns (i: nat)
      requires Valid()
      ensures i == FreeSlot(Model().procs, 0)
    {
      i := 0;
      while i < NUM_MAX_TASK && !(pcb[i].status == Create || pcb[i].status == Exited)
        invariant i <= NUM_MAX_TASK
        invariant FreeSlot(Model().procs, i) == FreeSlot(Model().procs, 0)
      {
        i := i + 1;
      }
    }

    /** create_proc_with_priority and do_spawn_with_priority */
    method DoSpawn(priority: nat)
      requires Valid() && Inv(Model()) && priority < MAX_PRIORITY_NUM
      modifies pcb, queues, upper, this`contents
      ensures Valid() && Model() == Spawn(old(Model()), priority) && Inv(Model())
    {
      AfterSpawn(Model(), priority);
      var i := FindSlot();
      IncreaseBound(priority);
      if i < NUM_MAX_TASK {
        SlotUnqueued(Model(), i);
        StartProc(i, priority);
      }
    }

    /** A free slot becomes a ready process of the given priority */
    method StartProc(p: Pid, priority: nat)
      requires Valid() && Unqueued(contents, p) && priority < MAX_PRIORITY_NUM
      modifies pcb, queues, this`contents
      ensures Valid()
      ensures
        var t := WithProc(old(Model()), p, Proc(Ready, priority, old(Model()).procs[p].awake));
        Model() == WithQueue(t, priority, t.queues[priority] + [p])
    {
      SetStatus(p, Ready);
      SetPriority(p, priority);
      Push(priority, p);
    }

    /** do_exit: `held` are the waiting queues of the locks the process holds */
    method DoExit(held: seq<nat>, now: nat, net: bool)
      requires Valid() && Inv(Model()) && Enabled(Model(), Event.DoExit(held, now, net))
      modifies pcb, queues, upper, counter, this
      ensures Valid() && Inv(Model())
      ensures Model() == Schedule(ExitCurrent(old(Model()), held), now, net)
    {
      AfterExit(Model(), held);
      AfterSchedule(ExitCurrent(Model(), held), now, net);
      LeaveAll(held);
      DoScheduler(now, net);
    }

    /** Everything do_exit does before it calls the scheduler */
    method LeaveAll(held: seq<nat>)
      requires Valid() && AreQueues(Model(), held)
      modifies pcb, queues, upper, this`contents
      ensures Valid() && Model() == ExitCurrent(old(Model()), held)
    {
      MarkExited();
      ReleaseHeld(held);
      WakeWaiters();
    }

    /** The fields do_exit sets before it releases locks */
    method MarkExited()
      requires Valid()
      modifies pcb
      ensures Valid() && Model() == WithProc(old(Model()), current, Proc(Exited, 1, WORD - 1))
    {
      ghost var s := Model();
      SetAwake(current, WORD - 1);
      SetStatus(current, Exited);
      SetPriority(current, 1);
      assert Model() == WithProc(s, current, Proc(Exited, 1, WORD - 1));
    }

    /** The end of do_exit before the scheduler */
    method WakeWaiters()
      requires Valid()
      modifies pcb, queues, upper, this`contents
      ensures Valid()
      ensures
        var u := UnblockAll(old(Model()), FIRST_WAIT_QUEUE + current);
        Model() == u.(upper := Decrease(u.upper, 1))
    {
      DrainWaiters(FIRST_WAIT_QUEUE + current);
      DecreaseBound(1);
    }

    /** The release loop of do_exit */
    method ReleaseHeld(held: seq<nat>)
      requires Valid() && AreQueues(Model(), held)
      modifies pcb, queues, upper, this`contents
      ensures Valid() && Model() == ReleaseAll(old(Model()), held)
    {
      for i := 0 to |held|
        invariant Valid() && |contents| == |old(contents)|
        invariant AreQueues(Model(), held[i..])
        invariant ReleaseAll(Model(), held[i..]) == ReleaseAll(old(Model()), held)
      {
        DoUnblockOne(held[i]);
        assert held[i..][1..] == held[i + 1..];
      }
    }

    /** The loop of do_exit over the processes waiting for it */
    method DrainWaiters(q: nat)
      requires Valid() && MAX_PRIORITY_NUM <= q < queues.Length
      modifies pcb, queues, upper, this`contents
      ensures Valid() && Model() == UnblockAll(old(Model()), q)
    {
      ghost var goal := UnblockAll(Model(), q);
      var p := Dequeue(q);
      ghost var s := Model();
      assert p != NULL ==> [p as Pid] + contents[q] == old(contents)[q];
      assert p != NULL ==> WithQueue(s, q, [p as Pid] + contents[q]) == old(Model());
      while p != NULL
        invariant Valid() && s == Model() && q < |s.queues|
        invariant p == NULL ==> s == goal
        invariant p != NULL ==> 0 <= p < NUM_MAX_TASK && Unqueued(s.queues, p)
        invariant p != NULL ==> UnblockAll(WithQueue(s, q, [p as Pid] + s.queues[q]), q) == goal
        decreases |s.queues[q]|, p != NULL
      {
        DrainStep(s, q, p, s.queues[q]);
        WakeOther(s, p, q);
        p := DrainOne(q, p);
        s := Model();
      }
    }

    /** One round of that loop: wake p unless it exited, then take the next one. */
    method DrainOne(q: nat, p: Pid) returns (r: int)
      requires Valid() && MAX_PRIORITY_NUM <= q < queues.Length && Unqueued(contents, p)
      modifies pcb, queues, upper, this`contents
      ensures Valid()
      ensures
        var t := if old(Model()).procs[p].status == Exited then old(Model()) else Wake(old(Model()), p);
        && (t.queues[q] == [] ==> r == NULL && Model() == t)
        && (t.queues[q] != [] ==> 0 <= r < NUM_MAX_TASK && Unqueued(contents, r) && r == t.queues[q][0]
                                  && Model() == WithQueue(t, q, t.queues[q][1..]))
    {
      if pcb[p].status != Exited {
        SetStatus(p, Running);
        InvokeBlocked(p);
      }
      r := Dequeue(q);
    }
  }
}
