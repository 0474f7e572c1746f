/** The memory manager of kernel/mm/memory.c as methods on the frame stack and the page tables. */
module PageTable {
  import opened Sealing
  import opened Frames
  import opened Wrappers

  class Memory {
    var frames: array<nat>
    var top: nat
    var first: seq<seq<nat>>
    var ram: seq<seq<Pte>>
    ghost var role: seq<Role>

    function State(): Mem
      reads this, frames
    {
      Mem(frames[..], top, first, ram)
    }

    ghost predicate Valid()
      reads this, frames
    {
      frames.Length == FrameNum && Inv(State(), role)
    }

    /** do_mem_init. */
    method MemInit()
      requires frames.Length == |ram| == FrameNum && forall j :: 0 <= j < FrameNum ==> |ram[j]| == TableSize
      requires forall p :: 0 <= p < |first| ==> |first[p]| == FirstSize && forall i :: 0 <= i < FirstSize ==> first[p][i] == 0
      modifies this`top, this`role, frames
      ensures Valid() && AllFree(State())
    {
      var start := FirstFrame;
      var i := 0;
      while i < FrameNum
        invariant i <= FrameNum && start == Addr(i) && forall j :: 0 <= j < i ==> frames[j] == Addr(j)
      {
        frames[i] := start;
        start := start + PageSize;
        i := i + 1;
      }
      top := 0;
      role := FreeRoles();
      AllFreeIsSound(State());
    }

    /** kalloc: the last frame of the stack is never given out. */
    method Kalloc() returns (a: Option<nat>)
      requires Valid()
      modifies this`top, this`ram, this`role
      ensures Valid() && first == old(first)
      ensures a.Some? <==> old(top) < FrameNum - 1
      ensures a.None? ==> State() == old(State()) && role == old(role)
      ensures a.Some? ==> IsFrame(a.value) && a.value == frames[old(top)] && top == old(top) + 1
      ensures a.Some? ==> var j := Index(a.value); old(role)[j].Free? && role == old(role)[j := Loose] && ram[j] == Zeroed()
      ensures forall p, vpn :: 0 <= p < |first| && 0 <= vpn < VpnMax ==> Query(State(), p, vpn) == Query(old(State()), p, vpn)
    {
      if top < FrameNum - 1 {
        ghost var m := State();
        TakenKeeps(m, role);
        a := Some(frames[top]);
        ghost var j := Index(frames[top]);
        Clear(frames[top]);
        role := role[j := Loose];
        top := top + 1;
        assert State() == Taken(m);
      } else {
        a := None;
      }
    }

    /** The loop that clears a frame, entry by entry. */
    method Clear(a: nat)
      requires IsFrame(a) && |ram| == FrameNum && |ram[Index(a)]| == TableSize
      modifies this`ram
      ensures ram == old(ram)[Index(a) := Zeroed()]
    {
      var j, t, i := Index(a), ram[Index(a)], 0;
      while i < TableSize
        invariant i <= TableSize == |t| && forall k :: 0 <= k < i ==> t[k] == NoPte
      {
        t := t[i := NoPte];
        i := i + 1;
      }
      assert t == Zeroed();
      ram := ram[j := t];
    }

    /** kfree of a frame that is in nobody's use. */
    method Kfree(a: nat)
      requires Valid() && IsFrame(a) && role[Index(a)] == Loose
      modifies this`top, this`role, frames
      ensures Valid() && first == old(first) && ram == old(ram)
      ensures if old(top) > 0 then top == old(top) - 1 && IsFree(State(), Index(a)) else State() == old(State())
      ensures forall p, vpn :: 0 <= p < |first| && 0 <= vpn < VpnMax ==> Query(State(), p, vpn) == Query(old(State()), p, vpn)
    {
      if top > 0 {
        ghost var m := State();
        GivenBackKeeps(m, role, Index(a));
        top := top - 1;
        frames[top] := a;
        role := role[Index(a) := Free(top)];
        assert State() == GivenBack(m, a);
        assert State().frames[top] == Addr(Index(a));
      }
    }

    /** querry_PTE: the two-level walk. */
    method QuerryPte(vpn: nat, pid: nat) returns (r: Option<Pte>)
      requires Valid() && pid < |first| && vpn < VpnMax
      ensures r == Query(State(), pid, vpn)
    {
      var second := first[pid][vpn / TableSize];
      if second == 0 { return None; }
      TableThere(State(), role, pid, vpn);
      r := Some(ram[Index(second)][vpn % TableSize]);
    }

    /** One half of add_2_page: a table where there is none, a frame, and the entry. */
    method AddPage(vpn: nat, pid: nat) returns (a: nat)
      requires Valid() && pid < |first| && vpn < VpnMax
      requires top + 1 + (if first[pid][vpn / TableSize] == 0 then 1 else 0) < FrameNum
      modifies this`top, this`first, this`ram, this`role
      ensures Valid() && pid < |first| && PageAdded(old(State()), State(), pid, vpn, a)
      ensures first[pid][vpn / TableSize] != 0 && top == old(top) + 1 + (if old(first)[pid][vpn / TableSize] == 0 then 1 else 0)
      ensures forall j :: 0 <= j < FrameNum && IsFree(State(), j) ==> IsFree(old(State()), j) && j != Index(a)
    {
      ghost var before, roles := State(), role;
      var fst := vpn / TableSize;
      if first[pid][fst] == 0 {
        var page := Kalloc();
        AddTable(pid, fst, page.value);
      }
      ghost var m1 := State();
      var frame := Kalloc();
      a := frame.value;
      ghost var m, r := State(), role;
      PutEntry(pid, vpn, a);
      forall q, u | 0 <= q < |first| && 0 <= u < VpnMax
        ensures Query(State(), q, u) == if q == pid && u == vpn then Some(Pte(vpn, Entry(a))) else Query(m, q, u)
      {
        WithPteQueries(m, r, pid, vpn, a, q, u);
      }
      FreeFrames(before, roles, Index(a));
      forall j | 0 <= j < FrameNum && IsFree(State(), j) ensures IsFree(before, j) && j != Index(a) {
        FreeRole(State(), role, j);
        FreeFrames(before, roles, j);
      }
    }

    method AddTable(pid: nat, fst: nat, page: nat)
      requires Valid() && pid < |first| && fst < FirstSize && first[pid][fst] == 0
      requires IsFrame(page) && role[Index(page)] == Loose && ram[Index(page)] == Zeroed()
      modifies this`first, this`role
      ensures Valid() && |first| == |old(first)| && first[pid][fst] != 0 && role == old(role)[Index(page) := Table(pid, fst)]
      ensures forall q, u :: 0 <= q < |first| && 0 <= u < VpnMax ==>
        Query(State(), q, u) == if q == pid && u / TableSize == fst then Some(NoPte) else Query(old(State()), q, u)
    {
      ghost var m := State();
      WithTableKeeps(m, role, pid, fst, Index(page));
      var row: seq<nat> := first[pid][fst := page];
      first := first[pid := row];
      role := role[Index(page) := Table(pid, fst)];
      assert State() == WithTable(m, pid, fst, page);
    }

    method PutEntry(pid: nat, vpn: nat, a: nat)
      requires Valid() && pid < |first| && vpn < VpnMax && first[pid][vpn / TableSize] != 0 && IsFrame(a) && role[Index(a)] == Loose
      modifies this`ram, this`role
      ensures Valid() && Query(old(State()), pid, vpn).Some? && State() == WithPte(old(State()), pid, vpn, a)
      ensures forall j :: 0 <= j < FrameNum && role[j].Free? ==> old(role)[j].Free?
    {
      ghost var m := State();
      TableThere(m, role, pid, vpn);
      WithPteKeeps(m, role, pid, vpn, Index(a));
      role := Dropped(role, Query(m, pid, vpn).value)[Index(a) := Data(pid, vpn)];
      var t := Index(first[pid][vpn / TableSize]);
      ram := ram[t := ram[t][vpn % TableSize := Pte(vpn, Entry(a))]];
    }

    /** add_2_page maps an even page and the odd one behind it. */
    method Add2Page(vpn2: nat, pid: nat) returns (i: nat, j: nat)
      requires Valid() && pid < |first| && vpn2 < VpnMax / 2 && Room(State(), pid, vpn2)
      modifies this`top, this`first, this`ram, this`role
      ensures Valid() && Added(old(State()), State(), pid, vpn2, i, j)
      ensures PageMaps(State(), pid, 2 * vpn2, i) && PageMaps(State(), pid, 2 * vpn2 + 1, j)
    {
      ghost var m := State();
      var vpn := 2 * vpn2;
      SameTable(vpn2);
      var even := AddPage(vpn, pid);
      ghost var m1 := State();
      var odd := AddPage(vpn + 1, pid);
      i, j := Index(even), Index(odd);
      assert IsFree(m1, j);
      assert IsFree(m, j) && j != i;
      TwoPages(m, m1, State(), pid, vpn2, even, odd);
      EntryMaps(i, Entry(Addr(i)));
      EntryMaps(j, Entry(Addr(j)));
    }
  }

  lemma SameTable(vpn2: nat)
    ensures (2 * vpn2 + 1) / TableSize == 2 * vpn2 / TableSize
  {
  }

  lemma FreeRole(m: Mem, role: seq<Role>, j: nat)
    requires Inv(m, role) && j < FrameNum && IsFree(m, j)
    ensures role[j].Free?
  {
    assert Open(Seal);
    EntryOfFrame(j);
    var k :| m.top <= k < |m.frames| && m.frames[k] == Addr(j);
  }

  lemma FreeFrames(m: Mem, role: seq<Role>, j: nat)
    requires Inv(m, role) && j < FrameNum && role[j].Free?
    ensures IsFree(m, j)
  {
    assert Open(Seal);
    assert m.frames[role[j].at] == Addr(j);
  }
}
