/** The frame stack and the two-level page tables of kernel/mm/memory.c on values, with the
    address arithmetic of kernel/mm/memory.c:23-61, include/os/mm.h:12-13 and
    kernel/sched/sched.c:107-137. */
module Frames {
  import opened Sealing
  import opened Wrappers

  const FrameNum: nat := 2048
  const PageSize: nat := 4096
  const FirstFrame: nat := 0xa08f0000
  const TableSize: nat := 512
  const FirstSize: nat := 1024

  // ---------------------------------------------------------------- addresses

  function Addr(j: nat): nat { FirstFrame + j * PageSize }

  predicate IsFrame(a: nat) { FirstFrame <= a < FirstFrame + FrameNum * PageSize && a % PageSize == FirstFrame % PageSize }

  function Index(a: nat): (j: nat)
    requires IsFrame(a)
    ensures j < FrameNum && Addr(j) == a
  {
    (a - FirstFrame) / PageSize
  }

  /** get_paddr and get_pfn. */
  function Pfn(a: nat): nat { (a % 0x100_0000) / PageSize }

  /** COMPRESS_ENTRYLO with coherency 2, dirty 1, valid 1, global 0. */
  function Entry(a: nat): nat { Pfn(a) * 64 + 2 * 8 + 4 + 2 }

  /** The unmapped address copy_from_user and copy_to_user form from an entry, offset 0. */
  function Translated(entry: nat): nat { 0xa000_0000 + (entry / 64) * 64 * 64 }

  /** The frame number an entry stands for. */
  function EntryIndex(entry: nat): nat { (entry / 64 + 4096 - 0x8f0) % 4096 }

  lemma EntryOfFrame(j: nat)
    requires j < FrameNum
    ensures IsFrame(Addr(j)) && Index(Addr(j)) == j && EntryIndex(Entry(Addr(j))) == j && Entry(Addr(j)) > 0
    ensures Entry(Addr(j)) / 64 == Pfn(Addr(j)) == (0x8f0 + j) % 4096
  {
    assert Addr(j) == 0xa000_0000 + (0x8f0 + j) * 4096;
  }

  /** An entry as the hardware reads it: not global, valid, writable, cached in mode 2, and the low
      twelve bits of the number of frame j. */
  predicate MapsFrame(entry: nat, j: nat) {
    && entry % 2 == 0 && entry / 2 % 2 == 1 && entry / 4 % 2 == 1 && entry / 8 % 8 == 2
    && entry / 64 == (FirstFrame / PageSize + j) % 4096
  }

  /** The entry made for a frame is the one that maps it, and no other number is. */
  lemma EntryMaps(j: nat, entry: nat)
    requires j < FrameNum
    ensures MapsFrame(entry, j) <==> entry == Entry(Addr(j))
  {
    EntryOfFrame(j);
    assert FirstFrame / PageSize == 0xa08f0 && (0xa08f0 + j) % 4096 == (0x8f0 + j) % 4096;
    EntryFields(entry, entry / 64, (0x8f0 + j) % 4096);
  }

  lemma EntryFields(entry: nat, high: nat, x: nat)
    requires high == entry / 64
    ensures entry % 2 == 0 && entry / 2 % 2 == 1 && entry / 4 % 2 == 1 && entry / 8 % 8 == 2 && high == x <==> entry == x * 64 + 2 * 8 + 4 + 2
  {
    var l := entry - 64 * high;
    LowFields(l);
    Parted(high, l);
    SameParity(32 * high, l);
    SameParity(16 * high, l / 2);
    SameParity(8 * high, l / 4);
    SameRest(high, l / 8);
  }

  /** Dividing an entry by 2, 4 or 8 divides its low six bits. */
  lemma Parted(high: nat, l: int)
    requires 0 <= l < 64
    ensures var e := 64 * high + l; e / 2 == 2 * (16 * high) + l / 2 && e / 4 == 2 * (8 * high) + l / 4 && e / 8 == 8 * high + l / 8
  {
    Halved(high, l);
    Quartered(high, l);
    Eighth(high, l);
  }

  lemma Halved(high: nat, l: int)
    requires 0 <= l < 64
    ensures (64 * high + l) / 2 == 2 * (16 * high) + l / 2
  {
  }

  lemma Quartered(high: nat, l: int)
    requires 0 <= l < 64
    ensures (64 * high + l) / 4 == 2 * (8 * high) + l / 4
  {
  }

  lemma Eighth(high: nat, l: int)
    requires 0 <= l < 64
    ensures (64 * high + l) / 8 == 8 * high + l / 8
  {
  }

  lemma SameParity(x: nat, y: int)
    ensures (2 * x + y) % 2 == y % 2
  {
  }

  lemma SameRest(x: nat, y: int)
    ensures (8 * x + y) % 8 == y % 8
  {
  }

  lemma LowFields(l: int)
    requires 0 <= l < 64
    ensures l % 2 == 0 && l / 2 % 2 == 1 && l / 4 % 2 == 1 && l / 8 % 8 == 2 <==> l == 22
  {
  }

  /** Different frames have different frame numbers, hence different entries. */
  lemma PfnIsInjective(i: nat, j: nat)
    requires i < FrameNum && j < FrameNum && Pfn(Addr(i)) == Pfn(Addr(j))
    ensures i == j
  {
    EntryOfFrame(i);
    EntryOfFrame(j);
  }

  /** The translation of an entry is the frame it was made from if and only if the frame lies
      below 0xa1000000: the page table keeps 24 address bits only. */
  lemma TranslationInverts(j: nat)
    requires j < FrameNum
    ensures Translated(Entry(Addr(j))) == Addr(j) <==> Addr(j) < 0xa100_0000
  {
    EntryOfFrame(j);
  }

  // ---------------------------------------------------------------- state

  datatype Pte = Pte(vpn: nat, entry: nat)

  /** The frame stack, the first-level tables of the processes, and the contents of all frames
      read as second-level tables. */
  datatype Mem = Mem(frames: seq<nat>, top: nat, first: seq<seq<nat>>, ram: seq<seq<Pte>>)

  /** The one thing a frame is used for. */
  datatype Role = Free(at: nat) | Table(pid: nat, index: nat) | Data(pid: nat, vpn: nat) | Loose

  const NoPte: Pte := Pte(0, 0)

  predicate Shape(m: Mem, role: seq<Role>) {
    && |m.frames| == |m.ram| == |role| == FrameNum && m.top < FrameNum
    && (forall p :: 0 <= p < |m.first| ==> |m.first[p]| == FirstSize)
    && (forall j :: 0 <= j < FrameNum ==> |m.ram[j]| == TableSize)
  }

  predicate Stacked(m: Mem, role: seq<Role>)
    requires Shape(m, role)
  {
    && (forall k :: m.top <= k < FrameNum ==> IsFrame(m.frames[k]) && role[Index(m.frames[k])] == Free(k))
    && (forall j :: 0 <= j < FrameNum && role[j].Free? ==> m.top <= role[j].at < FrameNum && m.frames[role[j].at] == Addr(j))
  }

  predicate Tabled(m: Mem, role: seq<Role>)
    requires Shape(m, role)
  {
    && (forall p, i :: 0 <= p < |m.first| && 0 <= i < FirstSize && m.first[p][i] != 0 ==>
          IsFrame(m.first[p][i]) && role[Index(m.first[p][i])] == Table(p, i))
    && (forall j :: 0 <= j < FrameNum && role[j].Table? ==>
          role[j].pid < |m.first| && role[j].index < FirstSize && m.first[role[j].pid][role[j].index] == Addr(j))
  }

  /** An entry is empty or maps its own page to a frame used for that page. */
  predicate Sane(role: seq<Role>, p: nat, vpn: nat, e: Pte)
    requires |role| == FrameNum
  {
    e == NoPte || (var j := EntryIndex(e.entry); j < FrameNum && e == Pte(vpn, Entry(Addr(j))) && role[j] == Data(p, vpn))
  }

  /** querry_PTE: nothing where there is no second-level table. */
  function Query(m: Mem, p: nat, vpn: nat): Option<Pte>
    requires p < |m.first| && vpn / TableSize < |m.first[p]|
  {
    var a := m.first[p][vpn / TableSize];
    if a == 0 || !IsFrame(a) || Index(a) >= |m.ram| || vpn % TableSize >= |m.ram[Index(a)]| then None
    else Some(m.ram[Index(a)][vpn % TableSize])
  }

  const VpnMax: nat := FirstSize * TableSize

  predicate Mapped(m: Mem, role: seq<Role>)
    requires Shape(m, role)
  {
    && (forall p, vpn :: 0 <= p < |m.first| && 0 <= vpn < VpnMax && Query(m, p, vpn).Some? ==> Sane(role, p, vpn, Query(m, p, vpn).value))
    && (forall j :: 0 <= j < FrameNum && role[j].Data? ==>
          role[j].pid < |m.first| && role[j].vpn < VpnMax
          && Query(m, role[j].pid, role[j].vpn) == Some(Pte(role[j].vpn, Entry(Addr(j)))))
  }

  ghost predicate Inv(m: Mem, role: seq<Role>) {
    Shape(m, role) && forall s: Seal {:trigger Open(s)} :: Open(s) ==> Stacked(m, role) && Tabled(m, role) && Mapped(m, role)
  }

  // ---------------------------------------------------------------- steps

  function Zeroed(): seq<Pte> { seq(TableSize, i => NoPte) }

  /** kalloc takes the frame on top of the stack and clears it. */
  function Taken(m: Mem): Mem
    requires m.top < |m.frames| && IsFrame(m.frames[m.top]) && |m.ram| == FrameNum
  {
    m.(top := m.top + 1, ram := m.ram[Index(m.frames[m.top]) := Zeroed()])
  }

  lemma TakenKeeps(m: Mem, role: seq<Role>)
    requires Inv(m, role) && m.top < FrameNum - 1
    ensures IsFrame(m.frames[m.top])
    ensures
      var j := Index(m.frames[m.top]);
      var (m', role') := (Taken(m), role[j := Loose]);
      role[j].Free? && Inv(m', role') && forall p, vpn :: 0 <= p < |m.first| && 0 <= vpn < VpnMax ==> Query(m', p, vpn) == Query(m, p, vpn)
  {
    assert Open(Seal);
    var j := Index(m.frames[m.top]);
    var m', role' := Taken(m), role[j := Loose];
    assert role[j] == Free(m.top);
    TakenStacked(m, role);
    forall p, i | 0 <= p < |m.first| && 0 <= i < FirstSize && m.first[p][i] != 0 ensures Index(m.first[p][i]) != j {}
    forall p, vpn | 0 <= p < |m.first| && 0 <= vpn < VpnMax ensures Query(m', p, vpn) == Query(m, p, vpn) {
      if m.first[p][vpn / TableSize] != 0 { assert Index(m.first[p][vpn / TableSize]) != j; }
    }
  }

  lemma TakenStacked(m: Mem, role: seq<Role>)
    requires Shape(m, role) && Stacked(m, role) && m.top < FrameNum - 1
    ensures Shape(Taken(m), role[Index(m.frames[m.top]) := Loose]) && Stacked(Taken(m), role[Index(m.frames[m.top]) := Loose])
  {
    var j := Index(m.frames[m.top]);
    forall k | m.top < k < FrameNum ensures Index(m.frames[k]) != j { assert role[Index(m.frames[k])] == Free(k); }
  }

  /** A frame becomes a second-level table. */
  function WithTable(m: Mem, p: nat, i: nat, a: nat): Mem
    requires p < |m.first| && i < |m.first[p]|
  {
    var row: seq<nat> := m.first[p][i := a];
    m.(first := m.first[p := row])
  }

  lemma WithTableKeeps(m: Mem, role: seq<Role>, p: nat, i: nat, j: nat)
    requires Inv(m, role) && p < |m.first| && i < FirstSize && m.first[p][i] == 0 && j < FrameNum && role[j] == Loose && m.ram[j] == Zeroed()
    ensures Inv(WithTable(m, p, i, Addr(j)), role[j := Table(p, i)])
    ensures forall q, vpn :: 0 <= q < |m.first| && 0 <= vpn < VpnMax ==>
      Query(WithTable(m, p, i, Addr(j)), q, vpn) == if q == p && vpn / TableSize == i then Some(NoPte) else Query(m, q, vpn)
  {
    assert Open(Seal);
    EntryOfFrame(j);
    var m', role' := WithTable(m, p, i, Addr(j)), role[j := Table(p, i)];
    forall q, vpn | 0 <= q < |m.first| && 0 <= vpn < VpnMax
      ensures Query(m', q, vpn) == if q == p && vpn / TableSize == i then Some(NoPte) else Query(m, q, vpn)
    {
      assert m'.first[q][vpn / TableSize] == if q == p && vpn / TableSize == i then Addr(j) else m.first[q][vpn / TableSize];
    }
    WithTableTabled(m, role, p, i, j);
  }

  lemma WithTableTabled(m: Mem, role: seq<Role>, p: nat, i: nat, j: nat)
    requires Shape(m, role) && Tabled(m, role) && p < |m.first| && i < FirstSize && m.first[p][i] == 0 && j < FrameNum && role[j] == Loose
    ensures Shape(WithTable(m, p, i, Addr(j)), role[j := Table(p, i)]) && Tabled(WithTable(m, p, i, Addr(j)), role[j := Table(p, i)])
  {
    EntryOfFrame(j);
    var m', role' := WithTable(m, p, i, Addr(j)), role[j := Table(p, i)];
    forall q, n | 0 <= q < |m'.first| && 0 <= n < FirstSize && m'.first[q][n] != 0
      ensures IsFrame(m'.first[q][n]) && role'[Index(m'.first[q][n])] == Table(q, n)
    {
      if q != p || n != i { assert m'.first[q][n] == m.first[q][n]; }
    }
  }

  /** The role of the frame a page was mapped to before, which nothing refers to any more. */
  function Dropped(role: seq<Role>, e: Pte): seq<Role> {
    if e != NoPte && EntryIndex(e.entry) < |role| then role[EntryIndex(e.entry) := Loose] else role
  }

  function WithPte(m: Mem, p: nat, vpn: nat, a: nat): Mem
    requires p < |m.first| && vpn / TableSize < |m.first[p]| && Query(m, p, vpn).Some?
  {
    var t := Index(m.first[p][vpn / TableSize]);
    m.(ram := m.ram[t := m.ram[t][vpn % TableSize := Pte(vpn, Entry(a))]])
  }

  lemma TableThere(m: Mem, role: seq<Role>, p: nat, vpn: nat)
    requires Inv(m, role) && p < |m.first| && vpn < VpnMax && m.first[p][vpn / TableSize] != 0
    ensures IsFrame(m.first[p][vpn / TableSize]) && Query(m, p, vpn).Some?
  {
    assert Open(Seal);
  }

  lemma WithPteQueries(m: Mem, role: seq<Role>, p: nat, vpn: nat, a: nat, q: nat, u: nat)
    requires Inv(m, role) && p < |m.first| && vpn < VpnMax && Query(m, p, vpn).Some? && q < |m.first| && u < VpnMax
    ensures Query(WithPte(m, p, vpn, a), q, u) == if q == p && u == vpn then Some(Pte(vpn, Entry(a))) else Query(m, q, u)
  {
    assert Open(Seal);
    var x, y := m.first[p][vpn / TableSize], m.first[q][u / TableSize];
    if y != 0 && (q != p || u / TableSize != vpn / TableSize) {
      assert role[Index(x)] == Table(p, vpn / TableSize) && role[Index(y)] == Table(q, u / TableSize);
      assert Index(x) != Index(y);
    }
  }

  lemma WithPteKeeps(m: Mem, role: seq<Role>, p: nat, vpn: nat, j: nat)
    requires Inv(m, role) && p < |m.first| && vpn < VpnMax && Query(m, p, vpn).Some? && j < FrameNum && role[j] == Loose
    ensures Inv(WithPte(m, p, vpn, Addr(j)), Dropped(role, Query(m, p, vpn).value)[j := Data(p, vpn)])
  {
    assert Open(Seal);
    EntryOfFrame(j);
    var e := Query(m, p, vpn).value;
    var m', role' := WithPte(m, p, vpn, Addr(j)), Dropped(role, e)[j := Data(p, vpn)];
    assert Sane(role, p, vpn, e);
    assert forall i :: 0 <= i < FrameNum && i != j ==> role'[i] == role[i] || (role[i] == Data(p, vpn) && role'[i] == Loose);
    WithPteMapped(m, role, p, vpn, j);
  }

  lemma WithPteMapped(m: Mem, role: seq<Role>, p: nat, vpn: nat, j: nat)
    requires Inv(m, role) && p < |m.first| && vpn < VpnMax && Query(m, p, vpn).Some? && j < FrameNum && role[j] == Loose
    ensures Shape(WithPte(m, p, vpn, Addr(j)), Dropped(role, Query(m, p, vpn).value)[j := Data(p, vpn)])
    ensures Mapped(WithPte(m, p, vpn, Addr(j)), Dropped(role, Query(m, p, vpn).value)[j := Data(p, vpn)])
  {
    assert Open(Seal);
    EntryOfFrame(j);
    var e := Query(m, p, vpn).value;
    var m', role' := WithPte(m, p, vpn, Addr(j)), Dropped(role, e)[j := Data(p, vpn)];
    assert Sane(role, p, vpn, e);
    forall q, u | 0 <= q < |m.first| && 0 <= u < VpnMax && Query(m', q, u).Some? ensures Sane(role', q, u, Query(m', q, u).value) {
      WithPteQueries(m, role, p, vpn, Addr(j), q, u);
      if q != p || u != vpn { assert Sane(role, q, u, Query(m, q, u).value); }
    }
    forall i | 0 <= i < FrameNum && role'[i].Data?
      ensures role'[i].pid < |m.first| && role'[i].vpn < VpnMax && Query(m', role'[i].pid, role'[i].vpn) == Some(Pte(role'[i].vpn, Entry(Addr(i))))
    {
      if i != j {
        assert role[i] == role'[i];
        WithPteQueries(m, role, p, vpn, Addr(j), role[i].pid, role[i].vpn);
        EntryOfFrame(i);
      }
    }
  }

  /** kfree puts a frame back on the stack. */
  function GivenBack(m: Mem, a: nat): Mem
    requires 0 < m.top <= |m.frames|
  {
    m.(top := m.top - 1, frames := m.frames[m.top - 1 := a])
  }

  lemma GivenBackKeeps(m: Mem, role: seq<Role>, j: nat)
    requires Inv(m, role) && m.top > 0 && j < FrameNum && role[j] == Loose
    ensures Inv(GivenBack(m, Addr(j)), role[j := Free(m.top - 1)])
    ensures forall p, vpn :: 0 <= p < |m.first| && 0 <= vpn < VpnMax ==> Query(GivenBack(m, Addr(j)), p, vpn) == Query(m, p, vpn)
  {
    assert Open(Seal);
    EntryOfFrame(j);
    var m', role' := GivenBack(m, Addr(j)), role[j := Free(m.top - 1)];
    forall p, vpn | 0 <= p < |m.first| && 0 <= vpn < VpnMax ensures Query(m', p, vpn) == Query(m, p, vpn) {}
    forall k | m'.top <= k < FrameNum ensures IsFrame(m'.frames[k]) && role'[Index(m'.frames[k])] == Free(k) {
      if k >= m.top { assert role[Index(m.frames[k])] == Free(k); }
    }
  }

  // ---------------------------------------------------------------- what the roles mean

  predicate IsFree(m: Mem, j: nat) { exists k :: m.top <= k < |m.frames| && m.frames[k] == Addr(j) }

  predicate IsTable(m: Mem, j: nat) { exists p, i :: 0 <= p < |m.first| && 0 <= i < |m.first[p]| && m.first[p][i] == Addr(j) }

  predicate MapsTo(m: Mem, p: nat, vpn: nat, j: nat)
    requires p < |m.first| && vpn / TableSize < |m.first[p]|
  {
    Query(m, p, vpn) == Some(Pte(vpn, Entry(Addr(j))))
  }

  /** A frame is free, a second-level table, or behind one page of one process: never two of these. */
  lemma Isolation(m: Mem, role: seq<Role>, p: nat, vpn: nat, j: nat)
    requires Inv(m, role) && p < |m.first| && vpn < VpnMax && j < FrameNum && MapsTo(m, p, vpn, j)
    ensures !IsFree(m, j) && !IsTable(m, j)
    ensures forall q, u :: 0 <= q < |m.first| && 0 <= u < VpnMax && MapsTo(m, q, u, j) ==> q == p && u == vpn
  {
    assert Open(Seal);
    EntryOfFrame(j);
    forall q, u | 0 <= q < |m.first| && 0 <= u < VpnMax && MapsTo(m, q, u, j) ensures role[j] == Data(q, u) {
      assert Sane(role, q, u, Query(m, q, u).value);
    }
    assert role[j] == Data(p, vpn);
  }

  /** Every entry the walk finds is empty or maps a frame that is in the role of this page. */
  lemma EntriesMapFrames(m: Mem, role: seq<Role>, p: nat, vpn: nat)
    requires Inv(m, role) && p < |m.first| && vpn < VpnMax && Query(m, p, vpn).Some?
    ensures
      var e := Query(m, p, vpn).value;
      e == NoPte || (e.vpn == vpn && exists j :: 0 <= j < FrameNum && MapsFrame(e.entry, j) && role[j] == Data(p, vpn))
  {
    assert Open(Seal);
    var e := Query(m, p, vpn).value;
    assert Sane(role, p, vpn, e);
    if e != NoPte {
      var j := EntryIndex(e.entry);
      EntryMaps(j, e.entry);
    }
  }

  lemma TablesAreNotFree(m: Mem, role: seq<Role>, j: nat)
    requires Inv(m, role) && j < FrameNum && IsTable(m, j)
    ensures !IsFree(m, j)
    ensures forall p, i, q, n | 0 <= p < |m.first| && 0 <= i < FirstSize && 0 <= q < |m.first| && 0 <= n < FirstSize ::
      (m.first[p][i] == Addr(j) && m.first[q][n] == Addr(j)) ==> (p == q && i == n)
  {
    assert Open(Seal);
    EntryOfFrame(j);
    var p, i :| 0 <= p < |m.first| && 0 <= i < |m.first[p]| && m.first[p][i] == Addr(j);
    assert role[j] == Table(p, i);
  }

  /** The initial stack: every frame is free. */
  predicate AllFree(m: Mem) {
    && |m.frames| == |m.ram| == FrameNum && m.top == 0
    && (forall p :: 0 <= p < |m.first| ==> |m.first[p]| == FirstSize)
    && (forall p, i :: 0 <= p < |m.first| && 0 <= i < FirstSize ==> m.first[p][i] == 0)
    && (forall j :: 0 <= j < FrameNum ==> |m.ram[j]| == TableSize && m.frames[j] == Addr(j))
  }

  function FreeRoles(): seq<Role> { seq(FrameNum, i requires 0 <= i < FrameNum => Free(i)) }

  lemma AllFreeIsSound(m: Mem)
    requires AllFree(m)
    ensures Inv(m, FreeRoles())
  {
    assert Open(Seal);
    forall j | 0 <= j < FrameNum ensures IsFrame(m.frames[j]) && Index(m.frames[j]) == j { EntryOfFrame(j); }
    forall p, vpn | 0 <= p < |m.first| && 0 <= vpn < VpnMax ensures Query(m, p, vpn).None? {}
  }

  // ---------------------------------------------------------------- adding a pair of pages

  /** Enough frames for two pages, and for a table where there is none. */
  predicate Room(m: Mem, p: nat, vpn2: nat)
    requires p < |m.first| && |m.first[p]| == FirstSize && vpn2 < VpnMax / 2
  {
    m.top + 2 + (if m.first[p][2 * vpn2 / TableSize] == 0 then 1 else 0) < FrameNum
  }

  /** The page map after one page was added. */
  ghost predicate PageAdded(m: Mem, m': Mem, p: nat, vpn: nat, a: nat)
    requires p < |m.first| && vpn < VpnMax
  {
    && |m'.first| == |m.first| && IsFrame(a) && IsFree(m, Index(a))
    && (forall q :: 0 <= q < |m.first| ==> |m.first[q]| == |m'.first[q]| == FirstSize)
    && forall q, u :: 0 <= q < |m.first| && 0 <= u < VpnMax ==>
      Query(m', q, u) ==
        if q == p && u == vpn then Some(Pte(vpn, Entry(a)))
        else if q == p && u / TableSize == vpn / TableSize && Query(m, q, u).None? then Some(NoPte)
        else Query(m, q, u)
  }

  /** Page vpn of process p is mapped to frame j. */
  ghost predicate PageMaps(m: Mem, p: nat, vpn: nat, j: nat)
    requires p < |m.first| && vpn / TableSize < |m.first[p]|
  {
    Query(m, p, vpn).Some? && Query(m, p, vpn).value.vpn == vpn && MapsFrame(Query(m, p, vpn).value.entry, j)
  }

  lemma TwoPages(m: Mem, m1: Mem, m2: Mem, p: nat, vpn2: nat, a: nat, b: nat)
    requires p < |m.first| && vpn2 < VpnMax / 2
    requires PageAdded(m, m1, p, 2 * vpn2, a) && PageAdded(m1, m2, p, 2 * vpn2 + 1, b) && IsFree(m, Index(b)) && a != b
    ensures Added(m, m2, p, vpn2, Index(a), Index(b))
  {
    assert 2 * vpn2 / TableSize == (2 * vpn2 + 1) / TableSize;
    assert Query(m1, p, 2 * vpn2).Some?;
  }

  /** The page map after add_2_page: two pages are mapped to two frames that were free, the pages
      that share a new table with them have empty entries, all others are as before. */
  ghost predicate Added(m: Mem, m': Mem, p: nat, vpn2: nat, i: nat, j: nat)
    requires p < |m.first| && vpn2 < VpnMax / 2
  {
    && i < FrameNum && j < FrameNum && i != j && IsFree(m, i) && IsFree(m, j) && |m'.first| == |m.first|
    && (forall q :: 0 <= q < |m.first| ==> |m.first[q]| == |m'.first[q]| == FirstSize)
    && forall q, u :: 0 <= q < |m.first| && 0 <= u < VpnMax ==>
      Query(m', q, u) ==
        if q == p && u == 2 * vpn2 then Some(Pte(u, Entry(Addr(i))))
        else if q == p && u == 2 * vpn2 + 1 then Some(Pte(u, Entry(Addr(j))))
        else if q == p && u / TableSize == 2 * vpn2 / TableSize && Query(m, q, u).None? then Some(NoPte)
        else Query(m, q, u)
  }
}
