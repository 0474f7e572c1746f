/** mount_fs (kernel/fs/fs.c:534-552): what reading the tables back gives, in step and out of step. */
module Mounting {
  import opened Sealing
  import opened Inodes
  import opened Entries
  import opened Reachability
  import opened Operations
  import opened Remount

  /** The state after mounting a formatted disk. */
  function Mounted(s: Saved, disk: seq<seq<Dentry>>): Fs { Fs(s.inodeMap, s.blockMap, s.nodes, disk) }

  /** The free inodes on the disk are blank, as all were on a disk of zeros. */
  predicate FreeBlank(s: Saved) {
    |s.inodeMap| == |s.nodes| && forall i :: 0 <= i < |s.nodes| && !s.inodeMap[i] ==> Blank(s.nodes[i]) && |s.nodes[i].direct| == Slots
  }

  lemma BlankIsBlank(n: Inode, m: Inode)
    requires Blank(n) && Blank(m) && |n.direct| == |m.direct|
    ensures n == m
  {
    assert n.direct == m.direct;
  }

  lemma FreeIsBlank(v: Fs, b: Book)
    requires Settled(v, b)
    ensures FreeBlank(Saved(v.inodeMap, v.blockMap, v.nodes))
  {
    assert Open(Seal);
  }

  /** Mounting gives back exactly the state before if and only if the disk was in step and its free
      inodes are blank. */
  lemma MountIsIdentity(v: Fs, b: Book, s: Saved)
    requires Settled(v, b) && Sizes(v, s)
    ensures Mounted(s, v.disk) == v <==> Synced(v, s) && FreeBlank(s)
  {
    FreeIsBlank(v, b);
    if Synced(v, s) && FreeBlank(s) {
      forall i | 0 <= i < InodeMax ensures s.nodes[i] == v.nodes[i] {
        if !v.inodeMap[i] { BlankIsBlank(s.nodes[i], v.nodes[i]); }
      }
      assert s.nodes == v.nodes;
    }
  }

  /** The lists agree on a set of inodes that holds the root and all that its members name. */
  predicate AgreeOn(names: seq<seq<nat>>, found: seq<seq<nat>>, live: seq<bool>) {
    && |names| == |found| == |live| > 0 && live[0]
    && forall d :: 0 <= d < |names| && live[d] ==> found[d] == names[d] && forall k :: 0 <= k < |names[d]| ==> names[d][k] < |live| && live[names[d][k]]
  }

  lemma {:induction false} ReachesLive(names: seq<seq<nat>>, found: seq<seq<nat>>, live: seq<bool>, i: nat, n: nat)
    requires AgreeOn(names, found, live) && (Reached(found, i, n) || Reached(names, i, n))
    ensures i < |live| && live[i] && Reached(found, i, n) && Reached(names, i, n)
    decreases n
  {
    if n > 0 {
      var d: nat;
      if Reached(found, i, n) {
        d :| d < |found| && i in found[d] && Reached(found, d, n - 1);
      } else {
        d :| d < |names| && i in names[d] && Reached(names, d, n - 1);
      }
      ReachesLive(names, found, live, d, n - 1);
      var k :| 0 <= k < |names[d]| && names[d][k] == i;
      OneFurther(names, d, i, n - 1);
      OneFurther(found, d, i, n - 1);
    }
  }

  lemma SameReach(names: seq<seq<nat>>, found: seq<seq<nat>>, live: seq<bool>, i: nat)
    requires AgreeOn(names, found, live)
    ensures Reachable(found, i) <==> Reachable(names, i)
  {
    if Reachable(found, i) {
      var n: nat :| Reached(found, i, n);
      ReachesLive(names, found, live, i, n);
    }
    if Reachable(names, i) {
      var n: nat :| Reached(names, i, n);
      ReachesLive(names, found, live, i, n);
    }
  }

  lemma MountAgrees(v: Fs, b: Book, s: Saved)
    requires Settled(v, b) && Synced(v, s)
    ensures AgreeOn(AllOnDisk(v), AllOnDisk(Mounted(s, v.disk)), v.inodeMap)
  {
    var w := Mounted(s, v.disk);
    NamesAreOnDisk(v, b);
    RootIsLive(v, b);
    forall d | 0 <= d < InodeMax && v.inodeMap[d]
      ensures AllOnDisk(w)[d] == b.names[d] && forall k :: 0 <= k < |b.names[d]| ==> b.names[d][k] < InodeMax && v.inodeMap[b.names[d][k]]
    {
      assert OnDisk(w, d) == OnDisk(v, d) == AllOnDisk(v)[d];
      forall k | 0 <= k < |b.names[d]| ensures b.names[d][k] < InodeMax && v.inodeMap[b.names[d][k]] { NamedIsLive(v, b, d, b.names[d][k]); }
    }
  }

  lemma RootIsActive(v: Fs, b: Book)
    requires Settled(v, b)
    ensures Active(v, 0)
  {
    assert Open(Seal);
  }

  lemma RootIsLive(v: Fs, b: Book)
    requires Settled(v, b)
    ensures v.inodeMap[0]
  {
    assert Open(Seal);
  }

  /** Whatever the free inodes on the disk hold: a disk that was in step mounts to the same tree, in
      which exactly the allocated inodes can be reached, with their contents. */
  lemma MountKeepsTree(v: Fs, b: Book, s: Saved, i: nat)
    requires Settled(v, b) && Synced(v, s) && i < InodeMax
    ensures
      var w := Mounted(s, v.disk);
      && (Reachable(AllOnDisk(w), i) <==> Reachable(AllOnDisk(v), i)) && (w.inodeMap[i] <==> Reachable(AllOnDisk(w), i))
      && (w.inodeMap[i] ==> w.nodes[i] == v.nodes[i] && OnDisk(w, i) == OnDisk(v, i))
  {
    MountAgrees(v, b, s);
    SameReach(AllOnDisk(v), AllOnDisk(Mounted(s, v.disk)), v.inodeMap, i);
    AllocatedIsReachable(v, b, i);
  }

  // ---------------------------------------------------------------- out of step

  /** What a directory names depends on its inode and its block only. */
  lemma SameList(v: Fs, w: Fs, e: nat)
    requires e < |v.nodes| && e < |w.nodes| && w.nodes[e] == v.nodes[e] && |w.disk| == |v.disk|
    requires |v.nodes[e].direct| == Slots && NumberOf(v.nodes[e].direct[0]) < |v.disk|
    requires var k := NumberOf(v.nodes[e].direct[0]);
      |w.disk[k]| == |v.disk[k]| && forall n :: 0 <= n < |v.disk[k]| && n < v.nodes[e].entries ==> w.disk[k][n] == v.disk[k][n]
    ensures OnDisk(w, e) == OnDisk(v, e)
  {
  }

  lemma LinkLeavesLists(v: Fs, b: Book, y: Fs, d: nat, i: nat, name: string, e: nat)
    requires Settled(v, b) && IsLink(v, y, d, i, name) && d < InodeMax && Active(v, d) && e < InodeMax && Active(v, e)
    ensures |y.disk| == |v.disk| && |v.nodes[e].direct| == Slots && NumberOf(v.nodes[e].direct[0]) < |v.disk|
    ensures var k := NumberOf(v.nodes[e].direct[0]);
      |y.disk[k]| == |v.disk[k]| && forall n :: 0 <= n < |v.disk[k]| && n < v.nodes[e].entries ==> y.disk[k][n] == v.disk[k][n]
  {
    assert Open(Seal);
    assert Lists(v, e, b.names[e]);
    if e != d { OwnBlock(v, b, d, e); }
  }

  /** A hard link that leaves the disk out of step cannot be mounted to a consistent file system: the
      file has one link more on the disk than entries. */
  lemma LinkLostOnMount(x: Store, b: Book, y: Store, d: nat, i: nat, name: string, b': Book)
    requires Settled(x.mem, b) && Synced(x.mem, x.saved) && LinkStep(x, y, d, i, name)
    requires d < InodeMax && Active(x.mem, d) && IsFile(x.mem, i) && i != d && d / PerBlock != i / PerBlock
    ensures !Settled(Mounted(y.saved, y.mem.disk), b')
  {
    var v, w := x.mem, Mounted(y.saved, y.mem.disk);
    if Settled(w, b') {
      FreeIsBlank(w, b');
      FreeIsBlank(v, b);
      forall e | 0 <= e < InodeMax ensures OnDisk(w, e) == OnDisk(v, e) { MountedList(x, b, y, d, i, name, e); }
      assert AllOnDisk(w) == AllOnDisk(v);
      LinksAreEntries(w, b', i);
      LinksAreEntries(v, b, i);
      LinkCountDiffers(x, y, d, i, name);
    }
  }

  lemma LinkCountDiffers(x: Store, y: Store, d: nat, i: nat, name: string)
    requires LinkStep(x, y, d, i, name) && i < InodeMax && i != d && |x.saved.nodes| == InodeMax
    ensures y.saved.nodes[i].link == x.mem.nodes[i].link + 1
  {
    assert i in {i};
    assert Marked({i}, i);
  }

  lemma MountedList(x: Store, b: Book, y: Store, d: nat, i: nat, name: string, e: nat)
    requires Settled(x.mem, b) && Synced(x.mem, x.saved) && LinkStep(x, y, d, i, name) && e < InodeMax
    requires d < InodeMax && Active(x.mem, d) && IsFile(x.mem, i) && i != d && d / PerBlock != i / PerBlock
    requires !x.mem.inodeMap[e] ==> Blank(y.saved.nodes[e]) && Blank(x.mem.nodes[e])
    ensures OnDisk(Mounted(y.saved, y.mem.disk), e) == OnDisk(x.mem, e)
  {
    var v, w := x.mem, Mounted(y.saved, y.mem.disk);
    var u := v.(disk := y.mem.disk);
    if v.inodeMap[e] && e != i {
      assert y.saved.nodes[e] == v.nodes[e];
      if Active(v, e) {
        LinkLeavesLists(v, b, y.mem, d, i, name, e);
        SameList(v, w, e);
      }
    }
  }

  // ---------------------------------------------------------------- the superblock

  const FsStart: nat := 134217728
  const Magic: nat := 0x666

  datatype Superblock = Superblock(magic: nat, blockMapStart: nat, inodeMapStart: nat, inodeStart: nat, dataStart: nat)

  /** What do_mkfs writes. */
  const MkfsSuperblock: Superblock :=
    Superblock(Magic, FsStart + 512, FsStart + 512 + BlockMax / 8, FsStart + 512 + BlockMax / 8 + InodeMax / 8, DataStart)

  /** The bytes of the disk. */
  type Raw = nat -> nat

  function Slice(raw: Raw, at: nat, len: nat): (s: seq<nat>)
    ensures |s| == len && forall i :: 0 <= i < len ==> s[i] == raw(at + i)
  {
    seq(len, i => if i >= 0 then raw(at + i) else 0)
  }

  datatype Tables = Tables(blockMap: seq<nat>, inodeMap: seq<nat>, inodes: seq<nat>)

  /** The bitmaps and the inode table, read where a superblock has them. */
  function TablesAt(raw: Raw, sb: Superblock): Tables {
    Tables(Slice(raw, sb.blockMapStart, BlockMax / 8), Slice(raw, sb.inodeMapStart, InodeMax / 8), Slice(raw, sb.inodeStart, 128 * InodeMax))
  }

  /** get_data_block_offset with the superblock in memory, unsigned 32-bit arithmetic. */
  function BlockOffset(sb: Superblock, k: nat): nat { (sb.dataStart + k * BlockSize) % 0x1_0000_0000 }

  /** The superblocks in memory and on the disk after mount_fs: it is read before the disk may be
      formatted, and kept. */
  function AfterMount(onDisk: Superblock): (Superblock, Superblock) {
    (onDisk, if onDisk.magic != Magic then MkfsSuperblock else onDisk)
  }

  /** A superblock with the magic number was written by do_mkfs. */
  predicate Genuine(sb: Superblock) { sb.dataStart < 0x1_0000_0000 && (sb.magic == Magic ==> sb == MkfsSuperblock) }

  /** After mounting, blocks are looked for where the disk's own superblock has them if and only if the
      superblock that was found already said so. */
  lemma MountFindsBlocks(onDisk: Superblock)
    requires Genuine(onDisk)
    ensures
      var (memory, disk) := AfterMount(onDisk);
      (forall k: nat :: k < BlockMax ==> BlockOffset(memory, k) == BlockOffset(disk, k)) <==> onDisk.dataStart == DataStart
  {
    var (memory, disk) := AfterMount(onDisk);
    if onDisk.dataStart != DataStart {
      assert BlockOffset(memory, 0) != BlockOffset(disk, 0);
    }
  }

  predicate SameStarts(a: Superblock, b: Superblock) {
    a.blockMapStart == b.blockMapStart && a.inodeMapStart == b.inodeMapStart && a.inodeStart == b.inodeStart
  }

  /** The same for the tables: whatever the disk holds, those read are its own if and only if the
      superblock that was found already said where they start. */
  lemma MountReadsTables(onDisk: Superblock)
    requires Genuine(onDisk)
    ensures
      var (memory, disk) := AfterMount(onDisk);
      (forall raw: Raw :: TablesAt(raw, memory) == TablesAt(raw, disk)) <==> SameStarts(onDisk, MkfsSuperblock)
  {
    var (memory, disk) := AfterMount(onDisk);
    if SameStarts(onDisk, MkfsSuperblock) {
      forall raw: Raw ensures TablesAt(raw, memory) == TablesAt(raw, disk) { SameTables(raw, memory, disk); }
    } else {
      var raw := TellsApart(memory, disk);
    }
  }

  lemma SameTables(raw: Raw, a: Superblock, b: Superblock)
    requires SameStarts(a, b)
    ensures TablesAt(raw, a) == TablesAt(raw, b)
  {
  }

  /** The disk that numbers its bytes tells different starts apart. */
  lemma TellsApart(a: Superblock, b: Superblock) returns (raw: Raw)
    requires !SameStarts(a, b)
    ensures TablesAt(raw, a) != TablesAt(raw, b)
  {
    raw := (x: nat) => x;
    var s, t := TablesAt(raw, a), TablesAt(raw, b);
    assert s.blockMap[0] == a.blockMapStart && t.blockMap[0] == b.blockMapStart;
    assert s.inodeMap[0] == a.inodeMapStart && t.inodeMap[0] == b.inodeMapStart;
    assert s.inodes[0] == a.inodeStart && t.inodes[0] == b.inodeStart;
  }

  /** After mounting a disk of zeros, block 32768 is the superblock itself, and no block is where it
      belongs. */
  lemma FirstMountMisplaces(k: nat)
    requires k < BlockMax
    ensures var memory := AfterMount(Superblock(0, 0, 0, 0, 0)).0;
      BlockOffset(memory, 32768) == FsStart && BlockOffset(memory, k) != Offset(k)
  {
  }

  /** After mounting a disk of zeros, all three tables come from the start of the disk, before the file
      system: nothing that was formatted is read, and the inode map is part of what the block map is. */
  lemma FirstMountMisreads(raw: Raw, raw': Raw)
    requires forall x: nat :: x < FsStart ==> raw'(x) == raw(x)
    ensures
      var memory := AfterMount(Superblock(0, 0, 0, 0, 0)).0;
      var t := TablesAt(raw, memory);
      TablesAt(raw', memory) == t && t.inodeMap == t.blockMap[..InodeMax / 8] && t.blockMap == t.inodes[..BlockMax / 8]
  {
    var memory := AfterMount(Superblock(0, 0, 0, 0, 0)).0;
    SameSlice(raw, raw', BlockMax / 8);
    SameSlice(raw, raw', InodeMax / 8);
    SameSlice(raw, raw', 128 * InodeMax);
    var t := TablesAt(raw, memory);
    assert t.inodeMap == t.blockMap[..InodeMax / 8] && t.blockMap == t.inodes[..BlockMax / 8];
  }

  lemma SameSlice(raw: Raw, raw': Raw, len: nat)
    requires len <= FsStart && forall x: nat :: x < FsStart ==> raw'(x) == raw(x)
    ensures Slice(raw', 0, len) == Slice(raw, 0, len)
  {
    forall i | 0 <= i < len ensures Slice(raw', 0, len)[i] == Slice(raw, 0, len)[i] { assert raw'(0 + i) == raw(0 + i); }
  }
}
