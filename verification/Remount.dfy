/** The write-back inode table of kernel/fs/fs.c (71-97, 534-552): which operations leave the disk
    equal to memory, so that mounting again gives back the same file system. */
module Remount {
  import opened Sealing
  import opened Inodes
  import opened Entries
  import opened Reachability
  import opened Operations

  /** Inodes to a block, and blocks of the table. */
  const PerBlock: nat := 32
  const DirtyMax: nat := 256

  const InodeStart: nat := DataStart - 128 * InodeMax

  /** Writing an inode block or a directory block stays in its own region of the disk, and blocks lie one
      behind the other. */
  lemma RegionsAreApart(i: nat, k: nat)
    requires i < DirtyMax
    ensures PerBlock == (BlockSize + 16) / 128 && DirtyMax == InodeMax / (BlockSize / 128) && DirtyMax * PerBlock == InodeMax
    ensures InodeStart == 134217728 + 512 + 32 * 1024 + 1024
    ensures InodeStart <= InodeStart + 128 * i * PerBlock && InodeStart + 128 * i * PerBlock + BlockSize <= DataStart <= Offset(k)
    ensures InodeStart + 128 * (i + 1) * PerBlock == InodeStart + 128 * i * PerBlock + BlockSize && Offset(k + 1) == Offset(k) + BlockSize
  {
  }

  /** What the disk holds of the tables.  Directory blocks are always written through. */
  datatype Saved = Saved(inodeMap: seq<bool>, blockMap: seq<bool>, nodes: seq<Inode>)

  predicate Sizes(v: Fs, s: Saved) {
    |v.inodeMap| == |v.nodes| == |s.nodes| == |s.inodeMap| == InodeMax && |v.blockMap| == |s.blockMap| == BlockMax
  }

  /** The bitmaps and every allocated inode are on the disk as they are in memory. */
  predicate Synced(v: Fs, s: Saved) {
    && Sizes(v, s) && s.inodeMap == v.inodeMap && s.blockMap == v.blockMap
    && forall i :: 0 <= i < InodeMax && v.inodeMap[i] ==> s.nodes[i] == v.nodes[i]
  }

  /** The marked inodes whose blocks are written. */
  predicate Marked(marks: set<nat>, i: nat) { exists j :: j in marks && j / PerBlock == i / PerBlock }

  /** update_inode after some inodes were marked. */
  ghost function Flushed(nodes: seq<Inode>, saved: seq<Inode>, marks: set<nat>): (r: seq<Inode>)
    requires |nodes| == |saved|
    ensures |r| == |nodes|
  {
    seq(|nodes|, i requires 0 <= i < |nodes| => if Marked(marks, i) then nodes[i] else saved[i])
  }

  /** update_bit_map and update_inode at the end of an operation. */
  ghost function Stored(v: Fs, s: Saved, marks: set<nat>): Saved
    requires Sizes(v, s)
  {
    Saved(v.inodeMap, v.blockMap, Flushed(v.nodes, s.nodes, marks))
  }

  /** What was in step stays so if and only if every allocated inode that differs from the disk is
      in a block with a marked one. */
  lemma StoredSyncs(v: Fs, s: Saved, marks: set<nat>)
    requires Sizes(v, s)
    ensures Synced(v, Stored(v, s, marks)) <==>
      (forall i: nat :: i < InodeMax && v.inodeMap[i] && v.nodes[i] != s.nodes[i] ==> Marked(marks, i))
  {
    var t := Stored(v, s, marks);
    if Synced(v, t) {
      forall i: nat | i < InodeMax && v.inodeMap[i] && v.nodes[i] != s.nodes[i] ensures Marked(marks, i) {
        assert t.nodes[i] == v.nodes[i];
      }
    }
  }

  // ---------------------------------------------------------------- operations

  /** The tables in memory with the directory blocks, and the tables on the disk. */
  datatype Store = Store(mem: Fs, saved: Saved)

  /** The end of touch and mkdir: both inodes they change are marked, bitmaps and marked blocks are
      written. */
  ghost predicate WroteBoth(x: Store, y: Store, d: nat, i: nat) {
    Sizes(y.mem, x.saved) && y.saved == Stored(y.mem, x.saved, {i, d})
  }

  /** The operations that keep the disk in step. */
  datatype Op =
    | Touched(d: nat, i: nat, name: string)
    | MadeDir(d: nat, i: nat, k: nat, junk: seq<Dentry>, name: string)
    | RenamedTo(d: nat, n: nat, name: string)
    | Nothing

  /** One operation, as the methods of class FileSystem carry it out. */
  ghost predicate Step(x: Store, op: Op, y: Store) {
    match op
    case Touched(d, i, name) => d < InodeMax && IsTouch(x.mem, y.mem, d, i, name) && WroteBoth(x, y, d, i)
    case MadeDir(d, i, k, junk, name) => d < InodeMax && IsMkdir(x.mem, y.mem, d, i, k, junk, name) && WroteBoth(x, y, d, i)
    case RenamedTo(d, n, name) =>
      HasBlock(x.mem, d) && n < x.mem.nodes[d].entries && y.mem == Renamed(x.mem, d, n, name) && y.saved == x.saved
    case Nothing => y == x
  }

  /** A hard link marks the file, and writes no bitmap, as none changed. */
  ghost predicate LinkStep(x: Store, y: Store, d: nat, i: nat, name: string) {
    && IsLink(x.mem, y.mem, d, i, name) && |y.mem.nodes| == |x.saved.nodes|
    && y.saved == x.saved.(nodes := Flushed(y.mem.nodes, x.saved.nodes, {i}))
  }

  /** The inodes that were allocated and no longer are. */
  function Gone(m: seq<bool>, m': seq<bool>): set<nat> {
    set i: nat | i < |m| && m[i] && (i >= |m'| || !m'[i])
  }

  /** Nothing is allocated anew. */
  predicate Shrunk(m: seq<bool>, m': seq<bool>) { |m'| == |m| && forall i :: 0 <= i < |m| && m'[i] ==> m[i] }

  lemma GoneTwice(m: seq<bool>, m1: seq<bool>, m2: seq<bool>)
    requires Shrunk(m, m1) && Shrunk(m1, m2)
    ensures Shrunk(m, m2) && Gone(m, m2) == Gone(m, m1) + Gone(m1, m2)
  {
  }

  /** rm marks what it frees. */
  ghost predicate RmStep(x: Store, y: Store, d: nat, k: nat) {
    && IsRm(x.mem, y.mem, d, k) && Sizes(y.mem, x.saved)
    && y.saved == Stored(y.mem, x.saved, Gone(x.mem.inodeMap, y.mem.inodeMap))
  }

  /** do_mkfs marks the root; whatever else was marked is written as well. */
  ghost predicate Formatted(y: Store) {
    EmptyRoot(y.mem) && exists s: Saved, marks: set<nat> :: Sizes(y.mem, s) && y.saved == Stored(y.mem, s, marks + {0})
  }

  lemma MkfsSyncs(y: Store)
    requires Formatted(y)
    ensures Synced(y.mem, y.saved)
  {
    var s: Saved, marks: set<nat> :| Sizes(y.mem, s) && y.saved == Stored(y.mem, s, marks + {0});
    StoredSyncs(y.mem, s, marks + {0});
    assert 0 in marks + {0};
  }

  /** An inode that agrees with the disk goes on agreeing through touch, mkdir and rename. */
  lemma StepAgrees(x: Store, op: Op, y: Store, j: nat)
    requires Step(x, op, y) && Sizes(x.mem, x.saved) && j < InodeMax
    ensures Sizes(y.mem, y.saved)
    ensures x.saved.nodes[j] == x.mem.nodes[j] ==> y.saved.nodes[j] == y.mem.nodes[j]
    ensures !op.RenamedTo? && !op.Nothing? ==> y.saved.inodeMap == y.mem.inodeMap && y.saved.blockMap == y.mem.blockMap
    ensures y.mem.inodeMap[j] && !x.mem.inodeMap[j] ==> y.saved.nodes[j] == y.mem.nodes[j]
  {
    if op.Touched? || op.MadeDir? {
      var marks := {op.i, op.d};
      assert op.i in marks && op.d in marks;
      if j == op.i || j == op.d { assert Marked(marks, j); }
    }
  }

  lemma StepSyncs(x: Store, op: Op, y: Store)
    requires Step(x, op, y) && Synced(x.mem, x.saved)
    ensures Synced(y.mem, y.saved)
  {
    StepAgrees(x, op, y, 0);
    forall j | 0 <= j < InodeMax && y.mem.inodeMap[j] ensures y.saved.nodes[j] == y.mem.nodes[j] { StepAgrees(x, op, y, j); }
  }

  ghost predicate IsRun(xs: seq<Store>, ops: seq<Op>) {
    |xs| == |ops| + 1 && forall i :: 0 <= i < |ops| ==> Step(xs[i], ops[i], xs[i + 1])
  }

  /** From mkfs on, the disk is in step in every state of every run of mkdir, touch and rename. */
  lemma {:induction false} RunStaysSynced(xs: seq<Store>, ops: seq<Op>, n: nat)
    requires IsRun(xs, ops) && Formatted(xs[0]) && n < |xs|
    ensures Synced(xs[n].mem, xs[n].saved)
  {
    if n == 0 {
      MkfsSyncs(xs[0]);
    } else {
      RunStaysSynced(xs, ops, n - 1);
      StepSyncs(xs[n - 1], ops[n - 1], xs[n]);
    }
  }

  /** A disk that agrees on every inode, the free ones included, goes on doing so. */
  lemma {:induction false} RunStaysEqual(xs: seq<Store>, ops: seq<Op>, n: nat)
    requires IsRun(xs, ops) && n < |xs| && xs[0].saved == Saved(xs[0].mem.inodeMap, xs[0].mem.blockMap, xs[0].mem.nodes)
    requires Sizes(xs[0].mem, xs[0].saved)
    ensures Sizes(xs[n].mem, xs[n].saved) && xs[n].saved == Saved(xs[n].mem.inodeMap, xs[n].mem.blockMap, xs[n].mem.nodes)
  {
    if n > 0 {
      RunStaysEqual(xs, ops, n - 1);
      var x, op, y := xs[n - 1], ops[n - 1], xs[n];
      StepAgrees(x, op, y, 0);
      forall j | 0 <= j < InodeMax ensures y.saved.nodes[j] == y.mem.nodes[j] { StepAgrees(x, op, y, j); }
    }
  }

  /** A hard link keeps the disk in step if and only if the directory, which is not marked, is in the
      same inode block as the file. */
  lemma LinkSyncs(x: Store, y: Store, d: nat, i: nat, name: string)
    requires Synced(x.mem, x.saved) && LinkStep(x, y, d, i, name) && d < InodeMax && i != d && x.mem.inodeMap[d]
    ensures Synced(y.mem, y.saved) <==> d / PerBlock == i / PerBlock
  {
    assert y.saved == Stored(y.mem, x.saved, {i});
    StoredSyncs(y.mem, x.saved, {i});
    assert i in {i};
    assert Marked({i}, i);
    assert y.mem.nodes[d] != x.saved.nodes[d];
    assert Marked({i}, d) <==> d / PerBlock == i / PerBlock;
  }

  // ---------------------------------------------------------------- the dirty flags

  /** A block of the table is flagged when it holds a marked inode. */
  ghost predicate FlagsOk(dirty: seq<bool>, marks: set<nat>) {
    |dirty| == DirtyMax && forall b :: 0 <= b < DirtyMax ==> (dirty[b] <==> Marked(marks, b * PerBlock))
  }

  /** What mark_inode_dirty does to the flags. */
  lemma Flagged(dirty: seq<bool>, marks: set<nat>, i: nat)
    requires FlagsOk(dirty, marks) && i < InodeMax
    ensures i / PerBlock < DirtyMax && FlagsOk(dirty[i / PerBlock := true], marks + {i})
  {
    InBlock(i, i / PerBlock);
    forall b | 0 <= b < DirtyMax ensures dirty[i / PerBlock := true][b] <==> Marked(marks + {i}, b * PerBlock) {
      OneMark(marks, i, b);
    }
  }

  lemma OneMark(marks: set<nat>, i: nat, c: nat)
    ensures Marked(marks + {i}, c * PerBlock) <==> (Marked(marks, c * PerBlock) || c == i / PerBlock)
  {
    var n := c * PerBlock;
    InBlock(n, c);
    if c == i / PerBlock { assert i in marks + {i}; }
    if Marked(marks, n) {
      var j :| j in marks && j / PerBlock == n / PerBlock;
      assert j in marks + {i};
    }
  }

  lemma InBlock(n: nat, b: nat)
    ensures n / PerBlock == b <==> b * PerBlock <= n < b * PerBlock + PerBlock
  {
    assert PerBlock == 32;
  }

  /** The dirty blocks before b have been written. */
  predicate UpTo(b: nat, marks: set<nat>, nodes: seq<Inode>, before: seq<Inode>, saved: seq<Inode>) {
    |nodes| == |before| == |saved| == InodeMax
    && forall n :: 0 <= n < InodeMax ==> saved[n] == if n / PerBlock < b && Marked(marks, n) then nodes[n] else before[n]
  }

  lemma AllWritten(marks: set<nat>, nodes: seq<Inode>, before: seq<Inode>, saved: seq<Inode>)
    requires UpTo(DirtyMax, marks, nodes, before, saved)
    ensures saved == Flushed(nodes, before, marks)
  {
    forall n | 0 <= n < InodeMax ensures n / PerBlock < DirtyMax { InBlock(n, n / PerBlock); }
  }

  lemma OneBlock(b: nat, marks: set<nat>, nodes: seq<Inode>, before: seq<Inode>, was: seq<Inode>, saved: seq<Inode>)
    requires UpTo(b, marks, nodes, before, was) && |saved| == InodeMax
    requires if Marked(marks, b * PerBlock) then forall n :: 0 <= n < InodeMax ==> saved[n] == (if n / PerBlock == b then nodes[n] else was[n])
      else saved == was
    ensures UpTo(b + 1, marks, nodes, before, saved)
  {
    SameBlockMarks(marks, b);
    forall n | 0 <= n < InodeMax ensures saved[n] == if n / PerBlock < b + 1 && Marked(marks, n) then nodes[n] else before[n] {
      assert was[n] == if n / PerBlock < b && Marked(marks, n) then nodes[n] else before[n];
    }
  }

  lemma SameBlockMarks(marks: set<nat>, b: nat)
    ensures forall n: nat :: n / PerBlock == b ==> (Marked(marks, n) <==> Marked(marks, b * PerBlock))
  {
    InBlock(b * PerBlock, b);
  }
}
