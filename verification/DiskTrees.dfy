/** The directories of the file system tables as the entry lists that paths are read in, and what
    mkfs, touch, mkdir, link, rename and rm do to the tree they form. */
module DiskTrees {
  import opened Sealing
  import opened Inodes
  import opened Entries
  import opened Reachability
  import opened Operations
  import R = Remount
  import P = Paths
  import T = Trees

  /** The entries of a directory that still has its name; nothing for anything else. */
  function EntriesOf(v: Fs, d: nat): seq<Dentry>
    requires d < |v.nodes|
  {
    if Active(v, d) && HasBlock(v, d) && v.nodes[d].entries >= 2 then v.disk[BlockOf(v, d)][..v.nodes[d].entries] else []
  }

  function DirsOf(v: Fs): (dirs: P.Dirs)
    ensures |dirs| == |v.nodes| && forall d :: 0 <= d < |v.nodes| ==> dirs[d] == EntriesOf(v, d)
  {
    seq(|v.nodes|, d requires 0 <= d < |v.nodes| => EntriesOf(v, d))
  }

  // ---------------------------------------------------------------- what settled tables give

  /** A directory has a block of its own, marked in the map. */
  lemma DirBlock(v: Fs, b: Book, d: nat)
    requires Settled(v, b) && d < InodeMax && Active(v, d)
    ensures HasBlock(v, d) && v.nodes[d].entries >= 2 && BlockOf(v, d) < BlockMax && v.blockMap[BlockOf(v, d)]
    ensures EntriesOf(v, d) == v.disk[BlockOf(v, d)][..v.nodes[d].entries] && v.inodeMap[d]
    ensures |EntriesOf(v, d)| == |OnDisk(v, d)| + 2
    ensures forall k :: 0 <= k < |OnDisk(v, d)| ==> EntriesOf(v, d)[k + 2].ino == OnDisk(v, d)[k]
  {
    assert Open(Seal);
    assert Lists(v, d, b.names[d]);
  }

  lemma BlocksApart(v: Fs, b: Book, d: nat, j: nat)
    requires Settled(v, b) && d < InodeMax && j < InodeMax && Active(v, d) && Active(v, j) && d != j
    ensures BlockOf(v, d) != BlockOf(v, j)
  {
    assert Open(Seal);
    OwnBlock(v, b, d, j);
  }

  lemma Sized(v: Fs, b: Book)
    requires Settled(v, b)
    ensures |v.nodes| == |v.inodeMap| == InodeMax && |v.blockMap| == |v.disk| == BlockMax && Active(v, 0)
    ensures forall i :: 0 <= i < InodeMax && !v.inodeMap[i] ==> !Active(v, i) && i > 0 && v.nodes[i].entries == 0
    ensures forall i :: 0 <= i < InodeMax ==> |v.nodes[i].direct| == Slots
    ensures forall i :: 0 <= i < InodeMax && v.inodeMap[i] && IsDir(v, i) ==> Active(v, i)
  {
    assert Open(Seal);
  }

  lemma DirsAre(v: Fs, b: Book, d: nat)
    requires Settled(v, b) && d < InodeMax
    ensures |v.nodes| == InodeMax && (P.IsDirectory(DirsOf(v), d) <==> Active(v, d))
  {
    Sized(v, b);
    if Active(v, d) { DirBlock(v, b, d); }
  }

  /** No entry names a free inode: not behind the dot entries by the books, not there by the tree. */
  lemma FreeIsUnused(v: Fs, b: Book, rank: seq<nat>, i: nat)
    requires Settled(v, b) && P.Tree(DirsOf(v), rank) && i < InodeMax && i < |v.inodeMap| && !v.inodeMap[i]
    ensures T.Unused(DirsOf(v), i)
  {
    Sized(v, b);
    forall p, k | 0 <= p < InodeMax && 0 <= k < |DirsOf(v)[p]| ensures DirsOf(v)[p][k].ino != i {
      DotsNameDirectories(v, rank, p);
      DirsAre(v, b, p);
      if k >= 2 {
        EntryIsLive(v, b, p, k);
      } else {
        DirsAre(v, b, DirsOf(v)[p][k].ino);
      }
    }
  }

  lemma DotsNameDirectories(v: Fs, rank: seq<nat>, p: nat)
    requires P.Tree(DirsOf(v), rank) && p < |v.nodes| == InodeMax && EntriesOf(v, p) != []
    ensures P.IsDirectory(DirsOf(v), p) && EntriesOf(v, p)[0].ino == p
    ensures P.IsDirectory(DirsOf(v), EntriesOf(v, p)[1].ino)
  {
    assert Open(Seal);
    var dirs := DirsOf(v);
    assert dirs[p] != [] && P.IsDirectory(dirs, p) && P.WellNamed(dirs[p], p);
    if p > 0 { assert P.IsDirectory(dirs, P.Parent(dirs, p)); }
  }

  lemma EntryIsLive(v: Fs, b: Book, p: nat, k: nat)
    requires Settled(v, b) && p < InodeMax && Active(v, p) && 2 <= k < |EntriesOf(v, p)|
    ensures 0 < EntriesOf(v, p)[k].ino < InodeMax && v.inodeMap[EntriesOf(v, p)[k].ino]
  {
    DirBlock(v, b, p);
    NamesAreOnDisk(v, b);
    assert AllOnDisk(v)[p] == OnDisk(v, p) == b.names[p];
    assert EntriesOf(v, p)[k].ino == b.names[p][k - 2];
    NamedIsLive(v, b, p, EntriesOf(v, p)[k].ino);
  }

  // ---------------------------------------------------------------- touch, mkdir and link

  /** Directory d gets one more entry; inode i changes its node, and nothing else does. */
  predicate Enters(v: Fs, w: Fs, v': Fs, d: nat, i: nat, e: Dentry) {
    && |w.nodes| == |v.nodes| && HasRoom(w, d) && v' == Appended(w, d, e) && e.ino == i
    && (forall j :: 0 <= j < |v.nodes| && j != i ==> w.nodes[j] == v.nodes[j])
  }

  lemma SameEntries(v: Fs, b: Book, w: Fs, v': Fs, d: nat, i: nat, e: Dentry, p: nat)
    requires Settled(v, b) && d < InodeMax && p < InodeMax && Active(v, d) && d != i && p != i && Enters(v, w, v', d, i, e)
    requires forall j :: 0 <= j < InodeMax && Active(v, j) ==>
      BlockOf(v, j) < |w.disk| && BlockOf(v, j) < |v.disk| && w.disk[BlockOf(v, j)] == v.disk[BlockOf(v, j)]
    ensures EntriesOf(v', p) == if p == d then EntriesOf(v, d) + [e] else EntriesOf(v, p)
  {
    Sized(v, b);
    DirBlock(v, b, d);
    if Active(v, p) {
      DirBlock(v, b, p);
      if p != d { BlocksApart(v, b, d, p); }
    }
  }

  lemma TouchExtends(v: Fs, b: Book, v': Fs, d: nat, i: nat, name: string)
    requires Settled(v, b) && d < InodeMax && Active(v, d) && IsTouch(v, v', d, i, name)
    ensures |v.nodes| == |v'.nodes| == InodeMax && T.Extends(DirsOf(v), DirsOf(v'), d, i, name)
  {
    Sized(v, b);
    DirsAre(v, b, d);
    forall j | 0 <= j < InodeMax && Active(v, j) ensures BlockOf(v, j) < |v.disk| { DirBlock(v, b, j); }
    var e := Dentry(File, i, name);
    forall p | 0 <= p < InodeMax && p != i ensures EntriesOf(v', p) == if p == d then EntriesOf(v, d) + [e] else EntriesOf(v, p) {
      SameEntries(v, b, NewFile(v, i), v', d, i, e, p);
    }
    assert DirsOf(v')[d] == DirsOf(v)[d] + [Dentry(File, i, name)];
  }

  lemma LinkExtends(v: Fs, b: Book, v': Fs, d: nat, i: nat, name: string)
    requires Settled(v, b) && d < InodeMax && Active(v, d) && IsLink(v, v', d, i, name) && i < InodeMax && v.nodes[i].kind == File && i > 0
    ensures |v.nodes| == |v'.nodes| == InodeMax && T.Extends(DirsOf(v), DirsOf(v'), d, i, name)
  {
    Sized(v, b);
    DirsAre(v, b, d);
    forall j | 0 <= j < InodeMax && Active(v, j) ensures BlockOf(v, j) < |v.disk| { DirBlock(v, b, j); }
    var e := Dentry(v.nodes[i].kind, i, name);
    forall p | 0 <= p < InodeMax && p != i ensures EntriesOf(v', p) == if p == d then EntriesOf(v, d) + [e] else EntriesOf(v, p) {
      SameEntries(v, b, Linked(v, i), v', d, i, e, p);
    }
    assert DirsOf(v')[d] == DirsOf(v)[d] + [Dentry(v.nodes[i].kind, i, name)];
  }

  lemma MkdirExtends(v: Fs, b: Book, rank: seq<nat>, v': Fs, d: nat, i: nat, k: nat, junk: seq<Dentry>, name: string)
    requires Settled(v, b) && P.Tree(DirsOf(v), rank) && d < InodeMax && Active(v, d) && IsMkdir(v, v', d, i, k, junk, name)
    ensures |v.nodes| == |v'.nodes| == InodeMax && T.Extends(DirsOf(v), DirsOf(v'), d, i, name)
  {
    Sized(v, b);
    DirsAre(v, b, d);
    FreeIsUnused(v, b, rank, i);
    var w := NewDir(v, i, k, DotBlock(junk, i, d));
    forall j | 0 <= j < InodeMax && Active(v, j) ensures BlockOf(v, j) < |v.disk| && BlockOf(v, j) != k { DirBlock(v, b, j); }
    var e := Dentry(Dir, i, name);
    forall p | 0 <= p < InodeMax && p != i ensures EntriesOf(v', p) == if p == d then EntriesOf(v, d) + [e] else EntriesOf(v, p) {
      SameEntries(v, b, w, v', d, i, e, p);
    }
    assert DirsOf(v')[d] == DirsOf(v)[d] + [Dentry(Dir, i, name)];
    NewEntries(v, v', d, i, k, junk, name);
  }

  lemma NewEntries(v: Fs, v': Fs, d: nat, i: nat, k: nat, junk: seq<Dentry>, name: string)
    requires IsMkdir(v, v', d, i, k, junk, name) && d != i && d < |v.nodes| && |v.nodes[d].direct| == Slots && BlockOf(v, d) != k && k < BlockMax
    ensures EntriesOf(v', i) == T.DotEntries(i, d)
  {
    BlockNumbers(k);
    assert BlockOf(v', i) == k;
    assert v'.disk[k] == DotBlock(junk, i, d);
  }

  // ---------------------------------------------------------------- rename and rm

  lemma RenameRenames(v: Fs, b: Book, v': Fs, d: nat, n: nat, name: string)
    requires Settled(v, b) && d < InodeMax && Active(v, d) && HasBlock(v, d) && 2 <= n < v.nodes[d].entries && v' == Renamed(v, d, n, name)
    ensures |v.nodes| == |v'.nodes| == InodeMax && T.Renames(DirsOf(v), DirsOf(v'), d, n, name)
  {
    Sized(v, b);
    DirsAre(v, b, d);
    DirBlock(v, b, d);
    forall p | 0 <= p < InodeMax ensures EntriesOf(v', p) == if p == d then T.NamedAs(EntriesOf(v, d), n, name) else EntriesOf(v, p) {
      if Active(v, p) && p != d {
        DirBlock(v, b, p);
        BlocksApart(v, b, d, p);
      }
    }
    assert DirsOf(v') == DirsOf(v)[d := T.NamedAs(EntriesOf(v, d), n, name)];
  }

  lemma RmEntries(v: Fs, b: Book, v': Fs, b': Book, d: nat, k: nat, p: nat)
    requires Settled(v, b) && Settled(v', b') && d < InodeMax && Active(v, d) && Active(v', d) && IsRm(v, v', d, k) && p < InodeMax
    ensures EntriesOf(v', p) == if p == d then EntriesOf(v', d) else if Active(v', p) then EntriesOf(v, p) else []
    ensures k + 2 < |EntriesOf(v, d)| && EntriesOf(v', d) == T.Dropped(EntriesOf(v, d), k + 2)
    ensures Active(v', p) ==> Active(v, p)
  {
    Sized(v, b);
    DirBlock(v, b, d);
    DirBlock(v', b', d);
    assert v'.nodes[d].direct == v.nodes[d].direct && v'.nodes[d].entries == v.nodes[d].entries - 1;
    if Active(v', p) {
      DirBlock(v', b', p);
      assert v'.nodes[p].direct == v.nodes[p].direct && v.inodeMap[p] && v'.nodes[p].kind == v.nodes[p].kind;
      DirBlock(v, b, p);
      if p != d { BlocksApart(v, b, d, p); }
    }
  }

  /** A directory that is left is still named by one that is left. */
  lemma RmLeavesNamed(v: Fs, b: Book, v': Fs, b': Book, d: nat, k: nat, x: nat)
    requires Settled(v, b) && Settled(v', b') && d < InodeMax && IsRm(v, v', d, k) && 0 < x < InodeMax && Active(v', x)
    ensures T.IsNamed(DirsOf(v'), x)
  {
    Sized(v', b');
    DirBlock(v', b', x);
    AllocatedIsReachable(v', b', x);
    var n: nat :| Reached(AllOnDisk(v'), x, n);
    var q: nat :| q < |AllOnDisk(v')| && x in AllOnDisk(v')[q] && Reached(AllOnDisk(v'), q, n - 1);
    var j :| 0 <= j < |OnDisk(v', q)| && OnDisk(v', q)[j] == x;
    DirBlock(v', b', q);
    assert P.Names(DirsOf(v'), q, x, j + 2);
  }

  lemma RmPrunes(v: Fs, b: Book, v': Fs, b': Book, d: nat, k: nat)
    requires Settled(v, b) && Settled(v', b') && d < InodeMax && Active(v, d) && Active(v', d) && IsRm(v, v', d, k)
    ensures |v.nodes| == |v'.nodes| == InodeMax && T.Prunes(DirsOf(v), DirsOf(v'), d, k + 2)
  {
    Sized(v, b);
    Sized(v', b');
    DirsAre(v, b, d);
    DirsAre(v', b', 0);
    forall p | 0 <= p < InodeMax
      ensures if p == d then DirsOf(v')[p] == T.Dropped(DirsOf(v)[d], k + 2) else DirsOf(v')[p] == DirsOf(v)[p] || DirsOf(v')[p] == []
    {
      RmEntries(v, b, v', b', d, k, p);
    }
    forall x | 0 < x < InodeMax && P.IsDirectory(DirsOf(v'), x) ensures T.IsNamed(DirsOf(v'), x) {
      DirsAre(v', b', x);
      RmLeavesNamed(v, b, v', b', d, k, x);
    }
  }

  // ---------------------------------------------------------------- the operations

  /** What the methods of class FileSystem do in the working directory d. */
  datatype Op =
    | Touch(d: nat, i: nat, name: string)
    | Mkdir(d: nat, i: nat, k: nat, junk: seq<Dentry>, name: string)
    | Link(d: nat, i: nat, name: string)
    | Rename(d: nat, n: nat, name: string)
    | Rm(d: nat, k: nat)

  ghost predicate Does(v: Fs, op: Op, v': Fs) {
    && op.d < InodeMax && op.d < |v.nodes| && op.d < |v'.nodes| && Active(v, op.d) && Active(v', op.d)
    && match op
       case Touch(d, i, name) => IsTouch(v, v', d, i, name)
       case Mkdir(d, i, k, junk, name) => IsMkdir(v, v', d, i, k, junk, name)
       case Link(d, i, name) => IsLink(v, v', d, i, name) && 0 < i < InodeMax && v.nodes[i].kind == File
       case Rename(d, n, name) => HasBlock(v, d) && 2 <= n < v.nodes[d].entries && v' == Renamed(v, d, n, name)
       case Rm(d, k) => IsRm(v, v', d, k)
  }

  /** The name is plain and not there yet, which no operation looks at; rm has no name to give. */
  predicate GivesNewName(v: Fs, op: Op) {
    op.d < |v.nodes| && match op
    case Touch(d, _, name) => T.NewName(EntriesOf(v, d), name)
    case Mkdir(d, _, _, _, name) => T.NewName(EntriesOf(v, d), name)
    case Link(d, _, name) => T.NewName(EntriesOf(v, d), name)
    case Rename(d, n, name) => T.NewNameAt(EntriesOf(v, d), n, name)
    case Rm(_, _) => true
  }

  /** The directories on the disk go on forming a tree if and only if the name given is plain and new. */
  lemma OpKeepsTree(v: Fs, b: Book, rank: seq<nat>, op: Op, v': Fs, b': Book)
    requires Settled(v, b) && Settled(v', b') && P.Tree(DirsOf(v), rank) && Does(v, op, v')
    ensures (exists r :: P.Tree(DirsOf(v'), r)) <==> GivesNewName(v, op)
  {
    match op {
      case Touch(d, i, name) =>
        TouchExtends(v, b, v', d, i, name);
        T.StaysTree(DirsOf(v), rank, DirsOf(v'), d, i, name);
      case Mkdir(d, i, k, junk, name) =>
        MkdirExtends(v, b, rank, v', d, i, k, junk, name);
        T.StaysTree(DirsOf(v), rank, DirsOf(v'), d, i, name);
      case Link(d, i, name) =>
        LinkExtends(v, b, v', d, i, name);
        T.StaysTree(DirsOf(v), rank, DirsOf(v'), d, i, name);
      case Rename(d, n, name) =>
        RenameRenames(v, b, v', d, n, name);
        T.StaysTreeRenamed(DirsOf(v), rank, DirsOf(v'), d, n, name);
      case Rm(d, k) =>
        RmPrunes(v, b, v', b', d, k);
        T.PrunedTree(DirsOf(v), rank, DirsOf(v'), d, k + 2);
    }
  }

  /** What the contracts of touch, mkdir and rename in class FileSystem say, in these terms. */
  function OpOf(op: R.Op): Op
    requires !op.Nothing?
  {
    match op
    case Touched(d, i, name) => Touch(d, i, name)
    case MadeDir(d, i, k, junk, name) => Mkdir(d, i, k, junk, name)
    case RenamedTo(d, n, name) => Rename(d, n, name)
  }

  /** Each method of class FileSystem that changes directories keeps the tree if and only if the name it
      is given is plain and new: its contract is one of these steps between two settled states. */
  lemma StepKeepsTree(x: R.Store, b: Book, rank: seq<nat>, op: R.Op, y: R.Store, b': Book)
    requires Settled(x.mem, b) && Settled(y.mem, b') && P.Tree(DirsOf(x.mem), rank) && R.Step(x, op, y)
    requires op.Nothing? || (op.d < InodeMax && Active(x.mem, op.d) && Active(y.mem, op.d))
    requires op.RenamedTo? ==> 2 <= op.n
    ensures (exists r :: P.Tree(DirsOf(y.mem), r)) <==> op.Nothing? || GivesNewName(x.mem, OpOf(op))
  {
    if !op.Nothing? { OpKeepsTree(x.mem, b, rank, OpOf(op), y.mem, b'); }
  }

  lemma LinkKeepsTree(x: R.Store, b: Book, rank: seq<nat>, d: nat, i: nat, name: string, y: R.Store, b': Book)
    requires Settled(x.mem, b) && Settled(y.mem, b') && P.Tree(DirsOf(x.mem), rank) && R.LinkStep(x, y, d, i, name)
    requires d < InodeMax && Active(x.mem, d) && Active(y.mem, d) && IsFile(x.mem, i)
    ensures (exists r :: P.Tree(DirsOf(y.mem), r)) <==> T.NewName(EntriesOf(x.mem, d), name)
  {
    OpKeepsTree(x.mem, b, rank, Link(d, i, name), y.mem, b');
  }

  lemma RmKeepsTree(x: R.Store, b: Book, rank: seq<nat>, d: nat, k: nat, y: R.Store, b': Book) returns (r: seq<nat>)
    requires Settled(x.mem, b) && Settled(y.mem, b') && P.Tree(DirsOf(x.mem), rank) && R.RmStep(x, y, d, k)
    requires d < InodeMax && Active(x.mem, d) && Active(y.mem, d)
    ensures P.Tree(DirsOf(y.mem), r)
  {
    OpKeepsTree(x.mem, b, rank, Rm(d, k), y.mem, b');
    r :| P.Tree(DirsOf(y.mem), r);
  }

  lemma RootIsTree(v: Fs)
    requires EmptyRoot(v)
    ensures P.Tree(DirsOf(v), seq(InodeMax, _ => 0))
  {
    BlockNumbers(0);
    assert EntriesOf(v, 0) == v.disk[0][..2];
    assert seq(|DirsOf(v)|, _ => 0) == seq(InodeMax, _ => 0);
    T.RootIsTree(DirsOf(v));
  }

  /** A run of operations from mkfs on; between two of them the tables are settled, as every method
      of class FileSystem leaves them. */
  ghost predicate IsRun(vs: seq<Fs>, bs: seq<Book>, ops: seq<Op>) {
    && |vs| == |bs| == |ops| + 1 && EmptyRoot(vs[0])
    && (forall i :: 0 <= i < |vs| ==> Settled(vs[i], bs[i]))
    && forall i :: 0 <= i < |ops| ==> Does(vs[i], ops[i], vs[i + 1])
  }

  /** Over every run of touch, mkdir, link, rename and rm whose names are plain and new the directories
      are a tree, which is what the theorems about paths start from. */
  lemma {:induction false} RunIsTree(vs: seq<Fs>, bs: seq<Book>, ops: seq<Op>, n: nat) returns (rank: seq<nat>)
    requires IsRun(vs, bs, ops) && n < |vs| && forall i :: 0 <= i < n ==> GivesNewName(vs[i], ops[i])
    ensures P.Tree(DirsOf(vs[n]), rank)
  {
    if n == 0 {
      RootIsTree(vs[0]);
      rank := seq(InodeMax, _ => 0);
    } else {
      var r := RunIsTree(vs, bs, ops, n - 1);
      assert Does(vs[n - 1], ops[n - 1], vs[n - 1 + 1]);
      OpKeepsTree(vs[n - 1], bs[n - 1], r, ops[n - 1], vs[n], bs[n]);
      rank :| P.Tree(DirsOf(vs[n]), rank);
    }
  }
}
