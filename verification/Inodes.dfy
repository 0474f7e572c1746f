/** The inode table, bitmaps and directory blocks of kernel/fs/fs.c, and the bookkeeping that
    explains every link count, inode bit and block bit. */
module Inodes {

  const InodeMax: nat := 8192
  const BlockMax: nat := 262144
  const BlockSize: nat := 4096
  const DirSlots: nat := 128          // a block of 4096 bytes holds 128 entries of 32 bytes
  const Slots: nat := 16
  const DataStart: nat := 134217728 + 512 + 32 * 1024 + 1024 + 128 * 8192

  datatype Kind = NoType | File | Dir

  datatype Dentry = Dentry(kind: Kind, ino: nat, name: string)

  datatype Inode = Inode(kind: Kind, link: int, entries: int, direct: seq<nat>)

  /** Memory and disk: disk[k] holds the entries of data block k. */
  datatype Fs = Fs(inodeMap: seq<bool>, blockMap: seq<bool>, nodes: seq<Inode>, disk: seq<seq<Dentry>>)

  // ---------------------------------------------------------------- block numbers

  function Offset(k: nat): nat { DataStart + k * BlockSize }

  /** get_data_block_number, unsigned 32-bit arithmetic. */
  function NumberOf(off: nat): nat { ((off - DataStart) % 0x1_0000_0000) / BlockSize }

  /** The number of a block comes back from its offset; an unused slot, which holds 0, has a
      number outside the bitmap. */
  lemma BlockNumbers(k: nat)
    requires k < BlockMax
    ensures NumberOf(Offset(k)) == k && Offset(k) != 0 && NumberOf(0) >= BlockMax
  {
    assert Offset(k) - DataStart == k * BlockSize < 0x1_0000_0000;
  }

  predicate AllSet(m: seq<bool>) { forall k :: 0 <= k < |m| ==> m[k] }

  function FirstZero(m: seq<bool>): (k: nat)
    requires !AllSet(m)
    ensures k < |m| && !m[k] && forall i :: 0 <= i < k ==> m[i]
  {
    if !m[0] then 0 else
      assert exists i :: 0 <= i < |m[1..]| && !m[1..][i] by {
        var i :| 0 <= i < |m| && !m[i];
        assert !m[1..][i - 1];
      }
      var k := FirstZero(m[1..]);
      assert forall i :: 0 <= i < k + 1 ==> m[i] by { forall i | 0 < i < k + 1 ensures m[i] { assert m[i] == m[1..][i - 1]; } }
      k + 1
  }

  /** find_first_zero_bit, on the bits of a map (see module Bitmaps for its bytes). */
  method FindFirstZeroBit(m: seq<bool>) returns (i: nat)
    requires !AllSet(m)
    ensures i == FirstZero(m)
  {
    i := 0;
    while m[i]
      invariant i <= FirstZero(m)
      decreases |m| - i
    {
      i := i + 1;
    }
  }

  function ClearBit(m: seq<bool>, k: nat): (m': seq<bool>)
    ensures |m'| == |m|
  {
    if k < |m| then m[k := false] else m
  }

  // ---------------------------------------------------------------- bookkeeping

  datatype Owner = Nobody | Slot(ino: nat, slot: nat)

  /** What explains the state: the inodes each directory names, the references dropped from a
      directory and not yet taken off the link count, the depth of every directory, and the
      inode and slot that own each block. */
  datatype Book = Book(names: seq<seq<nat>>, pend: multiset<nat>, rank: seq<nat>, owner: seq<Owner>)

  function Total(names: seq<seq<nat>>): multiset<nat> {
    if names == [] then multiset{} else Total(names[..|names| - 1]) + multiset(names[|names| - 1])
  }

  function Refs(b: Book): multiset<nat> { Total(b.names) + b.pend }

  predicate Shape(v: Fs, b: Book) {
    && |v.inodeMap| == |v.nodes| == |b.names| == |b.rank| == InodeMax
    && |v.blockMap| == |v.disk| == |b.owner| == BlockMax
    && (forall k :: 0 <= k < BlockMax ==> |v.disk[k]| == DirSlots)
    && (forall i :: 0 <= i < InodeMax ==> |v.nodes[i].direct| == Slots)
  }

  /** A link count is the number of references; the root has one of its own and no other. */
  ghost predicate Counted(v: Fs, b: Book) {
    && |v.nodes| == InodeMax
    && (forall i :: 0 <= i < InodeMax ==> v.nodes[i].link == Refs(b)[i] + (if i == 0 then 1 else 0))
    && (forall i :: i in Refs(b) ==> 0 < i < InodeMax)
  }

  predicate Blank(n: Inode) {
    n.kind == NoType && n.link == 0 && n.entries == 0 && forall s :: 0 <= s < |n.direct| ==> n.direct[s] == 0
  }

  /** Free inodes are blank; only the root has no type; a directory has at most one name. */
  predicate Typed(v: Fs)
    requires |v.inodeMap| == |v.nodes| == InodeMax
  {
    && v.inodeMap[0] && v.nodes[0].kind == NoType
    && (forall i :: 0 <= i < InodeMax && !v.inodeMap[i] ==> Blank(v.nodes[i]))
    && (forall i :: 0 < i < InodeMax && v.inodeMap[i] ==> v.nodes[i].kind != NoType)
    && (forall i :: 0 <= i < InodeMax && v.nodes[i].kind == Dir ==> v.nodes[i].link <= 1)
  }

  predicate IsDir(v: Fs, i: nat)
    requires i < |v.nodes|
  {
    i == 0 || v.nodes[i].kind == Dir
  }

  /** A directory that still has its name. */
  predicate Active(v: Fs, i: nat)
    requires i < |v.nodes|
  {
    IsDir(v, i) && v.nodes[i].link > 0
  }

  /** The block of directory i holds the two dot entries and the names listed. */
  predicate Lists(v: Fs, i: nat, names: seq<nat>)
    requires i < |v.nodes|
  {
    var n := v.nodes[i];
    && |n.direct| == Slots && NumberOf(n.direct[0]) < |v.disk|
    && n.entries == |names| + 2
    && var blk := v.disk[NumberOf(n.direct[0])];
    && n.entries <= |blk| && blk[0].name == "." && blk[1].name == ".."
    && forall k :: 0 <= k < |names| ==> blk[k + 2].ino == names[k]
  }

  /** Every directory lists its names, save for one that is being changed. */
  predicate Listed(v: Fs, b: Book, hole: int)
    requires |v.nodes| == |b.names| == InodeMax
  {
    && (forall i :: 0 <= i < InodeMax && Active(v, i) && i != hole ==> Lists(v, i, b.names[i]))
    && (forall i :: 0 <= i < InodeMax && !Active(v, i) ==> b.names[i] == [])
  }

  /** A directory lies deeper than the one that names it. */
  predicate Ranked(v: Fs, b: Book)
    requires |v.nodes| == |b.names| == |b.rank| == InodeMax
  {
    forall d, k :: 0 <= d < InodeMax && 0 <= k < |b.names[d]| ==>
      0 <= b.names[d][k] < InodeMax && (v.nodes[b.names[d][k]].kind == Dir ==> b.rank[d] < b.rank[b.names[d][k]])
  }

  /** Set bits of the block map are exactly the blocks in slots of allocated inodes. */
  ghost predicate Owned(v: Fs, b: Book)
    requires Shape(v, b)
  {
    && (forall k :: 0 <= k < BlockMax ==> (v.blockMap[k] <==> b.owner[k].Slot?))
    && (forall k :: 0 <= k < BlockMax && b.owner[k].Slot? ==>
          var o := b.owner[k];
          o.ino < InodeMax && o.slot < Slots && v.inodeMap[o.ino] && v.nodes[o.ino].direct[o.slot] == Offset(k))
    && (forall i, s :: 0 <= i < InodeMax && 0 <= s < Slots && v.nodes[i].direct[s] != 0 ==>
          var k := NumberOf(v.nodes[i].direct[s]);
          k < BlockMax && v.nodes[i].direct[s] == Offset(k) && b.owner[k] == Slot(i, s))
    && (forall i, s :: 0 <= i < InodeMax && 0 < s < Slots && v.nodes[i].kind != File ==> v.nodes[i].direct[s] == 0)
    && (forall i :: 0 <= i < InodeMax && v.inodeMap[i] && IsDir(v, i) ==> v.nodes[i].direct[0] != 0)
  }

  ghost predicate Inv(v: Fs, b: Book, hole: int) {
    Shape(v, b) && Counted(v, b) && Typed(v) && Listed(v, b, hole) && Ranked(v, b) && Owned(v, b)
  }

  // ---------------------------------------------------------------- references

  /** Changing one directory's list changes the references by just that. */
  lemma {:induction false} TotalUpdate(names: seq<seq<nat>>, d: nat, s: seq<nat>)
    requires d < |names|
    ensures Total(names[d := s]) + multiset(names[d]) == Total(names) + multiset(s)
    decreases |names|
  {
    var n := |names| - 1;
    var names' := names[d := s];
    if d == n {
      assert names'[..n] == names[..n];
    } else {
      TotalUpdate(names[..n], d, s);
      assert names'[..n] == names[..n][d := s] && names'[n] == names[n];
      Shift(Total(names'[..n]), multiset(names[d]), Total(names[..n]), multiset(s), multiset(names[n]));
    }
  }

  lemma Shift(a: multiset<nat>, b: multiset<nat>, c: multiset<nat>, d: multiset<nat>, m: multiset<nat>)
    requires a + b == c + d
    ensures (a + m) + b == (c + m) + d
  {
    forall x: nat ensures ((a + m) + b)[x] == ((c + m) + d)[x] {
      assert (a + b)[x] == (c + d)[x];
    }
  }

  lemma {:induction false} NamedIsReferred(names: seq<seq<nat>>, d: nat, k: nat)
    requires d < |names| && k < |names[d]|
    ensures names[d][k] in Total(names)
    decreases |names|
  {
    var n := |names| - 1;
    if d == n {
      assert names[d][k] in multiset(names[d]);
    } else {
      NamedIsReferred(names[..n], d, k);
    }
  }

  lemma {:induction false} ReferredIsNamed(names: seq<seq<nat>>, x: nat) returns (d: nat, k: nat)
    requires x in Total(names)
    ensures d < |names| && k < |names[d]| && names[d][k] == x
    decreases |names|
  {
    var n := |names| - 1;
    if x in multiset(names[n]) {
      d := n;
      k :| 0 <= k < |names[n]| && names[n][k] == x;
    } else {
      d, k := ReferredIsNamed(names[..n], x);
    }
  }

  // ---------------------------------------------------------------- dropping a reference

  function Unlinked(v: Fs, i: nat): Fs
    requires i < |v.nodes|
  {
    v.(nodes := v.nodes[i := v.nodes[i].(link := v.nodes[i].link - 1)])
  }

  /** The references of a directory that lost its name wait to be dropped in turn. */
  function UnlinkedBook(v: Fs, b: Book, i: nat): Book
    requires i < |v.nodes| && i < |b.names|
  {
    if v.nodes[i].kind == Dir then b.(names := b.names[i := []], pend := b.pend + multiset(b.names[i]) - multiset{i})
    else b.(pend := b.pend - multiset{i})
  }

  lemma PendingIsLive(v: Fs, b: Book, hole: int, i: nat)
    requires Inv(v, b, hole) && i in b.pend
    ensures 0 < i < InodeMax && v.nodes[i].link > 0 && v.inodeMap[i] && v.nodes[i].kind != NoType
    ensures v.nodes[i].kind == Dir ==> Active(v, i) && v.nodes[i].link == 1
  {
    assert i in Refs(b);
  }

  lemma UnlinkedRefs(v: Fs, b: Book, i: nat)
    requires i in b.pend && i < |v.nodes| && i < |b.names|
    ensures Refs(UnlinkedBook(v, b, i)) == Refs(b) - multiset{i}
  {
    TotalUpdate(b.names, i, []);
    Moved(Total(b.names), Total(b.names[i := []]), multiset(b.names[i]), b.pend, i);
  }

  lemma Moved(a: multiset<nat>, a': multiset<nat>, m: multiset<nat>, p: multiset<nat>, i: nat)
    requires a' + m == a && i in p
    ensures a' + (p + m - multiset{i}) == (a + p) - multiset{i}
    ensures a + (p - multiset{i}) == (a + p) - multiset{i}
  {
  }

  lemma UnlinkedCounted(v: Fs, b: Book, i: nat)
    requires Counted(v, b) && i in b.pend && i < |b.names| && i < InodeMax
    ensures Counted(Unlinked(v, i), UnlinkedBook(v, b, i))
  {
    UnlinkedRefs(v, b, i);
    assert i in Refs(b);
  }

  lemma UnlinkedTyped(v: Fs, i: nat)
    requires |v.inodeMap| == |v.nodes| == InodeMax && Typed(v) && 0 < i < InodeMax && v.inodeMap[i] && v.nodes[i].link > 0
    ensures Typed(Unlinked(v, i))
  {
  }

  lemma UnlinkedListed(v: Fs, b: Book, hole: int, i: nat)
    requires |v.nodes| == |b.names| == InodeMax && Listed(v, b, hole) && 0 < i < InodeMax && i != hole
    requires v.nodes[i].link > 0 && (v.nodes[i].kind == Dir ==> v.nodes[i].link == 1)
    ensures Listed(Unlinked(v, i), UnlinkedBook(v, b, i), hole)
  {
    var v', b' := Unlinked(v, i), UnlinkedBook(v, b, i);
    forall j | 0 <= j < InodeMax && j != i ensures Active(v', j) == Active(v, j) && b'.names[j] == b.names[j] {}
    forall j | 0 <= j < InodeMax && Active(v', j) && j != hole ensures Lists(v', j, b'.names[j]) {
      assert j != i && Lists(v, j, b.names[j]);
    }
    forall j | 0 <= j < InodeMax && !Active(v', j) ensures b'.names[j] == [] {
      if j == i && v.nodes[i].kind != Dir { assert !Active(v, j); }
    }
  }

  lemma UnlinkedRanked(v: Fs, b: Book, i: nat)
    requires |v.nodes| == |b.names| == |b.rank| == InodeMax && Ranked(v, b) && i < InodeMax
    ensures Ranked(Unlinked(v, i), UnlinkedBook(v, b, i))
  {
    var v', b' := Unlinked(v, i), UnlinkedBook(v, b, i);
    forall d, k | 0 <= d < InodeMax && 0 <= k < |b'.names[d]|
      ensures 0 <= b'.names[d][k] < InodeMax && (v'.nodes[b'.names[d][k]].kind == Dir ==> b'.rank[d] < b'.rank[b'.names[d][k]])
    {
      assert b'.names[d] == b.names[d];
      assert b.names[d][k] == b'.names[d][k];
    }
  }

  lemma UnlinkedOwned(v: Fs, b: Book, i: nat)
    requires Shape(v, b) && Owned(v, b) && i < InodeMax
    ensures Shape(Unlinked(v, i), UnlinkedBook(v, b, i)) && Owned(Unlinked(v, i), UnlinkedBook(v, b, i))
  {
    var v', b' := Unlinked(v, i), UnlinkedBook(v, b, i);
    forall j | 0 <= j < InodeMax ensures v'.nodes[j].direct == v.nodes[j].direct && v'.nodes[j].kind == v.nodes[j].kind {}
  }

  /** Taking a dropped reference off the link count keeps the books. */
  lemma UnlinkedKeeps(v: Fs, b: Book, hole: int, i: nat)
    requires Inv(v, b, hole) && i in b.pend && i != hole
    ensures i < InodeMax && Inv(Unlinked(v, i), UnlinkedBook(v, b, i), hole)
  {
    PendingIsLive(v, b, hole, i);
    UnlinkedCounted(v, b, i);
    UnlinkedTyped(v, i);
    UnlinkedListed(v, b, hole, i);
    UnlinkedRanked(v, b, i);
    UnlinkedOwned(v, b, i);
  }

  // ---------------------------------------------------------------- freeing an inode

  function BlankInode(): Inode { Inode(NoType, 0, 0, seq(Slots, i => 0)) }

  /** The bits of the first n slots cleared, unused slots included. */
  function Cleared(m: seq<bool>, direct: seq<nat>, n: nat): (m': seq<bool>)
    requires n <= |direct|
    ensures |m'| == |m|
  {
    if n == 0 then m else ClearBit(Cleared(m, direct, n - 1), NumberOf(direct[n - 1]))
  }

  lemma {:induction false} ClearedBits(m: seq<bool>, direct: seq<nat>, n: nat, k: nat)
    requires n <= |direct| && k < |m| == BlockMax
    requires forall s :: 0 <= s < n && direct[s] != 0 ==> NumberOf(direct[s]) < BlockMax && direct[s] == Offset(NumberOf(direct[s]))
    ensures Cleared(m, direct, n)[k] <==> m[k] && forall s :: 0 <= s < n ==> direct[s] != Offset(k)
  {
    if n > 0 {
      ClearedBits(m, direct, n - 1, k);
      BlockNumbers(k);
    }
  }

  function Freed(v: Fs, i: nat): Fs
    requires i < |v.nodes| && i < |v.inodeMap|
  {
    v.(nodes := v.nodes[i := BlankInode()], inodeMap := v.inodeMap[i := false], blockMap := Cleared(v.blockMap, v.nodes[i].direct, |v.nodes[i].direct|))
  }

  function FreedBook(b: Book, i: nat): Book {
    b.(owner := seq(|b.owner|, k requires 0 <= k < |b.owner| => if b.owner[k].Slot? && b.owner[k].ino == i then Nobody else b.owner[k]))
  }

  lemma FreedMap(v: Fs, b: Book, i: nat, k: nat)
    requires Shape(v, b) && Owned(v, b) && i < InodeMax && k < BlockMax
    ensures Freed(v, i).blockMap[k] <==> FreedBook(b, i).owner[k].Slot?
  {
    var d := v.nodes[i].direct;
    assert forall s :: 0 <= s < Slots && v.nodes[i].direct[s] != 0 ==> NumberOf(v.nodes[i].direct[s]) < BlockMax;
    ClearedBits(v.blockMap, d, |d|, k);
    BlockNumbers(k);
    if v.blockMap[k] {
      var o := b.owner[k];
      if o.ino == i {
        assert d[o.slot] == Offset(k);
      } else {
        forall s | 0 <= s < |d| ensures d[s] != Offset(k) {
          assert v.nodes[i].direct[s] != 0 ==> b.owner[NumberOf(v.nodes[i].direct[s])] == Slot(i, s);
        }
      }
    }
  }

  lemma FreedOwned(v: Fs, b: Book, i: nat)
    requires Shape(v, b) && Owned(v, b) && 0 < i < InodeMax
    ensures Shape(Freed(v, i), FreedBook(b, i)) && Owned(Freed(v, i), FreedBook(b, i))
  {
    var v', b' := Freed(v, i), FreedBook(b, i);
    forall k | 0 <= k < BlockMax ensures v'.blockMap[k] <==> b'.owner[k].Slot? { FreedMap(v, b, i, k); }
    forall j | 0 <= j < InodeMax && j != i ensures v'.nodes[j] == v.nodes[j] && v'.inodeMap[j] == v.inodeMap[j] {}
  }

  lemma FreedListed(v: Fs, b: Book, hole: int, i: nat)
    requires |v.nodes| == |v.inodeMap| == |b.names| == InodeMax && Listed(v, b, hole) && 0 < i < InodeMax && v.nodes[i].link == 0
    ensures Listed(Freed(v, i), FreedBook(b, i), hole)
  {
    var v' := Freed(v, i);
    forall j | 0 <= j < InodeMax && Active(v', j) && j != hole ensures Lists(v', j, b.names[j]) {
      assert j != i && Active(v, j) && Lists(v, j, b.names[j]);
    }
    forall j | 0 <= j < InodeMax && !Active(v', j) ensures b.names[j] == [] {
      assert !Active(v, j);
    }
  }

  lemma FreedRanked(v: Fs, b: Book, i: nat)
    requires |v.nodes| == |v.inodeMap| == |b.names| == |b.rank| == InodeMax && Ranked(v, b) && i < InodeMax
    ensures Ranked(Freed(v, i), FreedBook(b, i))
  {
  }

  /** Freeing an inode without references keeps the books. */
  lemma FreedKeeps(v: Fs, b: Book, hole: int, i: nat)
    requires Inv(v, b, hole) && 0 < i < InodeMax && v.nodes[i].link == 0
    ensures Inv(Freed(v, i), FreedBook(b, i), hole)
  {
    FreedOwned(v, b, i);
    FreedListed(v, b, hole, i);
    FreedRanked(v, b, i);
    assert Refs(FreedBook(b, i)) == Refs(b);
  }

  // ---------------------------------------------------------------- what removal leaves alone

  /** Between two moments of a removal: inodes already without references wait untouched, none
      joins them, and a directory either is as it was or is gone. */
  predicate Pruned(v: Fs, b: Book, v': Fs, b': Book) {
    && Shape(v, b) && Shape(v', b') && v'.disk == v.disk && b'.rank == b.rank
    && (forall j :: 0 <= j < InodeMax && v.inodeMap[j] && v.nodes[j].link == 0 ==> v'.inodeMap[j] && v'.nodes[j] == v.nodes[j])
    && (forall j :: 0 <= j < InodeMax && v'.inodeMap[j] && v'.nodes[j].link == 0 ==> v.inodeMap[j] && v.nodes[j].link == 0)
    && (forall j :: 0 <= j < InodeMax && v'.nodes[j].kind == Dir ==> v.nodes[j].kind == Dir)
    && (forall j :: 0 <= j < InodeMax && Active(v', j) ==> Active(v, j) && b'.names[j] == b.names[j])
    && (forall j :: 0 <= j < InodeMax && v'.inodeMap[j] ==> v.inodeMap[j] && SameData(v.nodes[j], v'.nodes[j]))
  }

  /** The same inode up to its link count. */
  predicate SameData(n: Inode, n': Inode) { n'.(link := n.link) == n }

  lemma PrunedAgain(v: Fs, b: Book, v1: Fs, b1: Book, v2: Fs, b2: Book)
    requires Pruned(v, b, v1, b1) && Pruned(v1, b1, v2, b2)
    ensures Pruned(v, b, v2, b2)
  {
  }

  predicate Spared(v: Fs, b: Book, v': Fs, b': Book, d: nat)
    requires Shape(v, b) && Shape(v', b') && d < InodeMax
  {
    v'.nodes[d] == v.nodes[d] && b'.names[d] == b.names[d]
  }

  /** Directories no deeper than r, except x, stay as they are. */
  predicate SparedUpTo(v: Fs, b: Book, v': Fs, b': Book, x: nat, r: nat)
    requires Shape(v, b) && Shape(v', b')
  {
    forall d :: 0 <= d < InodeMax && Active(v, d) && d != x && b.rank[d] <= r ==> Spared(v, b, v', b', d)
  }

  predicate AllSpared(v: Fs, b: Book, v': Fs, b': Book)
    requires Shape(v, b) && Shape(v', b')
  {
    forall d :: 0 <= d < InodeMax && Active(v, d) ==> Spared(v, b, v', b', d)
  }

  lemma UnlinkedSpares(v: Fs, b: Book, hole: int, i: nat)
    requires Inv(v, b, hole) && i in b.pend && i != hole && i < InodeMax
    ensures var v', b' := Unlinked(v, i), UnlinkedBook(v, b, i);
      && Shape(v', b')
      && (v.nodes[i].kind == Dir ==> SparedUpTo(v, b, v', b', i, b.rank[i]))
      && (v.nodes[i].kind != Dir ==> AllSpared(v, b, v', b'))
  {
    PendingIsLive(v, b, hole, i);
  }

  lemma UnlinkedOnly(v: Fs, b: Book, i: nat)
    requires Shape(v, b) && i < InodeMax && v.nodes[i].link > 1 && v.nodes[i].kind != Dir
    ensures Pruned(v, b, Unlinked(v, i), UnlinkedBook(v, b, i))
  {
    var v', b' := Unlinked(v, i), UnlinkedBook(v, b, i);
    forall j | 0 <= j < InodeMax ensures Active(v', j) == Active(v, j) && v'.nodes[j].direct == v.nodes[j].direct {}
    assert v.nodes[i].kind != Dir ==> b'.names == b.names;
  }

  /** From before the last reference of i is dropped to after i is freed. */
  lemma PrunedWhole(v: Fs, b: Book, i: nat, v2: Fs, b2: Book)
    requires Shape(v, b) && 0 < i < InodeMax && v.inodeMap[i] && v.nodes[i].link == 1
    requires Pruned(Unlinked(v, i), UnlinkedBook(v, b, i), v2, b2)
    ensures Pruned(v, b, Freed(v2, i), FreedBook(b2, i))
  {
    var v1, v3 := Unlinked(v, i), Freed(v2, i);
    forall j | 0 <= j < InodeMax && Active(v3, j) ensures Active(v, j) {
      assert j != i && Active(v2, j) && Active(v1, j);
    }
  }

  lemma PrunedSelf(v: Fs, b: Book)
    requires Shape(v, b)
    ensures Pruned(v, b, v, b) && AllSpared(v, b, v, b)
  {
  }

  /** Clearing the block of a directory clears all its blocks. */
  lemma {:induction false} DirCleared(m: seq<bool>, direct: seq<nat>, n: nat)
    requires |m| == BlockMax && 0 < n <= |direct| && forall s :: 0 < s < |direct| ==> direct[s] == 0
    ensures Cleared(m, direct, n) == ClearBit(m, NumberOf(direct[0]))
  {
    BlockNumbers(0);
    if n > 1 { DirCleared(m, direct, n - 1); }
  }
}
