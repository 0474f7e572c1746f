/** New inodes and directory entries (kernel/fs/fs.c:492-532, 657-673, 730-769, 987-1000) on
    values: each step keeps the books. */
module Entries {
  import opened Inodes

  // ---------------------------------------------------------------- new references

  /** A new file: no blocks, one reference that is still to be entered in a directory. */
  function NewFile(v: Fs, i: nat): Fs
    requires i < |v.nodes| && i < |v.inodeMap|
  {
    v.(inodeMap := v.inodeMap[i := true], nodes := v.nodes[i := v.nodes[i].(kind := File, link := 1)])
  }

  /** One more reference to an inode. */
  function Linked(v: Fs, i: nat): Fs
    requires i < |v.nodes|
  {
    v.(nodes := v.nodes[i := v.nodes[i].(link := v.nodes[i].link + 1)])
  }

  function Awaiting(b: Book, i: nat): Book { b.(pend := b.pend + multiset{i}) }

  lemma AwaitingRefs(b: Book, i: nat)
    ensures Refs(Awaiting(b, i)) == Refs(b) + multiset{i}
  {
  }

  lemma NewFileListed(v: Fs, b: Book, hole: int, i: nat)
    requires |v.nodes| == |v.inodeMap| == |b.names| == InodeMax && Listed(v, b, hole) && 0 < i < InodeMax && Blank(v.nodes[i])
    ensures Listed(NewFile(v, i), Awaiting(b, i), hole)
  {
    var v' := NewFile(v, i);
    forall j | 0 <= j < InodeMax ensures Active(v', j) == Active(v, j) && (j != i ==> v'.nodes[j] == v.nodes[j]) {}
    forall j | 0 <= j < InodeMax && Active(v', j) && j != hole ensures Lists(v', j, b.names[j]) { assert Lists(v, j, b.names[j]); }
  }

  lemma NewFileOwned(v: Fs, b: Book, i: nat)
    requires Shape(v, b) && Owned(v, b) && 0 < i < InodeMax && !v.inodeMap[i] && Blank(v.nodes[i])
    ensures Shape(NewFile(v, i), Awaiting(b, i)) && Owned(NewFile(v, i), Awaiting(b, i))
  {
    var v' := NewFile(v, i);
    forall j | 0 <= j < InodeMax ensures v'.nodes[j].direct == v.nodes[j].direct && (j != i ==> v'.nodes[j].kind == v.nodes[j].kind) {}
  }

  lemma NewFileCounted(v: Fs, b: Book, i: nat)
    requires Counted(v, b) && |v.inodeMap| == InodeMax && 0 < i < InodeMax && v.nodes[i].link == 0
    ensures Counted(NewFile(v, i), Awaiting(b, i))
  {
    AwaitingRefs(b, i);
  }

  lemma NewFileTyped(v: Fs, b: Book, i: nat)
    requires |v.nodes| == |v.inodeMap| == |b.names| == |b.rank| == InodeMax && Typed(v) && Ranked(v, b) && 0 < i < InodeMax
    ensures Typed(NewFile(v, i)) && Ranked(NewFile(v, i), Awaiting(b, i))
  {
  }

  lemma NewFileKeeps(v: Fs, b: Book, i: nat)
    requires Inv(v, b, -1) && i < InodeMax && !v.inodeMap[i]
    ensures i > 0 && Inv(NewFile(v, i), Awaiting(b, i), -1)
  {
    assert Blank(v.nodes[i]);
    NewFileListed(v, b, -1, i);
    NewFileOwned(v, b, i);
    NewFileCounted(v, b, i);
    NewFileTyped(v, b, i);
  }

  lemma LinkedListed(v: Fs, b: Book, hole: int, i: nat)
    requires |v.nodes| == |b.names| == InodeMax && Listed(v, b, hole) && 0 < i < InodeMax && v.nodes[i].kind == File
    ensures Listed(Linked(v, i), Awaiting(b, i), hole)
  {
    var v' := Linked(v, i);
    forall j | 0 <= j < InodeMax ensures Active(v', j) == Active(v, j) && (j != i ==> v'.nodes[j] == v.nodes[j]) {}
    forall j | 0 <= j < InodeMax && Active(v', j) && j != hole ensures Lists(v', j, b.names[j]) { assert Lists(v, j, b.names[j]); }
  }

  lemma LinkedOwned(v: Fs, b: Book, i: nat)
    requires Shape(v, b) && Owned(v, b) && i < InodeMax
    ensures Shape(Linked(v, i), Awaiting(b, i)) && Owned(Linked(v, i), Awaiting(b, i))
  {
    var v' := Linked(v, i);
    forall j | 0 <= j < InodeMax ensures v'.nodes[j].direct == v.nodes[j].direct && v'.nodes[j].kind == v.nodes[j].kind {}
  }

  lemma LinkedCounted(v: Fs, b: Book, i: nat)
    requires Counted(v, b) && 0 < i < InodeMax
    ensures Counted(Linked(v, i), Awaiting(b, i))
  {
    AwaitingRefs(b, i);
  }

  lemma LinkedTyped(v: Fs, b: Book, i: nat)
    requires |v.nodes| == |v.inodeMap| == |b.names| == |b.rank| == InodeMax && Typed(v) && Ranked(v, b)
    requires 0 < i < InodeMax && v.nodes[i].kind == File && v.inodeMap[i]
    ensures Typed(Linked(v, i)) && Ranked(Linked(v, i), Awaiting(b, i))
  {
  }

  lemma LinkedKeeps(v: Fs, b: Book, i: nat)
    requires Inv(v, b, -1) && 0 < i < InodeMax && v.inodeMap[i] && v.nodes[i].kind == File
    ensures Inv(Linked(v, i), Awaiting(b, i), -1)
  {
    LinkedListed(v, b, -1, i);
    LinkedOwned(v, b, i);
    LinkedCounted(v, b, i);
    LinkedTyped(v, b, i);
  }

  // ---------------------------------------------------------------- a new directory

  /** The block of a new directory: the two dot entries, and whatever was in the buffer. */
  function DotBlock(junk: seq<Dentry>, i: nat, parent: nat): seq<Dentry>
    requires |junk| == DirSlots
  {
    junk[0 := Dentry(Dir, i, ".")][1 := Dentry(Dir, parent, "..")]
  }

  function NewDir(v: Fs, i: nat, k: nat, blk: seq<Dentry>): Fs
    requires i < |v.nodes| && i < |v.inodeMap| && k < |v.blockMap| && k < |v.disk| && |v.nodes[i].direct| == Slots
  {
    Fs(v.inodeMap[i := true], v.blockMap[k := true],
       v.nodes[i := Inode(Dir, 1, 2, v.nodes[i].direct[0 := Offset(k)])], v.disk[k := blk])
  }

  function NewDirBook(b: Book, i: nat, k: nat, parent: nat): Book
    requires i < |b.rank| && parent < |b.rank| && k < |b.owner|
  {
    Book(b.names, b.pend + multiset{i}, b.rank[i := b.rank[parent] + 1], b.owner[k := Slot(i, 0)])
  }

  /** An inode and a block that are free, for a directory in parent. */
  predicate Fresh(v: Fs, b: Book, i: nat, k: nat, parent: nat, blk: seq<Dentry>) {
    && Shape(v, b) && 0 < i < InodeMax && k < BlockMax && parent < InodeMax && !v.inodeMap[i] && !v.blockMap[k] && Blank(v.nodes[i])
    && |blk| == DirSlots && blk[0].name == "." && blk[1].name == ".."
  }

  lemma NewDirOwned(v: Fs, b: Book, i: nat, k: nat, parent: nat, blk: seq<Dentry>)
    requires Fresh(v, b, i, k, parent, blk) && Owned(v, b)
    ensures Shape(NewDir(v, i, k, blk), NewDirBook(b, i, k, parent)) && Owned(NewDir(v, i, k, blk), NewDirBook(b, i, k, parent))
  {
    BlockNumbers(k);
    var v', b' := NewDir(v, i, k, blk), NewDirBook(b, i, k, parent);
    forall j | 0 <= j < InodeMax && j != i ensures v'.nodes[j] == v.nodes[j] && v'.inodeMap[j] == v.inodeMap[j] {}
    forall s | 0 < s < Slots ensures v'.nodes[i].direct[s] == 0 { assert v.nodes[i].direct[s] == 0; }
    forall k' | 0 <= k' < BlockMax && k' != k ensures b'.owner[k'] == b.owner[k'] && v'.blockMap[k'] == v.blockMap[k'] {}
  }

  lemma NewDirListed(v: Fs, b: Book, i: nat, k: nat, parent: nat, blk: seq<Dentry>)
    requires Fresh(v, b, i, k, parent, blk) && Owned(v, b) && Typed(v) && Listed(v, b, -1)
    ensures Listed(NewDir(v, i, k, blk), NewDirBook(b, i, k, parent), -1)
  {
    BlockNumbers(k);
    var v', b' := NewDir(v, i, k, blk), NewDirBook(b, i, k, parent);
    assert b.names[i] == [] by { assert !Active(v, i); }
    forall j | 0 <= j < InodeMax && Active(v', j) ensures Lists(v', j, b'.names[j]) {
      if j != i {
        assert Active(v, j) && Lists(v, j, b.names[j]);
        assert v.inodeMap[j];
        assert NumberOf(v.nodes[j].direct[0]) != k;
      }
    }
    forall j | 0 <= j < InodeMax && !Active(v', j) ensures b'.names[j] == [] { assert !Active(v, j); }
  }

  lemma NewDirCounted(v: Fs, b: Book, i: nat, k: nat, parent: nat, blk: seq<Dentry>)
    requires Fresh(v, b, i, k, parent, blk) && Counted(v, b)
    ensures Counted(NewDir(v, i, k, blk), NewDirBook(b, i, k, parent))
  {
    AwaitingRefs(b, i);
    assert Refs(NewDirBook(b, i, k, parent)) == Refs(b) + multiset{i};
  }

  /** Nobody names a free inode, so its depth may be chosen. */
  lemma NewDirRanked(v: Fs, b: Book, i: nat, k: nat, parent: nat, blk: seq<Dentry>)
    requires Fresh(v, b, i, k, parent, blk) && Counted(v, b) && Ranked(v, b) && b.names[i] == []
    ensures Ranked(NewDir(v, i, k, blk), NewDirBook(b, i, k, parent))
  {
    var v', b' := NewDir(v, i, k, blk), NewDirBook(b, i, k, parent);
    forall d, n | 0 <= d < InodeMax && 0 <= n < |b'.names[d]|
      ensures 0 <= b'.names[d][n] < InodeMax && (v'.nodes[b'.names[d][n]].kind == Dir ==> b'.rank[d] < b'.rank[b'.names[d][n]])
    {
      NamedIsReferred(b.names, d, n);
      assert b.names[d][n] in Refs(b);
      assert b.names[d][n] != i;
    }
  }

  lemma NewDirKeeps(v: Fs, b: Book, i: nat, k: nat, parent: nat, blk: seq<Dentry>)
    requires Inv(v, b, -1) && Fresh(v, b, i, k, parent, blk)
    ensures Inv(NewDir(v, i, k, blk), NewDirBook(b, i, k, parent), -1)
  {
    NewDirOwned(v, b, i, k, parent, blk);
    NewDirListed(v, b, i, k, parent, blk);
    NewDirCounted(v, b, i, k, parent, blk);
    assert b.names[i] == [] by { assert !Active(v, i); }
    NewDirRanked(v, b, i, k, parent, blk);
    assert Typed(NewDir(v, i, k, blk));
  }

  // ---------------------------------------------------------------- entering a name

  function BlockOf(v: Fs, d: nat): nat
    requires d < |v.nodes| && |v.nodes[d].direct| == Slots
  {
    NumberOf(v.nodes[d].direct[0])
  }

  predicate HasRoom(v: Fs, d: nat) {
    d < |v.nodes| && |v.nodes[d].direct| == Slots && BlockOf(v, d) < |v.disk| && 0 <= v.nodes[d].entries < |v.disk[BlockOf(v, d)]|
  }

  /** One more entry at the end of directory d. */
  function Appended(v: Fs, d: nat, e: Dentry): Fs
    requires HasRoom(v, d)
  {
    var k, n := BlockOf(v, d), v.nodes[d].entries;
    v.(disk := v.disk[k := v.disk[k][n := e]], nodes := v.nodes[d := v.nodes[d].(entries := n + 1)])
  }

  function AppendedBook(b: Book, d: nat, i: nat): Book
    requires d < |b.names|
  {
    b.(names := b.names[d := b.names[d] + [i]], pend := b.pend - multiset{i})
  }

  lemma AppendedRefs(b: Book, d: nat, i: nat)
    requires d < |b.names| && i in b.pend
    ensures Refs(AppendedBook(b, d, i)) == Refs(b)
  {
    var s := b.names[d] + [i];
    TotalUpdate(b.names, d, s);
    assert multiset(s) == multiset(b.names[d]) + multiset{i};
    MovedIn(Total(b.names), Total(b.names[d := s]), multiset(b.names[d]), b.pend, i);
  }

  lemma MovedIn(a: multiset<nat>, a': multiset<nat>, m: multiset<nat>, p: multiset<nat>, i: nat)
    requires a' + m == a + (m + multiset{i}) && i in p
    ensures a' + (p - multiset{i}) == a + p
  {
    forall x: nat ensures (a' + (p - multiset{i}))[x] == (a + p)[x] {
      assert (a' + m)[x] == (a + (m + multiset{i}))[x];
    }
  }

  /** No two directories share a block. */
  lemma OwnBlock(v: Fs, b: Book, d: nat, j: nat)
    requires Shape(v, b) && Owned(v, b) && Typed(v) && d < InodeMax && j < InodeMax && Active(v, d) && Active(v, j) && d != j
    ensures BlockOf(v, d) != BlockOf(v, j)
  {
    assert v.inodeMap[d] && v.inodeMap[j];
  }

  lemma AppendedListed(v: Fs, b: Book, d: nat, e: Dentry)
    requires Shape(v, b) && Owned(v, b) && Typed(v) && Listed(v, b, -1) && HasRoom(v, d) && d < InodeMax && Active(v, d)
    ensures Listed(Appended(v, d, e), AppendedBook(b, d, e.ino), -1)
  {
    var v', b' := Appended(v, d, e), AppendedBook(b, d, e.ino);
    forall j | 0 <= j < InodeMax ensures Active(v', j) == Active(v, j) && (j != d ==> v'.nodes[j] == v.nodes[j] && b'.names[j] == b.names[j]) {}
    forall j | 0 <= j < InodeMax && Active(v', j) ensures Lists(v', j, b'.names[j]) {
      assert Lists(v, j, b.names[j]);
      if j != d { OwnBlock(v, b, d, j); }
    }
  }

  lemma AppendedOwned(v: Fs, b: Book, d: nat, e: Dentry)
    requires Shape(v, b) && Owned(v, b) && HasRoom(v, d) && d < InodeMax
    ensures Shape(Appended(v, d, e), AppendedBook(b, d, e.ino)) && Owned(Appended(v, d, e), AppendedBook(b, d, e.ino))
  {
    var v' := Appended(v, d, e);
    forall j | 0 <= j < InodeMax ensures v'.nodes[j].direct == v.nodes[j].direct && v'.nodes[j].kind == v.nodes[j].kind {}
  }

  lemma AppendedRanked(v: Fs, b: Book, d: nat, e: Dentry)
    requires Shape(v, b) && Ranked(v, b) && HasRoom(v, d) && d < InodeMax && e.ino < InodeMax
    requires v.nodes[e.ino].kind == Dir ==> b.rank[d] < b.rank[e.ino]
    ensures Ranked(Appended(v, d, e), AppendedBook(b, d, e.ino))
  {
    var v', b' := Appended(v, d, e), AppendedBook(b, d, e.ino);
    forall j, n | 0 <= j < InodeMax && 0 <= n < |b'.names[j]|
      ensures 0 <= b'.names[j][n] < InodeMax && (v'.nodes[b'.names[j][n]].kind == Dir ==> b'.rank[j] < b'.rank[b'.names[j][n]])
    {
      if j != d || n < |b.names[d]| {
        assert b'.names[j][n] == b.names[j][n];
      }
    }
  }

  lemma AppendedCounted(v: Fs, b: Book, d: nat, e: Dentry)
    requires Counted(v, b) && HasRoom(v, d) && d < |b.names| && e.ino in b.pend
    ensures Counted(Appended(v, d, e), AppendedBook(b, d, e.ino))
  {
    AppendedRefs(b, d, e.ino);
  }

  lemma AppendedTyped(v: Fs, d: nat, e: Dentry)
    requires |v.nodes| == |v.inodeMap| == InodeMax && Typed(v) && HasRoom(v, d) && v.inodeMap[d]
    ensures Typed(Appended(v, d, e))
  {
  }

  /** A reference waiting for its entry finds one in an active directory above it. */
  lemma AppendedKeeps(v: Fs, b: Book, d: nat, e: Dentry)
    requires Inv(v, b, -1) && d < InodeMax && Active(v, d) && HasRoom(v, d) && e.ino in b.pend && e.ino < InodeMax
    requires v.nodes[e.ino].kind == Dir ==> b.rank[d] < b.rank[e.ino]
    ensures Inv(Appended(v, d, e), AppendedBook(b, d, e.ino), -1)
  {
    AppendedListed(v, b, d, e);
    AppendedOwned(v, b, d, e);
    AppendedRanked(v, b, d, e);
    AppendedCounted(v, b, d, e);
    AppendedTyped(v, d, e);
  }

  // ---------------------------------------------------------------- taking a name out

  function Without(s: seq<nat>, k: nat): (r: seq<nat>)
    requires k < |s|
    ensures |r| == |s| - 1
  {
    s[..k] + s[k + 1..]
  }

  /** The reference of entry k of d is dropped, before the block of d changes. */
  function DetachedBook(b: Book, d: nat, k: nat): Book
    requires d < |b.names| && k < |b.names[d]|
  {
    b.(names := b.names[d := Without(b.names[d], k)], pend := b.pend + multiset{b.names[d][k]})
  }

  lemma DetachedRefs(b: Book, d: nat, k: nat)
    requires d < |b.names| && k < |b.names[d]|
    ensures Refs(DetachedBook(b, d, k)) == Refs(b)
  {
    var s := b.names[d];
    TotalUpdate(b.names, d, Without(s, k));
    assert s == s[..k] + [s[k]] + s[k + 1..];
    assert multiset(s) == multiset(Without(s, k)) + multiset{s[k]};
    MovedOut(Total(b.names), Total(b.names[d := Without(s, k)]), multiset(Without(s, k)), b.pend, s[k]);
  }

  lemma MovedOut(a: multiset<nat>, a': multiset<nat>, m: multiset<nat>, p: multiset<nat>, i: nat)
    requires a' + (m + multiset{i}) == a + m
    ensures a' + (p + multiset{i}) == a + p
  {
    forall x: nat ensures (a' + (p + multiset{i}))[x] == (a + p)[x] {
      assert (a' + (m + multiset{i}))[x] == (a + m)[x];
    }
  }

  lemma DetachedRanked(v: Fs, b: Book, d: nat, k: nat)
    requires |v.nodes| == |b.names| == |b.rank| == InodeMax && Ranked(v, b) && d < InodeMax && k < |b.names[d]|
    ensures Ranked(v, DetachedBook(b, d, k))
  {
    var b' := DetachedBook(b, d, k);
    forall j, n | 0 <= j < InodeMax && 0 <= n < |b'.names[j]|
      ensures 0 <= b'.names[j][n] < InodeMax && (v.nodes[b'.names[j][n]].kind == Dir ==> b'.rank[j] < b'.rank[b'.names[j][n]])
    {
      assert b'.names[j][n] == b.names[j][if j != d || n < k then n else n + 1];
    }
  }

  lemma DetachedListed(v: Fs, b: Book, d: nat, k: nat)
    requires |v.nodes| == |b.names| == InodeMax && Listed(v, b, -1) && d < InodeMax && k < |b.names[d]|
    ensures Listed(v, DetachedBook(b, d, k), d)
  {
    var b' := DetachedBook(b, d, k);
    forall j | 0 <= j < InodeMax && j != d ensures b'.names[j] == b.names[j] {}
    assert Active(v, d);
  }

  lemma DetachedKeeps(v: Fs, b: Book, d: nat, k: nat)
    requires Inv(v, b, -1) && d < InodeMax && k < |b.names[d]|
    ensures Inv(v, DetachedBook(b, d, k), d)
  {
    DetachedRefs(b, d, k);
    DetachedRanked(v, b, d, k);
    DetachedListed(v, b, d, k);
  }

  /** Lines 667-673: the entries after n move up by one, and the directory gets shorter. */
  function Shifted(s: seq<Dentry>, n: nat, count: nat): (r: seq<Dentry>)
    requires n < count <= |s|
    ensures |r| == |s|
    ensures forall i :: 0 <= i < |s| ==> r[i] == if n <= i < count - 1 then s[i + 1] else s[i]
  {
    seq(|s|, i requires 0 <= i < |s| => if n <= i < count - 1 then s[i + 1] else s[i])
  }

  predicate HasBlock(v: Fs, d: nat) {
    d < |v.nodes| && |v.nodes[d].direct| == Slots && BlockOf(v, d) < |v.disk| && 0 <= v.nodes[d].entries <= |v.disk[BlockOf(v, d)]|
  }

  function Shortened(v: Fs, d: nat, blk: seq<Dentry>): Fs
    requires HasBlock(v, d)
  {
    v.(disk := v.disk[BlockOf(v, d) := blk], nodes := v.nodes[d := v.nodes[d].(entries := v.nodes[d].entries - 1)])
  }

  lemma ShortenedListed(v: Fs, b: Book, d: nat, blk: seq<Dentry>)
    requires Shape(v, b) && Owned(v, b) && Typed(v) && Listed(v, b, d) && d < InodeMax && Active(v, d)
    requires HasBlock(v, d) && Lists(Shortened(v, d, blk), d, b.names[d])
    ensures Listed(Shortened(v, d, blk), b, -1)
  {
    var v' := Shortened(v, d, blk);
    forall j | 0 <= j < InodeMax ensures Active(v', j) == Active(v, j) && (j != d ==> v'.nodes[j] == v.nodes[j]) {}
    forall j | 0 <= j < InodeMax && Active(v', j) ensures Lists(v', j, b.names[j]) {
      if j != d {
        assert Lists(v, j, b.names[j]);
        OwnBlock(v, b, d, j);
      }
    }
  }

  lemma ShortenedOwned(v: Fs, b: Book, d: nat, blk: seq<Dentry>)
    requires Shape(v, b) && Owned(v, b) && HasBlock(v, d) && d < InodeMax && |blk| == DirSlots
    ensures Shape(Shortened(v, d, blk), b) && Owned(Shortened(v, d, blk), b)
  {
    var v' := Shortened(v, d, blk);
    forall j | 0 <= j < InodeMax ensures v'.nodes[j].direct == v.nodes[j].direct && v'.nodes[j].kind == v.nodes[j].kind {}
  }

  lemma ShortenedTyped(v: Fs, b: Book, d: nat, blk: seq<Dentry>)
    requires Shape(v, b) && Typed(v) && Ranked(v, b) && HasBlock(v, d) && v.inodeMap[d]
    ensures Typed(Shortened(v, d, blk)) && Ranked(Shortened(v, d, blk), b)
  {
  }

  lemma ShortenedKeeps(v: Fs, b: Book, d: nat, blk: seq<Dentry>)
    requires Inv(v, b, d) && d < InodeMax && Active(v, d) && |blk| == DirSlots
    requires HasBlock(v, d) && Lists(Shortened(v, d, blk), d, b.names[d])
    ensures Inv(Shortened(v, d, blk), b, -1)
  {
    ShortenedListed(v, b, d, blk);
    ShortenedOwned(v, b, d, blk);
    ShortenedTyped(v, b, d, blk);
    assert Refs(b) == Refs(b);
  }

  /** The shifted block lists the names without the one taken out. */
  lemma ShiftedLists(v: Fs, d: nat, names: seq<nat>, k: nat)
    requires HasBlock(v, d) && Lists(v, d, names) && k < |names|
    ensures Lists(Shortened(v, d, Shifted(v.disk[BlockOf(v, d)], k + 2, |names| + 2)), d, Without(names, k))
  {
  }
}
