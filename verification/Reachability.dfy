/** What the books of module Inodes mean: link counts are numbers of directory entries, the inode
    map is what can be reached from the root, the block map is the blocks of those inodes. */
module Reachability {
  import opened Sealing
  import opened Inodes
  import opened Entries

  /** Between two operations: every reference is entered, every allocated inode has one. */
  ghost predicate Settled(v: Fs, b: Book) {
    Shape(v, b) && forall s: Seal {:trigger Open(s)} :: Open(s) ==> Inv(v, b, -1) && b.pend == multiset{} && AllLinked(v)
  }

  predicate AllLinked(v: Fs) {
    |v.inodeMap| == |v.nodes| == InodeMax && forall i :: 0 <= i < InodeMax && v.inodeMap[i] ==> v.nodes[i].link > 0
  }

  /** The inodes that the block of a directory names, its dot entries left out. */
  function OnDisk(v: Fs, d: nat): seq<nat>
    requires d < |v.nodes|
  {
    var n := v.nodes[d];
    if Active(v, d) && |n.direct| == Slots && NumberOf(n.direct[0]) < |v.disk| && 2 <= n.entries <= |v.disk[NumberOf(n.direct[0])]| then
      seq(n.entries - 2, k requires 0 <= k < n.entries - 2 => v.disk[NumberOf(n.direct[0])][k + 2].ino)
    else []
  }

  function AllOnDisk(v: Fs): seq<seq<nat>> { seq(|v.nodes|, d requires 0 <= d < |v.nodes| => OnDisk(v, d)) }

  lemma NamesAreOnDisk(v: Fs, b: Book)
    requires Settled(v, b)
    ensures AllOnDisk(v) == b.names
  {
    forall d: nat | d < InodeMax ensures |v.nodes| == |b.names| == InodeMax && OnDisk(v, d) == b.names[d] { ListIsOnDisk(v, b, d); }
    ListIsOnDisk(v, b, 0);
  }

  lemma ListIsOnDisk(v: Fs, b: Book, d: nat)
    requires Settled(v, b) && d < InodeMax
    ensures |v.nodes| == |b.names| == InodeMax && OnDisk(v, d) == b.names[d]
  {
    assert Open(Seal);
    if Active(v, d) { assert Lists(v, d, b.names[d]); }
  }

  /** The number of entries that name an inode, over all directories with a name. */
  function EntriesNaming(v: Fs, i: nat): nat { Total(AllOnDisk(v))[i] }

  /** Every link count is the number of entries naming the inode; the root counts one more. */
  lemma LinksAreEntries(v: Fs, b: Book, i: nat)
    requires Settled(v, b) && i < InodeMax
    ensures v.nodes[i].link == EntriesNaming(v, i) + (if i == 0 then 1 else 0)
  {
    assert Open(Seal);
    NamesAreOnDisk(v, b);
    assert Refs(b) == Total(b.names);
  }

  /** i can be reached from the root over n entries. */
  ghost predicate Reached(names: seq<seq<nat>>, i: nat, n: nat)
    decreases n
  {
    if n == 0 then i == 0 else exists d: nat :: d < |names| && i in names[d] && Reached(names, d, n - 1)
  }

  ghost predicate Reachable(names: seq<seq<nat>>, i: nat) { exists n: nat :: Reached(names, i, n) }

  lemma OneFurther(names: seq<seq<nat>>, d: nat, i: nat, n: nat)
    requires d < |names| && i in names[d] && Reached(names, d, n)
    ensures Reached(names, i, n + 1)
  {
  }

  lemma ActiveIsLive(v: Fs, b: Book, d: nat)
    requires Settled(v, b) && d < InodeMax && b.names[d] != []
    ensures Active(v, d) && v.inodeMap[d]
  {
    assert Open(Seal);
  }

  /** The directory d, nearer to the root, names i. */
  predicate ParentOf(v: Fs, b: Book, i: nat, d: nat)
    requires |v.inodeMap| == |v.nodes| == |b.names| == |b.rank| == InodeMax && i < InodeMax
  {
    d < InodeMax && i in b.names[d] && v.inodeMap[d] && IsDir(v, d) && (v.nodes[i].kind == Dir ==> b.rank[d] < b.rank[i])
  }

  lemma HasParent(v: Fs, b: Book, i: nat) returns (d: nat)
    requires Settled(v, b) && 0 < i < InodeMax && v.inodeMap[i]
    ensures ParentOf(v, b, i, d)
  {
    assert Open(Seal);
    assert i in Refs(b);
    var k: nat;
    d, k := ReferredIsNamed(b.names, i);
    ActiveIsLive(v, b, d);
  }

  /** A choice of parents for all allocated inodes but the root. */
  predicate Rooted(v: Fs, b: Book, par: seq<nat>) {
    && |v.inodeMap| == |v.nodes| == |b.names| == |b.rank| == |par| == InodeMax
    && forall i {:trigger par[i]} :: 0 < i < InodeMax && v.inodeMap[i] ==> ParentOf(v, b, i, par[i])
  }

  ghost function ParentIn(v: Fs, b: Book, i: nat): nat
    requires Settled(v, b) && i < InodeMax
  {
    if d: nat :| d < InodeMax && ParentOf(v, b, i, d) then d else 0
  }

  lemma {:induction false} DirReached(v: Fs, b: Book, par: seq<nat>, i: nat) returns (n: nat)
    requires Rooted(v, b, par) && i < InodeMax && v.inodeMap[i] && IsDir(v, i)
    ensures Reached(b.names, i, n)
    decreases b.rank[i]
  {
    n := 0;
    if i != 0 {
      assert ParentOf(v, b, i, par[i]);
      n := DirReached(v, b, par, par[i]);
      OneFurther(b.names, par[i], i, n);
      n := n + 1;
    }
  }

  lemma SettledIsRooted(v: Fs, b: Book) returns (par: seq<nat>)
    requires Settled(v, b)
    ensures Rooted(v, b, par)
  {
    assert Open(Seal);
    par := seq(InodeMax, i requires 0 <= i < InodeMax => ParentIn(v, b, i));
    forall i {:trigger par[i]} | 0 < i < InodeMax && v.inodeMap[i] ensures ParentOf(v, b, i, par[i]) {
      var d := HasParent(v, b, i);
    }
  }

  lemma RootedIsReached(v: Fs, b: Book, par: seq<nat>, i: nat) returns (n: nat)
    requires Rooted(v, b, par) && i < InodeMax && v.inodeMap[i]
    ensures Reached(b.names, i, n)
  {
    n := 0;
    if i != 0 {
      assert ParentOf(v, b, i, par[i]);
      n := DirReached(v, b, par, par[i]);
      OneFurther(b.names, par[i], i, n);
      n := n + 1;
    }
  }

  lemma LiveIsReached(v: Fs, b: Book, i: nat) returns (n: nat)
    requires Settled(v, b) && i < InodeMax && v.inodeMap[i]
    ensures Reached(b.names, i, n)
  {
    assert Open(Seal);
    var par := SettledIsRooted(v, b);
    n := RootedIsReached(v, b, par, i);
  }

  lemma NamedIsLive(v: Fs, b: Book, d: nat, i: nat)
    requires Settled(v, b) && d < InodeMax && i in b.names[d]
    ensures 0 < i < InodeMax && v.inodeMap[i]
  {
    assert Open(Seal);
    var k :| 0 <= k < |b.names[d]| && b.names[d][k] == i;
    NamedIsReferred(b.names, d, k);
    assert i in Refs(b);
    LinkedIsLive(v, i);
  }

  lemma LinkedIsLive(v: Fs, i: nat)
    requires |v.inodeMap| == |v.nodes| == InodeMax && Typed(v) && i < InodeMax && v.nodes[i].link > 0
    ensures v.inodeMap[i]
  {
  }

  lemma ReachedIsLive(v: Fs, b: Book, i: nat, n: nat)
    requires Settled(v, b) && Reached(b.names, i, n)
    ensures i < InodeMax && v.inodeMap[i]
  {
    assert Open(Seal);
    if n > 0 {
      var d: nat :| d < |b.names| && i in b.names[d] && Reached(b.names, d, n - 1);
      NamedIsLive(v, b, d, i);
    }
  }

  /** The inode map is exactly what the directories on disk lead to from the root. */
  lemma AllocatedIsReachable(v: Fs, b: Book, i: nat)
    requires Settled(v, b) && i < InodeMax
    ensures v.inodeMap[i] <==> Reachable(AllOnDisk(v), i)
  {
    assert Open(Seal);
    NamesAreOnDisk(v, b);
    if v.inodeMap[i] { var n := LiveIsReached(v, b, i); }
    if Reachable(b.names, i) { var n: nat :| Reached(b.names, i, n); ReachedIsLive(v, b, i, n); }
  }

  /** The block map is exactly the blocks in slots of allocated inodes, and a block is in one
      slot only. */
  lemma BlocksAreOwned(v: Fs, b: Book, k: nat)
    requires Settled(v, b) && k < BlockMax
    ensures v.blockMap[k] <==> exists i: nat, s: nat :: i < InodeMax && s < Slots && v.inodeMap[i] && v.nodes[i].direct[s] == Offset(k)
  {
    assert Open(Seal);
    BlockNumbers(k);
    if v.blockMap[k] {
      var o := b.owner[k];
      assert v.nodes[o.ino].direct[o.slot] == Offset(k);
    }
    if i: nat, s: nat :| i < InodeMax && s < Slots && v.inodeMap[i] && v.nodes[i].direct[s] == Offset(k) {
      assert v.nodes[i].direct[s] != 0;
    }
  }

  lemma OneOwner(v: Fs, b: Book, i: nat, s: nat, j: nat, t: nat)
    requires Settled(v, b) && i < InodeMax && j < InodeMax && s < Slots && t < Slots
    requires v.nodes[i].direct[s] == v.nodes[j].direct[t] != 0
    ensures i == j && s == t
  {
    assert Open(Seal);
    assert b.owner[NumberOf(v.nodes[i].direct[s])] == Slot(i, s);
    assert b.owner[NumberOf(v.nodes[j].direct[t])] == Slot(j, t);
  }

  // ---------------------------------------------------------------- the meaning of rm

  /** After a removal: directories that are left list what they listed before. */
  predicate Left(names: seq<seq<nat>>, v': Fs, b': Book) {
    |names| == |b'.names| == InodeMax && |v'.nodes| == InodeMax && forall d :: 0 <= d < InodeMax && Active(v', d) ==> b'.names[d] == names[d]
  }

  lemma {:induction false} StillReached(names: seq<seq<nat>>, v': Fs, b': Book, i: nat, n: nat)
    requires |v'.nodes| == |b'.names| == InodeMax && Listed(v', b', -1) && Left(names, v', b') && Reached(b'.names, i, n)
    ensures Reached(names, i, n)
    decreases n
  {
    if n > 0 {
      var d: nat :| d < |b'.names| && i in b'.names[d] && Reached(b'.names, d, n - 1);
      assert Active(v', d);
      StillReached(names, v', b', d, n - 1);
      OneFurther(names, d, i, n - 1);
    }
  }

  predicate DirsOnly(v: Fs, names: seq<seq<nat>>) {
    |names| == |v.nodes| == InodeMax && forall d :: 0 <= d < InodeMax && names[d] != [] ==> IsDir(v, d)
  }

  /** What a directory names is allocated, and an allocated directory is active. */
  predicate Closed(v': Fs, b': Book) {
    && |v'.inodeMap| == |v'.nodes| == |b'.names| == InodeMax && v'.inodeMap[0] && AllLinked(v')
    && forall d, i :: 0 <= d < InodeMax && i in b'.names[d] ==> i < InodeMax && v'.inodeMap[i]
  }

  lemma SettledIsClosed(v': Fs, b': Book)
    requires Settled(v', b')
    ensures Closed(v', b')
  {
    assert Open(Seal);
    forall d, i | 0 <= d < InodeMax && i in b'.names[d] ensures i < InodeMax && v'.inodeMap[i] { NamedIsLive(v', b', d, i); }
  }

  lemma {:induction false} ReachedIsLeft(v: Fs, names: seq<seq<nat>>, v': Fs, b': Book, i: nat, n: nat)
    requires Closed(v', b') && Left(names, v', b') && DirsOnly(v, names) && Reached(names, i, n)
    requires forall j :: 0 <= j < InodeMax && v'.inodeMap[j] ==> v'.nodes[j].kind == v.nodes[j].kind
    ensures i < InodeMax && v'.inodeMap[i]
    decreases n
  {
    if n > 0 {
      var d: nat :| d < |names| && i in names[d] && Reached(names, d, n - 1);
      ReachedIsLeft(v, names, v', b', d, n - 1);
      assert IsDir(v, d) && IsDir(v', d) && Active(v', d);
      assert b'.names[d] == names[d];
      EntryLive(v', b', d, i);
    }
  }

  lemma EntryLive(v': Fs, b': Book, d: nat, i: nat)
    requires Closed(v', b') && d < InodeMax && i in b'.names[d]
    ensures i < InodeMax && v'.inodeMap[i]
  {
  }

  /** Removing an entry frees exactly the inodes that only it led to. */
  lemma RemovalFrees(v: Fs, names: seq<seq<nat>>, v': Fs, b': Book, i: nat)
    requires Settled(v', b') && Left(names, v', b') && DirsOnly(v, names) && i < InodeMax
    requires forall j :: 0 <= j < InodeMax && v'.inodeMap[j] ==> v'.nodes[j].kind == v.nodes[j].kind
    ensures v'.inodeMap[i] <==> Reachable(names, i)
  {
    assert Open(Seal);
    SettledIsClosed(v', b');
    if v'.inodeMap[i] {
      var n := LiveIsReached(v', b', i);
      StillReached(names, v', b', i, n);
    }
    if Reachable(names, i) { var n: nat :| Reached(names, i, n); ReachedIsLeft(v, names, v', b', i, n); }
  }
}
