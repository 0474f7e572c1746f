/** The operations of kernel/fs/fs.c on values, from one settled state to the next. */
module Operations {
  import opened Sealing
  import opened Inodes
  import opened Entries
  import opened Removal
  import opened Reachability

  /** The books of an empty root directory. */
  function FirstBook(): Book {
    Book(seq(InodeMax, i => []), multiset{}, seq(InodeMax, i => 0), seq(BlockMax, k => if k == 0 then Slot(0, 0) else Nobody))
  }

  lemma {:induction false} NoNames(names: seq<seq<nat>>)
    requires forall i :: 0 <= i < |names| ==> names[i] == []
    ensures Total(names) == multiset{}
    decreases |names|
  {
    if names != [] { NoNames(names[..|names| - 1]); }
  }

  predicate EmptyRoot(v: Fs) {
    && |v.inodeMap| == |v.nodes| == InodeMax && |v.blockMap| == |v.disk| == BlockMax
    && (forall k :: 0 <= k < BlockMax ==> |v.disk[k]| == DirSlots && (v.blockMap[k] <==> k == 0))
    && (forall i :: 0 <= i < InodeMax ==> |v.nodes[i].direct| == Slots && (v.inodeMap[i] <==> i == 0))
    && (forall i :: 0 < i < InodeMax ==> Blank(v.nodes[i]))
    && v.nodes[0].kind == NoType && v.nodes[0].link == 1 && v.nodes[0].entries == 2 && v.nodes[0].direct[0] == Offset(0)
    && (forall s :: 0 < s < Slots ==> v.nodes[0].direct[s] == 0)
    && v.disk[0][0] == Dentry(Dir, 0, ".") && v.disk[0][1] == Dentry(Dir, 0, "..")
  }

  lemma FirstOwned(v: Fs)
    requires EmptyRoot(v)
    ensures Shape(v, FirstBook()) && Owned(v, FirstBook())
  {
    BlockNumbers(0);
  }

  lemma FirstListed(v: Fs)
    requires EmptyRoot(v)
    ensures Listed(v, FirstBook(), -1)
  {
    BlockNumbers(0);
  }

  lemma FirstSettled(v: Fs)
    requires EmptyRoot(v)
    ensures Settled(v, FirstBook())
  {
    assert Open(Seal);
    var b := FirstBook();
    NoNames(b.names);
    BlockNumbers(0);
    assert Refs(b) == multiset{};
    FirstOwned(v);
    FirstListed(v);
  }

  predicate CanAppend(v: Fs, d: nat) { d < |v.nodes| && d < InodeMax && Active(v, d) && v.nodes[d].entries < DirSlots }

  lemma RoomToAppend(v: Fs, b: Book, d: nat)
    requires Inv(v, b, -1) && CanAppend(v, d)
    ensures HasRoom(v, d) && 2 <= v.nodes[d].entries
  {
    assert Lists(v, d, b.names[d]);
  }

  lemma AppendSettles(v: Fs, b: Book, d: nat, e: Dentry)
    requires Inv(v, b, -1) && b.pend == multiset{e.ino} && AllLinked(v) && CanAppend(v, d) && e.ino < InodeMax
    requires v.nodes[e.ino].kind == Dir ==> b.rank[d] < b.rank[e.ino]
    ensures HasRoom(v, d) && Settled(Appended(v, d, e), AppendedBook(b, d, e.ino)) && Active(Appended(v, d, e), d)
  {
    assert Open(Seal);
    RoomToAppend(v, b, d);
    AppendedKeeps(v, b, d, e);
    AppendedLinked(v, d, e);
  }

  lemma AppendedLinked(v: Fs, d: nat, e: Dentry)
    requires AllLinked(v) && HasRoom(v, d)
    ensures AllLinked(Appended(v, d, e))
  {
  }

  predicate IsTouch(v: Fs, v': Fs, d: nat, i: nat, name: string) {
    && i < |v.nodes| && i < |v.inodeMap| && !v.inodeMap[i] && HasRoom(NewFile(v, i), d)
    && v' == Appended(NewFile(v, i), d, Dentry(File, i, name))
  }

  lemma TouchSettles(v: Fs, b: Book, d: nat, i: nat, name: string)
    requires Settled(v, b) && CanAppend(v, d) && i < InodeMax && !v.inodeMap[i]
    ensures HasRoom(NewFile(v, i), d)
    ensures Settled(Appended(NewFile(v, i), d, Dentry(File, i, name)), AppendedBook(Awaiting(b, i), d, i))
    ensures Active(Appended(NewFile(v, i), d, Dentry(File, i, name)), d)
  {
    assert Open(Seal);
    NewFileKeeps(v, b, i);
    NewFileLinked(v, d, i);
    AppendSettles(NewFile(v, i), Awaiting(b, i), d, Dentry(File, i, name));
  }

  lemma NewFileLinked(v: Fs, d: nat, i: nat)
    requires AllLinked(v) && CanAppend(v, d) && i < InodeMax && Typed(v) && !v.inodeMap[i]
    ensures AllLinked(NewFile(v, i)) && CanAppend(NewFile(v, i), d)
  {
  }

  predicate IsLink(v: Fs, v': Fs, d: nat, i: nat, name: string) {
    && i < |v.nodes| && HasRoom(Linked(v, i), d)
    && v' == Appended(Linked(v, i), d, Dentry(v.nodes[i].kind, i, name))
  }

  lemma LinkedLinked(v: Fs, d: nat, i: nat)
    requires AllLinked(v) && CanAppend(v, d) && i < InodeMax
    ensures AllLinked(Linked(v, i)) && CanAppend(Linked(v, i), d)
  {
  }

  lemma LinkSettles(v: Fs, b: Book, d: nat, i: nat, e: Dentry)
    requires Settled(v, b) && CanAppend(v, d)
    requires 0 < i < InodeMax && v.inodeMap[i] && v.nodes[i].kind == File && e.ino == i
    ensures HasRoom(Linked(v, i), d)
    ensures Settled(Appended(Linked(v, i), d, e), AppendedBook(Awaiting(b, i), d, i))
    ensures Active(Appended(Linked(v, i), d, e), d)
  {
    assert Open(Seal);
    LinkedKeeps(v, b, i);
    LinkedLinked(v, d, i);
    AppendSettles(Linked(v, i), Awaiting(b, i), d, e);
  }

  predicate IsMkdir(v: Fs, v': Fs, d: nat, i: nat, k: nat, junk: seq<Dentry>, name: string) {
    && i < |v.nodes| && i < |v.inodeMap| && !v.inodeMap[i] && k < |v.blockMap| && k < |v.disk| && !v.blockMap[k]
    && |v.nodes[i].direct| == Slots && |junk| == DirSlots && HasRoom(NewDir(v, i, k, DotBlock(junk, i, d)), d)
    && v' == Appended(NewDir(v, i, k, DotBlock(junk, i, d)), d, Dentry(Dir, i, name))
  }

  lemma NewDirLinked(v: Fs, d: nat, i: nat, k: nat, blk: seq<Dentry>)
    requires AllLinked(v) && CanAppend(v, d) && i < InodeMax && Typed(v) && !v.inodeMap[i]
    requires k < |v.blockMap| && k < |v.disk| && |v.nodes[i].direct| == Slots
    ensures AllLinked(NewDir(v, i, k, blk)) && CanAppend(NewDir(v, i, k, blk), d) && d != i
  {
  }

  lemma MkdirSettles(v: Fs, b: Book, d: nat, i: nat, k: nat, blk: seq<Dentry>, name: string)
    requires Settled(v, b) && CanAppend(v, d) && Fresh(v, b, i, k, d, blk)
    ensures HasRoom(NewDir(v, i, k, blk), d)
    ensures Settled(Appended(NewDir(v, i, k, blk), d, Dentry(Dir, i, name)), AppendedBook(NewDirBook(b, i, k, d), d, i))
    ensures Active(Appended(NewDir(v, i, k, blk), d, Dentry(Dir, i, name)), d)
  {
    assert Open(Seal);
    NewDirKeeps(v, b, i, k, d, blk);
    NewDirLinked(v, d, i, k, blk);
    AppendSettles(NewDir(v, i, k, blk), NewDirBook(b, i, k, d), d, Dentry(Dir, i, name));
  }

  // ---------------------------------------------------------------- rm

  function Below(n: nat): (s: set<nat>)
    ensures forall i :: 0 <= i < n ==> i in s
  {
    if n == 0 then {} else Below(n - 1) + {n - 1}
  }

  lemma NamedBelow(v: Fs, b: Book, d: nat, k: nat)
    requires Inv(v, b, -1) && d < InodeMax && k < |b.names[d]|
    ensures Active(v, d) && Clear(v, b, d, b.names[d][k]) && b.names[d][k] < InodeMax
  {
    NamedIsReferred(b.names, d, k);
    assert b.names[d][k] in Refs(b);
  }

  predicate CanRm(v: Fs, b: Book, d: nat, name: string, n: nat) {
    && d < |b.names| && HasBlock(v, d) && Lists(v, d, b.names[d]) && 2 <= n < v.nodes[d].entries && n == FirstNamed(v, d, name, 2)
    && b.names[d][n - 2] < InodeMax
  }

  predicate IsFile(v: Fs, i: nat) { 0 < i < InodeMax && i < |v.inodeMap| && i < |v.nodes| && v.inodeMap[i] && v.nodes[i].kind == File }

  lemma RmBegin(v: Fs, b: Book, d: nat, k: nat)
    requires Settled(v, b) && d < InodeMax && k < |b.names[d]|
    ensures Ready(v, DetachedBook(b, d, k), d, b.names[d][k], Below(InodeMax))
  {
    assert Open(Seal);
    DetachedKeeps(v, b, d, k);
    NamedBelow(v, b, d, k);
    AllBelow(v, InodeMax);
    DetachedPending(b, d, k);
  }

  lemma AllBelow(v: Fs, n: nat)
    requires |v.nodes| <= n
    ensures ActiveIn(v, Below(n))
  {
  }

  lemma DetachedPending(b: Book, d: nat, k: nat)
    requires d < |b.names| && k < |b.names[d]|
    ensures b.names[d][k] in DetachedBook(b, d, k).pend
  {
  }

  predicate CanShift(v: Fs, d: nat, n: nat) {
    HasBlock(v, d) && n < v.nodes[d].entries
  }

  /** The directory after entry n of its block has been taken out. */
  function Cut(v: Fs, d: nat, n: nat): Fs
    requires CanShift(v, d, n)
  {
    Shortened(v, d, Shifted(v.disk[BlockOf(v, d)], n, v.nodes[d].entries))
  }

  lemma RmSpares(v: Fs, b: Book, d: nat, k: nat, v1: Fs, b1: Book)
    requires Settled(v, b) && d < InodeMax && k < |b.names[d]| && b.names[d][k] < InodeMax
    requires Done(v, DetachedBook(b, d, k), d, b.names[d][k], v1, b1)
    ensures v1.nodes[d] == v.nodes[d] && b1.names[d] == Without(b.names[d], k) && v1.disk == v.disk
    ensures b1.pend == multiset{}
  {
    assert Open(Seal);
    NamedBelow(v, b, d, k);
    assert Spared(v, DetachedBook(b, d, k), v1, b1, d);
  }

  lemma CutLinked(v: Fs, d: nat, n: nat)
    requires AllLinked(v) && CanShift(v, d, n)
    ensures AllLinked(Cut(v, d, n))
  {
  }

  lemma RmLists(v: Fs, b: Book, d: nat, k: nat, v1: Fs, b1: Book)
    requires Settled(v, b) && d < InodeMax && k < |b.names[d]| && b.names[d][k] < InodeMax
    requires Done(v, DetachedBook(b, d, k), d, b.names[d][k], v1, b1)
    ensures Lists(v1, d, b.names[d]) && Active(v1, d) && b1.names[d] == Without(b.names[d], k) && b1.pend == multiset{}
    ensures HasBlock(v1, d) && AllLinked(v1)
  {
    assert Open(Seal);
    RmSpares(v, b, d, k, v1, b1);
    NamedBelow(v, b, d, k);
    assert Lists(v, d, b.names[d]);
    DoneLinked(v, DetachedBook(b, d, k), v1, b1);
  }

  lemma CutKeeps(v1: Fs, b1: Book, d: nat, names: seq<nat>, k: nat)
    requires Inv(v1, b1, d) && d < InodeMax && Active(v1, d) && Lists(v1, d, names) && HasBlock(v1, d)
    requires k < |names| && b1.names[d] == Without(names, k)
    ensures CanShift(v1, d, k + 2) && Inv(Cut(v1, d, k + 2), b1, -1) && Active(Cut(v1, d, k + 2), d)
  {
    ShiftedLists(v1, d, names, k);
    ShortenedKeeps(v1, b1, d, Shifted(v1.disk[BlockOf(v1, d)], k + 2, |names| + 2));
  }

  lemma RmEnd(v: Fs, b: Book, d: nat, k: nat, v1: Fs, b1: Book)
    requires Settled(v, b) && d < InodeMax && k < |b.names[d]| && b.names[d][k] < InodeMax
    requires Done(v, DetachedBook(b, d, k), d, b.names[d][k], v1, b1)
    ensures CanShift(v1, d, k + 2) && Settled(Cut(v1, d, k + 2), b1) && Active(Cut(v1, d, k + 2), d)
  {
    assert Open(Seal);
    RmLists(v, b, d, k, v1, b1);
    CutKeeps(v1, b1, d, b.names[d], k);
    CutLinked(v1, d, k + 2);
  }

  lemma DoneLinked(v: Fs, b: Book, v1: Fs, b1: Book)
    requires Pruned(v, b, v1, b1) && AllLinked(v) && forall i :: 0 <= i < InodeMax ==> v1.nodes[i].link >= 0
    ensures AllLinked(v1)
  {
  }

  /** What removing entry k of directory d does: its list loses that entry, exactly the inodes
      that can still be reached stay allocated, and those keep their type and blocks. */
  ghost predicate IsRm(v: Fs, v': Fs, d: nat, k: nat) {
    && |v.nodes| == |v'.nodes| == |v.inodeMap| == |v'.inodeMap| == InodeMax && d < InodeMax && k < |OnDisk(v, d)|
    && OnDisk(v', d) == Without(OnDisk(v, d), k) && CutDisk(v, v', d, k + 2)
    && (forall i :: 0 <= i < InodeMax ==> (v'.inodeMap[i] <==> Reachable(CutNames(v, d, k), i)))
    && (forall e :: 0 <= e < InodeMax && Active(v', e) ==> OnDisk(v', e) == CutNames(v, d, k)[e])
    && KeptNodes(v, v', d)
  }

  /** On the disk the entries behind the removed one move up; no other block changes. */
  predicate CutDisk(v: Fs, v': Fs, d: nat, n: nat) {
    && HasBlock(v, d) && n < v.nodes[d].entries
    && v'.disk == v.disk[BlockOf(v, d) := Shifted(v.disk[BlockOf(v, d)], n, v.nodes[d].entries)]
  }

  /** What the directories name once entry k of d is taken out. */
  function CutNames(v: Fs, d: nat, k: nat): (names: seq<seq<nat>>)
    requires d < |v.nodes| && k < |OnDisk(v, d)|
    ensures |names| == |v.nodes|
  {
    AllOnDisk(v)[d := Without(OnDisk(v, d), k)]
  }

  /** Inodes that stay allocated change in their link count only, and d gets one entry shorter. */
  predicate KeptNodes(v: Fs, v': Fs, d: nat) {
    && |v.nodes| == |v'.nodes| == |v.inodeMap| == |v'.inodeMap| == InodeMax
    && forall i :: 0 <= i < InodeMax && v'.inodeMap[i] ==>
         v.inodeMap[i] && v'.nodes[i] == v.nodes[i].(link := v'.nodes[i].link, entries := v.nodes[i].entries - if i == d then 1 else 0)
  }

  lemma RmList(v: Fs, b: Book, d: nat, k: nat, v': Fs, b': Book)
    requires Settled(v, b) && Settled(v', b') && d < InodeMax && k < |b.names[d]| && b'.names[d] == Without(b.names[d], k)
    ensures AllOnDisk(v) == b.names && OnDisk(v, d) == b.names[d] && OnDisk(v', d) == Without(b.names[d], k)
  {
    assert Open(Seal);
    NamesAreOnDisk(v, b);
    NamesAreOnDisk(v', b');
    assert AllOnDisk(v)[d] == OnDisk(v, d) && AllOnDisk(v')[d] == OnDisk(v', d);
  }

  predicate SameKinds(v: Fs, v': Fs) {
    && |v.nodes| == |v'.nodes| == |v.inodeMap| == |v'.inodeMap| == InodeMax
    && forall i :: 0 <= i < InodeMax && v'.inodeMap[i] ==> v'.nodes[i].kind == v.nodes[i].kind
  }

  lemma RmIs(v: Fs, v': Fs, d: nat, k: nat, names: seq<seq<nat>>)
    requires KeptNodes(v, v', d) && d < InodeMax && |names| == InodeMax && k < |names[d]| && AllOnDisk(v) == names && OnDisk(v, d) == names[d]
    requires OnDisk(v', d) == Without(names[d], k) && CutDisk(v, v', d, k + 2)
    requires forall e :: 0 <= e < InodeMax && Active(v', e) ==> OnDisk(v', e) == names[d := Without(names[d], k)][e]
    requires forall i :: 0 <= i < InodeMax ==> (v'.inodeMap[i] <==> Reachable(names[d := Without(names[d], k)], i))
    ensures IsRm(v, v', d, k)
  {
  }

  lemma RmMeans(v: Fs, b: Book, d: nat, k: nat, v1: Fs, b1: Book)
    requires Settled(v, b) && d < InodeMax && k < |b.names[d]| && d < |b1.names| && b1.names[d] == Without(b.names[d], k)
    requires CanShift(v1, d, k + 2) && Settled(Cut(v1, d, k + 2), b1) && CutDisk(v, Cut(v1, d, k + 2), d, k + 2)
    requires var names := b.names[d := Without(b.names[d], k)];
      Left(names, Cut(v1, d, k + 2), b1) && DirsOnly(v, names) && KeptNodes(v, Cut(v1, d, k + 2), d)
    ensures IsRm(v, Cut(v1, d, k + 2), d, k)
  {
    assert Open(Seal);
    var v' := Cut(v1, d, k + 2);
    RmList(v, b, d, k, v', b1);
    RmReach(v, b.names[d := Without(b.names[d], k)], v', b1);
    NamesAreOnDisk(v', b1);
    forall e | 0 <= e < InodeMax ensures OnDisk(v', e) == b1.names[e] { assert AllOnDisk(v')[e] == OnDisk(v', e); }
    RmIs(v, v', d, k, b.names);
  }

  lemma RmReach(v: Fs, names: seq<seq<nat>>, v': Fs, b': Book)
    requires Settled(v', b') && Left(names, v', b') && DirsOnly(v, names) && SameKinds(v, v')
    ensures forall i :: 0 <= i < InodeMax ==> (v'.inodeMap[i] <==> Reachable(names, i))
  {
    assert Open(Seal);
    forall i | 0 <= i < InodeMax ensures v'.inodeMap[i] <==> Reachable(names, i) {
      RemovalFrees(v, names, v', b', i);
    }
  }

  lemma RmLeft(v: Fs, b: Book, d: nat, k: nat, v1: Fs, b1: Book)
    requires Shape(v, b) && Listed(v, b, -1) && d < InodeMax && k < |b.names[d]| && Pruned(v, DetachedBook(b, d, k), v1, b1) && CanShift(v1, d, k + 2)
    ensures Left(b.names[d := Without(b.names[d], k)], Cut(v1, d, k + 2), b1) && DirsOnly(v, b.names[d := Without(b.names[d], k)])
    ensures KeptNodes(v, Cut(v1, d, k + 2), d)
  {
    var v' := Cut(v1, d, k + 2);
    forall i | 0 <= i < InodeMax ensures Active(v', i) == Active(v1, i) && v'.nodes[i].kind == v1.nodes[i].kind && v'.nodes[i].direct == v1.nodes[i].direct {}
  }

  // ---------------------------------------------------------------- looking a name up

  function FirstNamed(v: Fs, d: nat, name: string, start: nat): (n: nat)
    requires HasBlock(v, d) && start <= v.nodes[d].entries
    ensures start <= n <= v.nodes[d].entries
    ensures n < v.nodes[d].entries ==> v.disk[BlockOf(v, d)][n].name == name
    ensures forall j :: start <= j < n ==> v.disk[BlockOf(v, d)][j].name != name
    decreases v.nodes[d].entries - start
  {
    if start == v.nodes[d].entries || v.disk[BlockOf(v, d)][start].name == name then start else FirstNamed(v, d, name, start + 1)
  }

  predicate NoEntry(v: Fs, d: nat, name: string) {
    HasBlock(v, d) && forall n :: 2 <= n < v.nodes[d].entries ==> v.disk[BlockOf(v, d)][n].name != name
  }

  /** Entry k of directory d, the dot entries not counted, is the first one with this name. */
  predicate IsFirst(v: Fs, d: nat, name: string, k: nat) {
    && HasBlock(v, d) && k + 2 < v.nodes[d].entries && v.disk[BlockOf(v, d)][k + 2].name == name
    && forall n :: 2 <= n < k + 2 ==> v.disk[BlockOf(v, d)][n].name != name
  }

  /** Behind the dot entries the same entry is found as from the start. */
  lemma SettledShows(v: Fs, b: Book, d: nat, name: string)
    requires Settled(v, b) && d < InodeMax && Active(v, d) && name != "." && name != ".."
    ensures HasBlock(v, d) && Lists(v, d, b.names[d]) && v.nodes[d].entries >= 2
    ensures FirstNamed(v, d, name, 0) == FirstNamed(v, d, name, 2)
    ensures var n := FirstNamed(v, d, name, 2); n < v.nodes[d].entries ==> CanRm(v, b, d, name, n)
  {
    assert Open(Seal);
    assert Lists(v, d, b.names[d]);
    FirstShows(v, d, name);
    var n := FirstNamed(v, d, name, 2);
    if n < v.nodes[d].entries { NamedBelow(v, b, d, n - 2); }
  }

  lemma SettledDir(v: Fs, b: Book, d: nat)
    requires Settled(v, b) && d < InodeMax && Active(v, d)
    ensures HasBlock(v, d) && v.nodes[d].entries >= 2
  {
    assert Open(Seal);
    assert Lists(v, d, b.names[d]);
  }

  lemma FirstShows(v: Fs, d: nat, name: string)
    requires HasBlock(v, d) && v.nodes[d].entries >= 2 && v.disk[BlockOf(v, d)][0].name != name && v.disk[BlockOf(v, d)][1].name != name
    ensures FirstNamed(v, d, name, 0) == FirstNamed(v, d, name, 2)
  {
    assert FirstNamed(v, d, name, 0) == FirstNamed(v, d, name, 1);
  }

  /** Looking a name up reads one directory only. */
  lemma {:induction false} SameFirst(v: Fs, v': Fs, d: nat, name: string, start: nat)
    requires HasBlock(v, d) && start <= v.nodes[d].entries && d < |v'.nodes| && v'.nodes[d] == v.nodes[d] && v'.disk == v.disk
    ensures HasBlock(v', d) && FirstNamed(v', d, name, start) == FirstNamed(v, d, name, start)
    decreases v.nodes[d].entries - start
  {
    if start < v.nodes[d].entries && v.disk[BlockOf(v, d)][start].name != name { SameFirst(v, v', d, name, start + 1); }
  }

  /** From the removal of the inode to the end of do_rm. */
  lemma RmFinish(v: Fs, b: Book, d: nat, k: nat, v1: Fs, b1: Book)
    requires Settled(v, b) && d < InodeMax && k < |b.names[d]| && b.names[d][k] < InodeMax
    requires Done(v, DetachedBook(b, d, k), d, b.names[d][k], v1, b1)
    ensures v1.nodes[d] == v.nodes[d] && v1.disk == v.disk
    ensures CanShift(v1, d, k + 2) && Settled(Cut(v1, d, k + 2), b1) && Active(Cut(v1, d, k + 2), d)
    ensures IsRm(v, Cut(v1, d, k + 2), d, k)
  {
    assert Open(Seal);
    RmEnd(v, b, d, k, v1, b1);
    RmSpares(v, b, d, k, v1, b1);
    RmLeft(v, b, d, k, v1, b1);
    CutsDisk(v, v1, d, k + 2);
    RmMeans(v, b, d, k, v1, b1);
  }

  lemma CutsDisk(v: Fs, v1: Fs, d: nat, n: nat)
    requires CanShift(v1, d, n) && d < |v.nodes| && v1.nodes[d] == v.nodes[d] && v1.disk == v.disk
    ensures CutDisk(v, Cut(v1, d, n), d, n)
  {
  }

  lemma SettledFresh(v: Fs, b: Book, i: nat, k: nat, parent: nat, blk: seq<Dentry>)
    requires Settled(v, b) && i < InodeMax && k < BlockMax && parent < InodeMax && !v.inodeMap[i] && !v.blockMap[k]
    requires |blk| == DirSlots && blk[0].name == "." && blk[1].name == ".."
    ensures Fresh(v, b, i, k, parent, blk)
  {
    assert Open(Seal);
  }

  lemma MkdirWorks(v: Fs, b: Book, d: nat, i: nat, k: nat, junk: seq<Dentry>, name: string)
    requires Settled(v, b) && CanAppend(v, d) && i < InodeMax && k < BlockMax && !v.inodeMap[i] && !v.blockMap[k] && |junk| == DirSlots
    ensures HasRoom(NewDir(v, i, k, DotBlock(junk, i, d)), d)
    ensures
      var v' := Appended(NewDir(v, i, k, DotBlock(junk, i, d)), d, Dentry(Dir, i, name));
      Settled(v', AppendedBook(NewDirBook(b, i, k, d), d, i)) && Active(v', d) && IsMkdir(v, v', d, i, k, junk, name)
  {
    assert Open(Seal);
    var blk := DotBlock(junk, i, d);
    SettledFresh(v, b, i, k, d, blk);
    MkdirSettles(v, b, d, i, k, blk, name);
  }

  lemma FoundOrNot(v: Fs, d: nat, name: string)
    requires HasBlock(v, d) && 2 <= v.nodes[d].entries
    ensures var n := FirstNamed(v, d, name, 2);
      if n < v.nodes[d].entries then IsFirst(v, d, name, n - 2) else NoEntry(v, d, name)
  {
  }

  // ---------------------------------------------------------------- rename

  function Renamed(v: Fs, d: nat, n: nat, name: string): Fs
    requires HasBlock(v, d) && n < v.nodes[d].entries
  {
    var k := BlockOf(v, d);
    v.(disk := v.disk[k := v.disk[k][n := v.disk[k][n].(name := name)]])
  }

  lemma RenamedListed(v: Fs, b: Book, d: nat, n: nat, name: string)
    requires Shape(v, b) && Owned(v, b) && Typed(v) && Listed(v, b, -1) && d < InodeMax && Active(v, d)
    requires HasBlock(v, d) && 2 <= n < v.nodes[d].entries
    ensures Shape(Renamed(v, d, n, name), b) && Listed(Renamed(v, d, n, name), b, -1)
  {
    var v' := Renamed(v, d, n, name);
    forall j | 0 <= j < InodeMax && Active(v', j) ensures Lists(v', j, b.names[j]) {
      assert Active(v, j) && Lists(v, j, b.names[j]);
      if j != d { OwnBlock(v, b, d, j); }
    }
  }

  lemma RenamedOwned(v: Fs, b: Book, d: nat, n: nat, name: string)
    requires Shape(v, b) && Owned(v, b) && Typed(v) && Counted(v, b) && Ranked(v, b)
    requires HasBlock(v, d) && n < v.nodes[d].entries && Shape(Renamed(v, d, n, name), b)
    ensures var v' := Renamed(v, d, n, name); Owned(v', b) && Typed(v') && Counted(v', b) && Ranked(v', b)
  {
  }

  /** A new name changes neither what is named nor where. */
  lemma RenameSettles(v: Fs, b: Book, d: nat, n: nat, name: string)
    requires Settled(v, b) && d < InodeMax && Active(v, d) && HasBlock(v, d) && 2 <= n < v.nodes[d].entries
    ensures Settled(Renamed(v, d, n, name), b) && AllOnDisk(Renamed(v, d, n, name)) == AllOnDisk(v)
  {
    RenamedKeeps(v, b, d, n, name);
    NamesAreOnDisk(v, b);
    NamesAreOnDisk(Renamed(v, d, n, name), b);
  }

  lemma RenamedKeeps(v: Fs, b: Book, d: nat, n: nat, name: string)
    requires Settled(v, b) && d < InodeMax && Active(v, d) && HasBlock(v, d) && 2 <= n < v.nodes[d].entries
    ensures Settled(Renamed(v, d, n, name), b)
  {
    assert Open(Seal);
    RenamedListed(v, b, d, n, name);
    RenamedOwned(v, b, d, n, name);
  }
}
