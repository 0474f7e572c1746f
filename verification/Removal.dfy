/** rm_recurse (kernel/fs/fs.c:554-594) step by step on values: what a call may rely on, what it
    leaves, and what holds between two turns of its loop. */
module Removal {
  import opened Sealing
  import opened Inodes

  /** The directory being changed is not in the way of the removal of i. */
  predicate Clear(v: Fs, b: Book, hole: int, i: nat)
    requires Shape(v, b) && i < InodeMax
  {
    && i != hole
    && (0 <= hole < InodeMax ==> Active(v, hole) && (v.nodes[i].kind == Dir ==> b.rank[hole] < b.rank[i]))
  }

  predicate ActiveIn(v: Fs, active: set<nat>) {
    forall d :: 0 <= d < |v.nodes| && Active(v, d) ==> d in active
  }

  /** What a call may rely on: one reference to i is waiting to be dropped. */
  ghost predicate Ready(v: Fs, b: Book, hole: int, i: nat, active: set<nat>) {
    && Shape(v, b) && i < InodeMax
    && forall s: Seal {:trigger Open(s)} :: Open(s) ==> Inv(v, b, hole) && i in b.pend && Clear(v, b, hole, i) && ActiveIn(v, active)
  }

  /** Directories that are not removed: all of them for a file, those no deeper for a directory. */
  predicate Sparing(v: Fs, b: Book, v': Fs, b': Book, i: nat)
    requires Shape(v, b) && Shape(v', b') && i < InodeMax
  {
    if v.nodes[i].kind == Dir then SparedUpTo(v, b, v', b', i, b.rank[i]) else AllSpared(v, b, v', b')
  }

  /** What a call leaves: the reference is dropped and the books are right. */
  ghost predicate Done(v: Fs, b: Book, hole: int, i: nat, v': Fs, b': Book) {
    && Shape(v, b) && Shape(v', b') && i < InodeMax
    && forall s: Seal {:trigger Open(s)} :: Open(s) ==>
         Inv(v', b', hole) && b'.pend == b.pend - multiset{i} && Pruned(v, b, v', b') && Sparing(v, b, v', b', i)
  }

  /** Before turn k of the loop over the entries of directory i, which held `list`. */
  ghost predicate Turn(v: Fs, b: Book, hole: int, i: nat, active: set<nat>, w: Fs, c: Book, k: nat) {
    && Ready(v, b, hole, i, active) && v.nodes[i].kind == Dir && k <= |b.names[i]| && Shape(w, c)
    && forall s: Seal {:trigger Open(s)} :: Open(s) ==>
         && Inv(w, c, hole) && c.pend == (b.pend - multiset{i}) + multiset(b.names[i][k..])
         && Pruned(Unlinked(v, i), UnlinkedBook(v, b, i), w, c)
         && SparedUpTo(v, b, w, c, i, b.rank[i])
  }

  lemma MoreLinks(v: Fs, b: Book, hole: int, i: nat, active: set<nat>)
    requires Ready(v, b, hole, i, active) && v.nodes[i].link > 1
    ensures Done(v, b, hole, i, Unlinked(v, i), UnlinkedBook(v, b, i))
  {
    assert Open(Seal);
    PendingIsLive(v, b, hole, i);
    UnlinkedKeeps(v, b, hole, i);
    UnlinkedSpares(v, b, hole, i);
    UnlinkedOnly(v, b, i);
  }

  lemma LastLink(v: Fs, b: Book, hole: int, i: nat, active: set<nat>)
    requires Ready(v, b, hole, i, active) && v.nodes[i].link == 1 && v.nodes[i].kind == File
    ensures Done(v, b, hole, i, Freed(Unlinked(v, i), i), FreedBook(UnlinkedBook(v, b, i), i))
  {
    assert Open(Seal);
    var v1, b1 := Unlinked(v, i), UnlinkedBook(v, b, i);
    PendingIsLive(v, b, hole, i);
    UnlinkedKeeps(v, b, hole, i);
    FreedKeeps(v1, b1, hole, i);
    PrunedSelf(v1, b1);
    PrunedWhole(v, b, i, v1, b1);
    FreedSpares(v, b, i);
  }

  lemma FreedSpares(v: Fs, b: Book, i: nat)
    requires Shape(v, b) && 0 < i < InodeMax && v.nodes[i].kind == File
    ensures
      var v', b' := Freed(Unlinked(v, i), i), FreedBook(UnlinkedBook(v, b, i), i);
      Shape(v', b') ==> AllSpared(v, b, v', b')
  {
  }

  lemma FirstTurn(v: Fs, b: Book, hole: int, i: nat, active: set<nat>)
    requires Ready(v, b, hole, i, active) && v.nodes[i].kind == Dir
    ensures Turn(v, b, hole, i, active, Unlinked(v, i), UnlinkedBook(v, b, i), 0) && i in active
  {
    assert Open(Seal);
    var v1, b1 := Unlinked(v, i), UnlinkedBook(v, b, i);
    PendingIsLive(v, b, hole, i);
    UnlinkedKeeps(v, b, hole, i);
    UnlinkedSpares(v, b, hole, i);
    PrunedSelf(v1, b1);
    assert b.names[i][0..] == b.names[i];
  }

  /** The entries of a directory lie deeper than it does, as long as they are directories. */
  lemma EntryDeeper(v: Fs, b: Book, i: nat, w: Fs, c: Book, k: nat)
    requires Shape(v, b) && i < InodeMax && k < |b.names[i]| && Ranked(v, b) && Pruned(Unlinked(v, i), UnlinkedBook(v, b, i), w, c)
    ensures b.names[i][k] < InodeMax && (w.nodes[b.names[i][k]].kind == Dir ==> b.rank[i] < b.rank[b.names[i][k]])
  {
    var x := b.names[i][k];
    assert x < InodeMax;
    assert Unlinked(v, i).nodes[x].kind == v.nodes[x].kind;
  }

  lemma TurnActive(v: Fs, b: Book, i: nat, active: set<nat>, w: Fs, c: Book)
    requires Shape(v, b) && 0 < i < InodeMax && v.nodes[i].link == 1 && ActiveIn(v, active)
    requires Pruned(Unlinked(v, i), UnlinkedBook(v, b, i), w, c)
    ensures ActiveIn(w, active - {i})
  {
    var v1 := Unlinked(v, i);
    forall d | 0 <= d < |w.nodes| && Active(w, d) ensures d in active - {i} {
      assert Active(v1, d);
      assert d != i ==> Active(v, d);
    }
  }

  lemma TurnClear(v: Fs, b: Book, hole: int, i: nat, w: Fs, c: Book, x: nat)
    requires Shape(v, b) && Shape(w, c) && i < InodeMax && x < InodeMax && Clear(v, b, hole, i) && c.rank == b.rank
    requires v.nodes[i].kind == Dir && SparedUpTo(v, b, w, c, i, b.rank[i])
    requires x != 0 && w.nodes[x].kind != NoType && (w.nodes[x].kind == Dir ==> b.rank[i] < b.rank[x])
    ensures Clear(w, c, hole, x)
  {
    if 0 <= hole < InodeMax { assert Spared(v, b, w, c, hole); }
  }

  lemma InRest(p: multiset<nat>, s: seq<nat>, k: nat)
    requires k < |s|
    ensures s[k] in p + multiset(s[k..])
  {
    assert s[k..][0] == s[k];
    assert s[k] in multiset(s[k..]);
  }

  lemma TurnPending(v: Fs, b: Book, hole: int, i: nat, active: set<nat>, w: Fs, c: Book, k: nat)
    requires Turn(v, b, hole, i, active, w, c, k)
    ensures c.pend == (b.pend - multiset{i}) + multiset(b.names[i][k..])
  {
    assert Open(Seal);
  }

  lemma TurnReady(v: Fs, b: Book, hole: int, i: nat, active: set<nat>, w: Fs, c: Book, k: nat)
    requires Turn(v, b, hole, i, active, w, c, k) && k < |b.names[i]|
    ensures Ready(w, c, hole, b.names[i][k], active - {i})
  {
    assert Open(Seal);
    var x := b.names[i][k];
    TurnPending(v, b, hole, i, active, w, c, k);
    InRest(b.pend - multiset{i}, b.names[i], k);
    PendingIsLive(v, b, hole, i);
    PendingIsLive(w, c, hole, x);
    EntryDeeper(v, b, i, w, c, k);
    TurnClear(v, b, hole, i, w, c, x);
    TurnActive(v, b, i, active, w, c);
  }

  lemma NextSpared(v: Fs, b: Book, i: nat, w: Fs, c: Book, x: nat, w': Fs, c': Book)
    requires Shape(v, b) && Shape(w, c) && Shape(w', c') && i < InodeMax && x < InodeMax && c.rank == b.rank
    requires SparedUpTo(v, b, w, c, i, b.rank[i]) && Sparing(w, c, w', c', x)
    requires w.nodes[x].kind == Dir ==> b.rank[i] < b.rank[x]
    ensures SparedUpTo(v, b, w', c', i, b.rank[i])
  {
    forall d | 0 <= d < InodeMax && Active(v, d) && d != i && b.rank[d] <= b.rank[i] ensures Spared(v, b, w', c', d) {
      assert Spared(v, b, w, c, d) && Active(w, d);
      assert Spared(w, c, w', c', d);
    }
  }

  lemma NextPending(p: multiset<nat>, s: seq<nat>, k: nat)
    requires k < |s|
    ensures (p + multiset(s[k..])) - multiset{s[k]} == p + multiset(s[k + 1..])
  {
    assert s[k..] == [s[k]] + s[k + 1..];
  }

  lemma NextTurn(v: Fs, b: Book, hole: int, i: nat, active: set<nat>, w: Fs, c: Book, k: nat, w': Fs, c': Book)
    requires Turn(v, b, hole, i, active, w, c, k) && k < |b.names[i]| && Done(w, c, hole, b.names[i][k], w', c')
    ensures Turn(v, b, hole, i, active, w', c', k + 1)
  {
    assert Open(Seal);
    NextPending(b.pend - multiset{i}, b.names[i], k);
    PrunedAgain(Unlinked(v, i), UnlinkedBook(v, b, i), w, c, w', c');
    EntryDeeper(v, b, i, w, c, k);
    NextSpared(v, b, i, w, c, b.names[i][k], w', c');
  }

  lemma LastTurnFacts(v: Fs, b: Book, hole: int, i: nat, w: Fs, c: Book)
    requires Inv(v, b, hole) && i in b.pend && i < InodeMax && v.nodes[i].kind == Dir && Inv(w, c, hole)
    requires Pruned(Unlinked(v, i), UnlinkedBook(v, b, i), w, c)
    ensures w.nodes[i] == Unlinked(v, i).nodes[i] && w.inodeMap[i] && Inv(Freed(w, i), FreedBook(c, i), hole)
    ensures Pruned(v, b, Freed(w, i), FreedBook(c, i))
  {
    PendingIsLive(v, b, hole, i);
    assert w.nodes[i] == Unlinked(v, i).nodes[i];
    FreedKeeps(w, c, hole, i);
    PrunedWhole(v, b, i, w, c);
  }

  lemma StillSpared(v: Fs, b: Book, w: Fs, c: Book, i: nat, r: nat)
    requires Shape(v, b) && Shape(w, c) && i < InodeMax && SparedUpTo(v, b, w, c, i, r) && Shape(Freed(w, i), FreedBook(c, i))
    ensures SparedUpTo(v, b, Freed(w, i), FreedBook(c, i), i, r)
  {
    forall d | 0 <= d < InodeMax && Active(v, d) && d != i && b.rank[d] <= r ensures Spared(v, b, Freed(w, i), FreedBook(c, i), d) {
      assert Spared(v, b, w, c, d);
    }
  }

  lemma LastTurn(v: Fs, b: Book, hole: int, i: nat, active: set<nat>, w: Fs, c: Book)
    requires i < |b.names| && Turn(v, b, hole, i, active, w, c, |b.names[i]|)
    ensures Done(v, b, hole, i, Freed(w, i), FreedBook(c, i))
    ensures w.nodes[i] == Unlinked(v, i).nodes[i] && w.inodeMap[i]
  {
    assert Open(Seal);
    LastTurnFacts(v, b, hole, i, w, c);
    StillSpared(v, b, w, c, i, b.rank[i]);
  }

  lemma ReadyKind(v: Fs, b: Book, hole: int, i: nat, active: set<nat>)
    requires Ready(v, b, hole, i, active)
    ensures v.nodes[i].link > 0 && v.inodeMap[i] && (v.nodes[i].kind == File || v.nodes[i].kind == Dir)
  {
    assert Open(Seal);
    PendingIsLive(v, b, hole, i);
  }

  /** The block of a directory about to be removed holds its names. */
  lemma EntriesOnDisk(v: Fs, b: Book, hole: int, i: nat, active: set<nat>)
    requires Ready(v, b, hole, i, active) && v.nodes[i].kind == Dir
    ensures Lists(v, i, b.names[i])
  {
    assert Open(Seal);
    PendingIsLive(v, b, hole, i);
  }

  lemma TurnSlots(v: Fs, b: Book, hole: int, i: nat, active: set<nat>, w: Fs, c: Book, k: nat)
    requires Turn(v, b, hole, i, active, w, c, k) && w.nodes[i].kind == Dir
    ensures Cleared(w.blockMap, w.nodes[i].direct, Slots) == ClearBit(w.blockMap, NumberOf(w.nodes[i].direct[0]))
  {
    TurnOwned(v, b, hole, i, active, w, c, k);
    OneSlot(w, c, i);
    DirCleared(w.blockMap, w.nodes[i].direct, Slots);
  }

  lemma TurnOwned(v: Fs, b: Book, hole: int, i: nat, active: set<nat>, w: Fs, c: Book, k: nat)
    requires Turn(v, b, hole, i, active, w, c, k)
    ensures Owned(w, c)
  {
    assert Open(Seal);
    assert Inv(w, c, hole);
  }

  lemma OneSlot(w: Fs, c: Book, i: nat)
    requires Shape(w, c) && Owned(w, c) && i < InodeMax && w.nodes[i].kind == Dir
    ensures forall s :: 0 < s < Slots ==> w.nodes[i].direct[s] == 0
  {
  }
}
