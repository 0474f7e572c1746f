/** What ls shows (kernel/fs/fs.c:439-447): the type in every directory entry is the type of the inode that
    the entry names, after every run of the operations, so ls shows all entries of a directory. */
module Listings {
  import opened Sealing
  import opened Inodes
  import opened Entries
  import opened Reachability
  import opened Operations
  import opened DiskTrees

  /** The dot entries are directories; behind them the type is that of the inode named. */
  predicate Typing(v: Fs, e: Dentry, k: nat) {
    if k < 2 then e.kind == Dir else e.ino < |v.nodes| && e.kind == v.nodes[e.ino].kind
  }

  predicate KindsAgree(v: Fs) {
    forall d, k :: 0 <= d < |v.nodes| && 0 <= k < |EntriesOf(v, d)| ==> Typing(v, EntriesOf(v, d)[k], k)
  }

  // ---------------------------------------------------------------- touch, mkdir and link

  /** The entries of p are those it had, or the new one behind them. */
  lemma EnteredTyping(v: Fs, b: Book, v': Fs, d: nat, i: nat, e: Dentry, p: nat, k: nat)
    requires Settled(v, b) && d < InodeMax && p < InodeMax && Active(v, d) && KindsAgree(v)
    requires EntriesOf(v, d) != [] && |v'.nodes| == InodeMax
    requires EntriesOf(v', p) == if p == d then EntriesOf(v, d) + [e] else EntriesOf(v, p)
    requires forall j :: 0 <= j < InodeMax && (j != i || v.inodeMap[i]) ==> v'.nodes[j].kind == v.nodes[j].kind
    requires e.ino == i < InodeMax && e.kind == v'.nodes[i].kind && k < |EntriesOf(v', p)|
    ensures Typing(v', EntriesOf(v', p)[k], k)
  {
    Sized(v, b);
    DirBlock(v, b, d);
    if k < |EntriesOf(v, p)| {
      assert Typing(v, EntriesOf(v, p)[k], k) && EntriesOf(v', p)[k] == EntriesOf(v, p)[k];
      if k >= 2 {
        assert Active(v, p);
        EntryIsLive(v, b, p, k);
      }
    }
  }

  lemma TouchTypes(v: Fs, b: Book, v': Fs, d: nat, i: nat, name: string)
    requires Settled(v, b) && d < InodeMax && Active(v, d) && IsTouch(v, v', d, i, name) && KindsAgree(v)
    ensures KindsAgree(v')
  {
    Sized(v, b);
    DirBlock(v, b, d);
    forall j | 0 <= j < InodeMax && Active(v, j) ensures BlockOf(v, j) < |v.disk| { DirBlock(v, b, j); }
    var e := Dentry(File, i, name);
    forall p, k | 0 <= p < InodeMax && 0 <= k < |EntriesOf(v', p)| ensures Typing(v', EntriesOf(v', p)[k], k) {
      if p != i {
        SameEntries(v, b, NewFile(v, i), v', d, i, e, p);
        EnteredTyping(v, b, v', d, i, e, p, k);
      }
    }
  }

  lemma LinkTypes(v: Fs, b: Book, v': Fs, d: nat, i: nat, name: string)
    requires Settled(v, b) && d < InodeMax && Active(v, d) && IsLink(v, v', d, i, name) && KindsAgree(v)
    requires 0 < i < InodeMax && v.nodes[i].kind == File
    ensures KindsAgree(v')
  {
    Sized(v, b);
    DirBlock(v, b, d);
    forall j | 0 <= j < InodeMax && Active(v, j) ensures BlockOf(v, j) < |v.disk| { DirBlock(v, b, j); }
    var e := Dentry(v.nodes[i].kind, i, name);
    forall p, k | 0 <= p < InodeMax && 0 <= k < |EntriesOf(v', p)| ensures Typing(v', EntriesOf(v', p)[k], k) {
      if p != i {
        SameEntries(v, b, Linked(v, i), v', d, i, e, p);
        EnteredTyping(v, b, v', d, i, e, p, k);
      }
    }
  }

  lemma MkdirTypes(v: Fs, b: Book, v': Fs, d: nat, i: nat, k: nat, junk: seq<Dentry>, name: string)
    requires Settled(v, b) && d < InodeMax && Active(v, d) && IsMkdir(v, v', d, i, k, junk, name) && KindsAgree(v)
    ensures KindsAgree(v')
  {
    Sized(v, b);
    DirBlock(v, b, d);
    forall j | 0 <= j < InodeMax && Active(v, j) ensures BlockOf(v, j) < |v.disk| && BlockOf(v, j) != k { DirBlock(v, b, j); }
    var e := Dentry(Dir, i, name);
    NewEntries(v, v', d, i, k, junk, name);
    forall p, n | 0 <= p < InodeMax && 0 <= n < |EntriesOf(v', p)| ensures Typing(v', EntriesOf(v', p)[n], n) {
      if p != i {
        SameEntries(v, b, NewDir(v, i, k, DotBlock(junk, i, d)), v', d, i, e, p);
        EnteredTyping(v, b, v', d, i, e, p, n);
      }
    }
  }

  // ---------------------------------------------------------------- rename and rm

  lemma RenameTypes(v: Fs, b: Book, v': Fs, d: nat, n: nat, name: string)
    requires Settled(v, b) && d < InodeMax && Active(v, d) && HasBlock(v, d) && 2 <= n < v.nodes[d].entries && v' == Renamed(v, d, n, name)
    requires KindsAgree(v)
    ensures KindsAgree(v')
  {
    RenameRenames(v, b, v', d, n, name);
    var x, y := DirsOf(v), DirsOf(v');
    forall p, k | 0 <= p < InodeMax && 0 <= k < |EntriesOf(v', p)| ensures Typing(v', EntriesOf(v', p)[k], k) {
      assert EntriesOf(v', p) == y[p] && EntriesOf(v, p) == x[p];
      assert Typing(v, x[p][k], k);
    }
  }

  lemma RmTypes(v: Fs, b: Book, v': Fs, b': Book, d: nat, n: nat)
    requires Settled(v, b) && Settled(v', b') && d < InodeMax && Active(v, d) && Active(v', d) && IsRm(v, v', d, n) && KindsAgree(v)
    ensures KindsAgree(v')
  {
    Sized(v, b);
    Sized(v', b');
    forall p, k | 0 <= p < InodeMax && 0 <= k < |EntriesOf(v', p)| ensures Typing(v', EntriesOf(v', p)[k], k) {
      RmEntries(v, b, v', b', d, n, p);
      assert Active(v', p);
      var j := if p == d && k >= n + 2 then k + 1 else k;
      assert EntriesOf(v', p)[k] == EntriesOf(v, p)[j] && Typing(v, EntriesOf(v, p)[j], j);
      if k >= 2 { EntryIsLive(v', b', p, k); }
    }
  }

  // ---------------------------------------------------------------- runs

  /** Every operation keeps the types in the entries right, whatever name it gives. */
  lemma OpKeepsKinds(v: Fs, b: Book, op: Op, v': Fs, b': Book)
    requires Settled(v, b) && Settled(v', b') && Does(v, op, v') && KindsAgree(v)
    ensures KindsAgree(v')
  {
    match op {
      case Touch(d, i, name) => TouchTypes(v, b, v', d, i, name);
      case Mkdir(d, i, k, junk, name) => MkdirTypes(v, b, v', d, i, k, junk, name);
      case Link(d, i, name) => LinkTypes(v, b, v', d, i, name);
      case Rename(d, n, name) => RenameTypes(v, b, v', d, n, name);
      case Rm(d, k) => RmTypes(v, b, v', b', d, k);
    }
  }

  lemma RootKinds(v: Fs)
    requires EmptyRoot(v)
    ensures KindsAgree(v)
  {
    BlockNumbers(0);
    assert EntriesOf(v, 0) == v.disk[0][..2];
  }

  lemma OneOp(vs: seq<Fs>, bs: seq<Book>, ops: seq<Op>, n: nat, v: Fs, v': Fs)
    requires IsRun(vs, bs, ops) && 0 < n < |vs| && v == vs[n - 1] && v' == vs[n] && KindsAgree(v)
    ensures KindsAgree(v')
  {
    assert Does(vs[n - 1], ops[n - 1], vs[n - 1 + 1]);
    OpKeepsKinds(v, bs[n - 1], ops[n - 1], v', bs[n]);
  }

  /** From mkfs on the type in every entry is that of the inode it names. */
  lemma {:induction false} RunKinds(vs: seq<Fs>, bs: seq<Book>, ops: seq<Op>, n: nat)
    requires IsRun(vs, bs, ops) && n < |vs|
    ensures KindsAgree(vs[n])
  {
    if n == 0 {
      RootKinds(vs[0]);
    } else {
      RunKinds(vs, bs, ops, n - 1);
      OneOp(vs, bs, ops, n, vs[n - 1], vs[n]);
    }
  }

  // ---------------------------------------------------------------- ls

  /** The entries that ls prints: it stops at the first one without a type. */
  function Shown(block: seq<Dentry>, up: int): seq<Dentry> {
    if block == [] || up <= 0 || block[0].kind == NoType then [] else [block[0]] + Shown(block[1..], up - 1)
  }

  method Ls(block: seq<Dentry>, up: int) returns (lines: seq<Dentry>)
    requires up <= |block|
    ensures lines == Shown(block, up)
  {
    lines := [];
    var i := 0;
    while i < up && block[i].kind != NoType
      invariant 0 <= i && (i <= up || i == 0) && lines + Shown(block[i..], up - i) == Shown(block, up)
    {
      assert block[i..][1..] == block[i + 1..];
      lines := lines + [block[i]];
      i := i + 1;
    }
  }

  lemma {:induction false} ShowsAll(block: seq<Dentry>, up: nat)
    requires up <= |block| && forall k :: 0 <= k < up ==> block[k].kind != NoType
    ensures Shown(block, up) == block[..up]
    decreases up
  {
    if up > 0 { ShowsAll(block[1..], up - 1); }
  }

  /** ls of a directory shows every entry it has, in order, with the type of what it names. */
  lemma LsShowsEntries(v: Fs, b: Book, d: nat)
    requires Settled(v, b) && KindsAgree(v) && d < InodeMax && Active(v, d)
    ensures HasBlock(v, d) && Shown(v.disk[BlockOf(v, d)], v.nodes[d].entries) == EntriesOf(v, d)
  {
    DirBlock(v, b, d);
    var block := v.disk[BlockOf(v, d)];
    forall k | 0 <= k < v.nodes[d].entries ensures block[k].kind != NoType {
      assert Typing(v, EntriesOf(v, d)[k], k);
      if k >= 2 {
        EntryIsLive(v, b, d, k);
        LiveHasType(v, b, EntriesOf(v, d)[k].ino);
      }
    }
    ShowsAll(block, v.nodes[d].entries);
  }

  lemma LiveHasType(v: Fs, b: Book, i: nat)
    requires Settled(v, b) && 0 < i < InodeMax && v.inodeMap[i]
    ensures v.nodes[i].kind != NoType
  {
    assert Open(Seal);
  }
}
