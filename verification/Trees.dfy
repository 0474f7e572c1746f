/** The directory trees that paths are read in, and which changes of the entries keep them. */
module Trees {
  import opened Sealing
  import opened Inodes
  import opened Paths
  import opened Wrappers

  /** An inode that is no directory and that no entry names. */
  ghost predicate Unused(dirs: Dirs, i: nat) {
    0 < i < |dirs| && dirs[i] == [] && forall p, k :: 0 <= p < |dirs| && 0 <= k < |dirs[p]| ==> dirs[p][k].ino != i
  }

  function DotEntries(i: nat, d: nat): seq<Dentry> { [Dentry(Dir, i, "."), Dentry(Dir, d, "..")] }

  lemma {:induction false} PositionAppended(es: seq<Dentry>, e: Dentry, x: nat)
    ensures Position(es, x) < |es| ==> Position(es + [e], x) == Position(es, x)
    ensures Position(es, x) == |es| && e.ino == x ==> Position(es + [e], x) == |es|
  {
    if es == [] {
      assert es + [e] == [e];
    } else if es[0].ino != x {
      assert (es + [e])[1..] == es[1..] + [e];
      PositionAppended(es[1..], e, x);
    }
  }

  /** A name that can be entered in a directory: plain, and not there yet. */
  predicate NewName(es: seq<Dentry>, name: string) { Plain(name) && Lookup(es, name).None? }

  lemma AppendedNames(es: seq<Dentry>, d: nat, e: Dentry)
    requires WellNamed(es, d)
    ensures WellNamed(es + [e], d) <==> NewName(es, e.name)
  {
    LookupFinds(es, e.name);
    var all := es + [e];
    if WellNamed(all, d) {
      assert all[|es|] == e;
      forall k | 0 <= k < |es| ensures es[k].name != e.name { assert all[k].name != all[|es|].name; }
    }
    if NewName(es, e.name) {
      forall j, k | 0 <= j < k < |all| ensures all[j].name != all[k].name {
        assert all[j] == es[j];
        if k < |es| { assert all[k] == es[k]; }
      }
    }
  }

  // ---------------------------------------------------------------- mkfs

  lemma RootIsTree(dirs: Dirs)
    requires |dirs| > 0 && dirs[0] == DotEntries(0, 0) && forall d :: 0 < d < |dirs| ==> dirs[d] == []
    ensures Tree(dirs, seq(|dirs|, _ => 0))
  {
    assert forall p, d, k :: !Names(dirs, p, d, k);
  }

  // ---------------------------------------------------------------- mkdir, touch and link

  /** The entries of t are those of dirs, but for one behind the others of directory d that names
      inode i.  That is no directory, or it is an empty one that nothing named before. */
  ghost predicate Extends(dirs: Dirs, t: Dirs, d: nat, i: nat, name: string) {
    && |t| == |dirs| && IsDirectory(dirs, d) && 0 < i < |dirs| && dirs[i] == []
    && (exists kind :: t[d] == dirs[d] + [Dentry(kind, i, name)])
    && (t[i] == [] || (t[i] == DotEntries(i, d) && Unused(dirs, i)))
    && forall p :: 0 <= p < |dirs| && p != d && p != i ==> t[p] == dirs[p]
  }

  lemma ExtendedNames(dirs: Dirs, t: Dirs, d: nat, i: nat, name: string, p: nat, x: nat, k: nat)
    requires Extends(dirs, t, d, i, name)
    ensures Names(t, p, x, k) <==> Names(dirs, p, x, k) || (p == d && x == i && k == |dirs[d]|)
  {
  }

  lemma ExtendedPosition(dirs: Dirs, t: Dirs, d: nat, i: nat, name: string, p: nat, x: nat)
    requires Extends(dirs, t, d, i, name) && p < |dirs| && IsDirectory(dirs, p)
    ensures Position(dirs[p], x) < |dirs[p]| ==> Position(t[p], x) == Position(dirs[p], x)
    ensures Unused(dirs, i) ==> Position(t[d], i) == |dirs[d]|
  {
    var kind :| t[d] == dirs[d] + [Dentry(kind, i, name)];
    PositionAppended(dirs[d], Dentry(kind, i, name), x);
    PositionAppended(dirs[d], Dentry(kind, i, name), i);
  }

  lemma ExtendedParents(dirs: Dirs, t: Dirs, d: nat, i: nat, name: string, p: nat)
    requires Extends(dirs, t, d, i, name) && IsDirectory(t, p)
    ensures if p == i then Parent(t, p) == d else IsDirectory(dirs, p) && Parent(t, p) == Parent(dirs, p)
  {
  }

  lemma ExtendedWellNamed(dirs: Dirs, rank: seq<nat>, t: Dirs, d: nat, i: nat, name: string, p: nat)
    requires Tree(dirs, rank) && Extends(dirs, t, d, i, name) && IsDirectory(t, p) && NewName(dirs[d], name)
    ensures WellNamed(t[p], p)
  {
    assert Open(Seal);
    if p == d {
      var kind :| t[d] == dirs[d] + [Dentry(kind, i, name)];
      AppendedNames(dirs[d], d, Dentry(kind, i, name));
    }
  }

  lemma ExtendedIsNamed(dirs: Dirs, rank: seq<nat>, t: Dirs, d: nat, i: nat, name: string, p: nat)
    requires Tree(dirs, rank) && Extends(dirs, t, d, i, name) && IsDirectory(t, p) && 0 < p
    ensures
      var q, r := Parent(t, p), rank[i := rank[d] + 1];
      IsDirectory(t, q) && r[q] < r[p] && exists k: nat :: Names(t, q, p, k)
  {
    assert Open(Seal);
    ExtendedParents(dirs, t, d, i, name, p);
    if p == i {
      ExtendedNames(dirs, t, d, i, name, d, i, |dirs[d]|);
    } else {
      var k: nat :| Names(dirs, Parent(dirs, p), p, k);
      ExtendedNames(dirs, t, d, i, name, Parent(dirs, p), p, k);
    }
  }

  lemma ExtendedOnlyThere(dirs: Dirs, rank: seq<nat>, t: Dirs, d: nat, i: nat, name: string, p: nat, x: nat, k: nat)
    requires Tree(dirs, rank) && Extends(dirs, t, d, i, name) && Names(t, p, x, k) && IsDirectory(t, x)
    ensures 0 < x && Parent(t, x) == p && Position(t[p], x) == k
  {
    assert Open(Seal);
    ExtendedNames(dirs, t, d, i, name, p, x, k);
    ExtendedParents(dirs, t, d, i, name, x);
    ExtendedPosition(dirs, t, d, i, name, p, x);
  }

  lemma ExtendedTree(dirs: Dirs, rank: seq<nat>, t: Dirs, d: nat, i: nat, name: string)
    requires Tree(dirs, rank) && Extends(dirs, t, d, i, name) && NewName(dirs[d], name)
    ensures Tree(t, rank[i := rank[d] + 1])
  {
    var r := rank[i := rank[d] + 1];
    assert Open(Seal);
    ExtendedParents(dirs, t, d, i, name, 0);
    forall p | 0 <= p < |t| && IsDirectory(t, p) ensures WellNamed(t[p], p) {
      ExtendedWellNamed(dirs, rank, t, d, i, name, p);
    }
    forall p | 0 < p < |t| && IsDirectory(t, p)
      ensures var q := Parent(t, p); IsDirectory(t, q) && r[q] < r[p] && exists k: nat :: Names(t, q, p, k)
    {
      ExtendedIsNamed(dirs, rank, t, d, i, name, p);
    }
    forall p: nat, x: nat, k: nat | Names(t, p, x, k) && IsDirectory(t, x) ensures 0 < x && Parent(t, x) == p && Position(t[p], x) == k {
      ExtendedOnlyThere(dirs, rank, t, d, i, name, p, x, k);
    }
  }

  /** No call looks whether the name is there, and mkdir does not look for slashes in it: what is
      left is a tree if and only if the name is plain and new. */
  lemma StaysTree(dirs: Dirs, rank: seq<nat>, t: Dirs, d: nat, i: nat, name: string)
    requires Tree(dirs, rank) && Extends(dirs, t, d, i, name)
    ensures (exists r :: Tree(t, r)) <==> NewName(dirs[d], name)
  {
    if NewName(dirs[d], name) {
      ExtendedTree(dirs, rank, t, d, i, name);
    }
    forall r | Tree(t, r) ensures NewName(dirs[d], name) {
      TreeHasNewName(dirs, rank, t, r, d, i, name);
    }
  }

  lemma TreeHasNewName(dirs: Dirs, rank: seq<nat>, t: Dirs, r: seq<nat>, d: nat, i: nat, name: string)
    requires Tree(dirs, rank) && Extends(dirs, t, d, i, name) && Tree(t, r)
    ensures NewName(dirs[d], name)
  {
    assert Open(Seal);
    var kind :| t[d] == dirs[d] + [Dentry(kind, i, name)];
    AppendedNames(dirs[d], d, Dentry(kind, i, name));
    assert IsDirectory(t, d) && WellNamed(t[d], d);
  }

  // ---------------------------------------------------------------- rename

  /** Another name for entry n. */
  function NamedAs(es: seq<Dentry>, n: nat, name: string): (r: seq<Dentry>)
    requires n < |es|
    ensures |r| == |es| && forall k :: 0 <= k < |es| ==> r[k].ino == es[k].ino && (k != n ==> r[k] == es[k])
  {
    es[n := es[n].(name := name)]
  }

  /** A name that entry n can get. */
  predicate NewNameAt(es: seq<Dentry>, n: nat, name: string) {
    Plain(name) && forall k :: 0 <= k < |es| && k != n ==> es[k].name != name
  }

  lemma {:induction false} PositionSame(es: seq<Dentry>, es': seq<Dentry>, x: nat)
    requires |es| == |es'| && forall k :: 0 <= k < |es| ==> es'[k].ino == es[k].ino
    ensures Position(es', x) == Position(es, x)
  {
    if es != [] && es[0].ino != x { PositionSame(es[1..], es'[1..], x); }
  }

  ghost predicate Renames(dirs: Dirs, t: Dirs, d: nat, n: nat, name: string) {
    && |t| == |dirs| && IsDirectory(dirs, d) && 2 <= n < |dirs[d]| && t == dirs[d := NamedAs(dirs[d], n, name)]
  }

  lemma RenamedTree(dirs: Dirs, rank: seq<nat>, t: Dirs, d: nat, n: nat, name: string)
    requires Tree(dirs, rank) && Renames(dirs, t, d, n, name) && NewNameAt(dirs[d], n, name)
    ensures Tree(t, rank)
  {
    assert Open(Seal);
    forall p: nat, x: nat, k: nat ensures Names(t, p, x, k) <==> Names(dirs, p, x, k) {}
    forall p | 0 <= p < |t| ensures IsDirectory(t, p) == IsDirectory(dirs, p) && (IsDirectory(t, p) ==> Parent(t, p) == Parent(dirs, p)) {}
    forall p: nat, x: nat | p < |t| ensures Position(t[p], x) == Position(dirs[p], x) {
      if p == d { PositionSame(dirs[d], t[d], x); }
    }
    RenamedWellNamed(dirs[d], d, n, name);
  }

  lemma RenamedWellNamed(es: seq<Dentry>, d: nat, n: nat, name: string)
    requires WellNamed(es, d) && 2 <= n < |es| && NewNameAt(es, n, name)
    ensures WellNamed(NamedAs(es, n, name), d)
  {
  }

  /** A rename does not look whether the new name is there: what is left is a tree if and only if it is
      plain and no other entry has it. */
  lemma StaysTreeRenamed(dirs: Dirs, rank: seq<nat>, t: Dirs, d: nat, n: nat, name: string)
    requires Tree(dirs, rank) && Renames(dirs, t, d, n, name)
    ensures (exists r :: Tree(t, r)) <==> NewNameAt(dirs[d], n, name)
  {
    if NewNameAt(dirs[d], n, name) { RenamedTree(dirs, rank, t, d, n, name); }
    forall r | Tree(t, r) ensures NewNameAt(dirs[d], n, name) {
      TreeRenamed(dirs, t, r, d, n, name);
    }
  }

  lemma TreeRenamed(dirs: Dirs, t: Dirs, r: seq<nat>, d: nat, n: nat, name: string)
    requires Renames(dirs, t, d, n, name) && Tree(t, r)
    ensures NewNameAt(dirs[d], n, name)
  {
    assert Open(Seal);
    assert IsDirectory(t, d) && WellNamed(t[d], d) && t[d][n].name == name;
    forall k | 0 <= k < |dirs[d]| && k != n ensures dirs[d][k].name != name {
      if k < n { assert t[d][k].name != t[d][n].name; } else { assert t[d][n].name != t[d][k].name; }
    }
  }

  // ---------------------------------------------------------------- rm

  function Dropped(es: seq<Dentry>, n: nat): (r: seq<Dentry>)
    requires n < |es|
    ensures |r| == |es| - 1 && forall k :: 0 <= k < |r| ==> r[k] == if k < n then es[k] else es[k + 1]
  {
    es[..n] + es[n + 1..]
  }

  /** Entry n of directory d is gone, and with it some directories; those that are left are named. */
  ghost predicate Prunes(dirs: Dirs, t: Dirs, d: nat, n: nat) {
    && |t| == |dirs| && IsDirectory(dirs, d) && 2 <= n < |dirs[d]| && t[d] == Dropped(dirs[d], n)
    && (forall p :: 0 <= p < |dirs| && p != d ==> t[p] == dirs[p] || t[p] == [])
    && IsDirectory(t, 0) && forall x :: 0 < x < |t| && IsDirectory(t, x) ==> IsNamed(t, x)
  }

  ghost predicate IsNamed(t: Dirs, x: nat) { exists q: nat, k: nat :: Names(t, q, x, k) }

  /** Where an entry of t stood before. */
  function Before(d: nat, n: nat, p: nat, k: nat): nat { if p == d && k >= n then k + 1 else k }

  lemma PrunedEntry(dirs: Dirs, rank: seq<nat>, t: Dirs, d: nat, n: nat, p: nat, x: nat, k: nat)
    requires Tree(dirs, rank) && Prunes(dirs, t, d, n) && Names(t, p, x, k) && IsDirectory(t, x)
    ensures Names(dirs, p, x, Before(d, n, p, k)) && IsDirectory(dirs, x) && IsDirectory(t, p)
    ensures 0 < x && Parent(t, x) == p && rank[p] < rank[x] && Position(t[p], x) == k
  {
    assert Open(Seal);
    var b := Before(d, n, p, k);
    assert Names(dirs, p, x, b) && IsDirectory(dirs, x);
    assert Parent(dirs, x) == p && Position(dirs[p], x) == b;
    forall j | 0 <= j < k ensures t[p][j].ino != x {
      assert t[p][j] == dirs[p][Before(d, n, p, j)] && Before(d, n, p, j) < b;
    }
    assert t[p][k].ino == x;
  }

  lemma PrunedIsNamed(dirs: Dirs, rank: seq<nat>, t: Dirs, d: nat, n: nat, p: nat)
    requires Tree(dirs, rank) && Prunes(dirs, t, d, n) && IsDirectory(t, p) && 0 < p
    ensures var q := Parent(t, p); IsDirectory(t, q) && rank[q] < rank[p] && exists k: nat :: Names(t, q, p, k)
  {
    assert IsNamed(t, p);
    var q: nat, k: nat :| Names(t, q, p, k);
    PrunedEntry(dirs, rank, t, d, n, q, p, k);
  }

  lemma PrunedTree(dirs: Dirs, rank: seq<nat>, t: Dirs, d: nat, n: nat)
    requires Tree(dirs, rank) && Prunes(dirs, t, d, n)
    ensures Tree(t, rank)
  {
    assert Open(Seal);
    forall p | 0 <= p < |t| && IsDirectory(t, p) ensures WellNamed(t[p], p) { assert WellNamed(dirs[p], p); }
    forall p | 0 < p < |t| && IsDirectory(t, p)
      ensures var q := Parent(t, p); IsDirectory(t, q) && rank[q] < rank[p] && exists k: nat :: Names(t, q, p, k)
    {
      PrunedIsNamed(dirs, rank, t, d, n, p);
    }
    forall p: nat, x: nat, k: nat | Names(t, p, x, k) && IsDirectory(t, x) ensures 0 < x && Parent(t, x) == p && Position(t[p], x) == k {
      PrunedEntry(dirs, rank, t, d, n, p, x, k);
    }
  }
}
