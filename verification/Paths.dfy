/** Paths of kernel/fs/fs.c on values: splitting, walking from directory to directory, the printed
    path of a directory and the string kept for the working directory. */
module Paths {
  import opened Sealing
  import opened Inodes
  import opened Wrappers

  /** The entries of every directory, dot entries included; a file has none. */
  type Dirs = seq<seq<Dentry>>

  // ---------------------------------------------------------------- splitting

  /** The length of the first component. */
  function End(s: string): (n: nat)
    ensures n <= |s| && (forall i :: 0 <= i < n ==> s[i] != '/') && (n < |s| ==> s[n] == '/')
  {
    if s == "" || s[0] == '/' then 0 else 1 + End(s[1..])
  }

  function Split(s: string): (cs: seq<string>)
    ensures cs != []
    decreases |s|
  {
    if End(s) == |s| then [s] else [s[..End(s)]] + Split(s[End(s) + 1..])
  }

  function Join(cs: seq<string>): string
    requires cs != []
  {
    if |cs| == 1 then cs[0] else cs[0] + "/" + Join(cs[1..])
  }

  /** A component as it can stand between slashes. */
  predicate Plain(c: string) { c != "" && forall i :: 0 <= i < |c| ==> c[i] != '/' }

  predicate AllPlain(cs: seq<string>) { forall i :: 0 <= i < |cs| ==> Plain(cs[i]) }

  lemma {:induction false} EndIs(s: string, n: nat)
    requires n <= |s| && (forall i :: 0 <= i < n ==> s[i] != '/') && (n < |s| ==> s[n] == '/')
    ensures End(s) == n
  {
  }

  lemma {:induction false} SplitOfJoin(cs: seq<string>)
    requires cs != [] && AllPlain(cs)
    ensures Split(Join(cs)) == cs
    decreases |cs|
  {
    var s, c := Join(cs), cs[0];
    EndIs(s, |c|);
    assert s[..|c|] == c;
    if |cs| > 1 {
      SplitOfJoin(cs[1..]);
      assert s[|c| + 1..] == Join(cs[1..]);
    }
  }

  lemma {:induction false} JoinOfSplit(s: string)
    ensures Join(Split(s)) == s
    decreases |s|
  {
    if End(s) < |s| {
      var t := s[End(s) + 1..];
      JoinOfSplit(t);
      assert s == s[..End(s)] + "/" + t;
      assert Split(s)[1..] == Split(t);
    }
  }

  // ---------------------------------------------------------------- walking

  function Lookup(es: seq<Dentry>, name: string): (r: Option<nat>) {
    if es == [] then None else if es[0].name == name then Some(es[0].ino) else Lookup(es[1..], name)
  }

  /** One lookup after the other. */
  function Walk(dirs: Dirs, d: nat, cs: seq<string>): Option<nat>
    decreases |cs|
  {
    if cs == [] then Some(d)
    else if d >= |dirs| then None
    else
      var r := Lookup(dirs[d], cs[0]);
      if r.None? then None else Walk(dirs, r.value, cs[1..])
  }

  /** What name_parse computes: an absolute path starts at the root, inode 0. */
  function Resolve(dirs: Dirs, cwd: nat, name: string): Option<nat> {
    if name != "" && name[0] == '/' then Walk(dirs, 0, Split(name[1..])) else Walk(dirs, cwd, Split(name))
  }

  lemma {:induction false} WalkOn(dirs: Dirs, d: nat, cs: seq<string>, c: string)
    ensures Walk(dirs, d, cs + [c]) ==
      var r := Walk(dirs, d, cs);
      if r.None? || r.value >= |dirs| then None else Lookup(dirs[r.value], c)
    decreases |cs|
  {
    var all := cs + [c];
    if cs == [] {
      if d < |dirs| {
        var r := Lookup(dirs[d], c);
        if r.Some? { assert Walk(dirs, r.value, all[1..]) == Some(r.value); }
      }
    } else if d < |dirs| && Lookup(dirs[d], cs[0]).Some? {
      assert all[1..] == cs[1..] + [c];
      WalkOn(dirs, Lookup(dirs[d], cs[0]).value, cs[1..], c);
    }
  }

  // ---------------------------------------------------------------- trees of directories

  predicate IsDirectory(dirs: Dirs, d: nat) { d < |dirs| && |dirs[d]| >= 2 }

  function Parent(dirs: Dirs, d: nat): nat
    requires IsDirectory(dirs, d)
  {
    dirs[d][1].ino
  }

  /** Two dot entries, and behind them different plain names. */
  predicate WellNamed(es: seq<Dentry>, d: nat) {
    && |es| >= 2 && es[0].name == "." && es[0].ino == d && es[1].name == ".."
    && (forall k :: 2 <= k < |es| ==> Plain(es[k].name))
    && (forall j, k :: 0 <= j < k < |es| ==> es[j].name != es[k].name)
  }

  predicate Names(dirs: Dirs, p: nat, d: nat, k: nat) { p < |dirs| && 2 <= k < |dirs[p]| && dirs[p][k].ino == d }

  /** A well-formed tree: the parent of a directory other than the root names it and is nearer to
      the root, and it is named only there and only once. */
  ghost predicate Tree(dirs: Dirs, rank: seq<nat>) {
    |rank| == |dirs| > 0 && IsDirectory(dirs, 0) && forall s: Seal {:trigger Open(s)} :: Open(s) ==> Shaped(dirs, rank)
  }

  ghost predicate Shaped(dirs: Dirs, rank: seq<nat>)
    requires |rank| == |dirs| > 0 && IsDirectory(dirs, 0)
  {
    && Parent(dirs, 0) == 0
    && (forall d :: 0 <= d < |dirs| && IsDirectory(dirs, d) ==> WellNamed(dirs[d], d))
    && (forall d :: 0 < d < |dirs| && IsDirectory(dirs, d) ==>
          var p := Parent(dirs, d); IsDirectory(dirs, p) && rank[p] < rank[d] && exists k: nat :: Names(dirs, p, d, k))
    && (forall p: nat, d: nat, k: nat :: Names(dirs, p, d, k) && IsDirectory(dirs, d) ==>
          0 < d && Parent(dirs, d) == p && Position(dirs[p], d) == k)
    && (forall d :: 0 <= d < |dirs| && dirs[d] != [] ==> IsDirectory(dirs, d))
  }

  /** The position of an inode among the entries of a directory, found by the loop of
      print_absolute_path from the first entry on. */
  function Position(es: seq<Dentry>, d: nat): (k: nat)
    ensures k <= |es| && (forall j :: 0 <= j < k ==> es[j].ino != d) && (k < |es| ==> es[k].ino == d)
  {
    if es == [] || es[0].ino == d then 0 else 1 + Position(es[1..], d)
  }

  /** A directory is found in its parent behind the dot entries. */
  lemma FoundInParent(dirs: Dirs, rank: seq<nat>, d: nat)
    requires Tree(dirs, rank) && IsDirectory(dirs, d) && d != 0
    ensures var p := Parent(dirs, d); IsDirectory(dirs, p) && rank[p] < rank[d] && 2 <= Position(dirs[p], d) < |dirs[p]|
  {
    assert Open(Seal);
    var p := Parent(dirs, d);
    var k: nat :| Names(dirs, p, d, k);
    assert p == 0 || Parent(dirs, p) != d;
    assert WellNamed(dirs[p], p);
  }

  lemma {:induction false} LookupUnique(es: seq<Dentry>, k: nat)
    requires k < |es| && forall i, j :: 0 <= i < j < |es| ==> es[i].name != es[j].name
    ensures Lookup(es, es[k].name) == Some(es[k].ino)
    decreases |es|
  {
    if k > 0 {
      assert es[0].name != es[k].name;
      LookupUnique(es[1..], k - 1);
    }
  }

  lemma {:induction false} LookupFinds(es: seq<Dentry>, name: string)
    ensures Lookup(es, name).None? <==> forall k :: 0 <= k < |es| ==> es[k].name != name
    ensures Lookup(es, name).Some? ==> exists k :: 0 <= k < |es| && es[k].name == name && es[k].ino == Lookup(es, name).value
    decreases |es|
  {
    if es != [] && es[0].name != name {
      LookupFinds(es[1..], name);
      if Lookup(es[1..], name).Some? {
        var k :| 0 <= k < |es[1..]| && es[1..][k].name == name && es[1..][k].ino == Lookup(es, name).value;
        assert es[k + 1].name == name;
      } else {
        forall k | 0 <= k < |es| ensures es[k].name != name { if k > 0 { assert es[1..][k - 1] == es[k]; } }
      }
    }
  }

  /** The names on the way from the root to a directory. */
  ghost function PathTo(dirs: Dirs, rank: seq<nat>, d: nat): seq<string>
    requires Tree(dirs, rank) && IsDirectory(dirs, d)
    decreases rank[d]
  {
    if d == 0 then []
    else
      FoundInParent(dirs, rank, d);
      var p := Parent(dirs, d);
      PathTo(dirs, rank, p) + [dirs[p][Position(dirs[p], d)].name]
  }

  lemma {:induction false} PathLeads(dirs: Dirs, rank: seq<nat>, d: nat)
    requires Tree(dirs, rank) && IsDirectory(dirs, d)
    ensures Walk(dirs, 0, PathTo(dirs, rank, d)) == Some(d) && AllPlain(PathTo(dirs, rank, d))
    ensures PathTo(dirs, rank, d) == [] <==> d == 0
    decreases rank[d]
  {
    assert Open(Seal);
    if d != 0 {
      FoundInParent(dirs, rank, d);
      var p := Parent(dirs, d);
      var k := Position(dirs[p], d);
      PathLeads(dirs, rank, p);
      assert WellNamed(dirs[p], p);
      LookupUnique(dirs[p], k);
      WalkOn(dirs, 0, PathTo(dirs, rank, p), dirs[p][k].name);
    }
  }

  // ---------------------------------------------------------------- printed paths

  function Slashed(cs: seq<string>): string {
    if cs == [] then "" else cs[0] + "/" + Slashed(cs[1..])
  }

  /** What print_absolute_path prints before the line end. */
  function Rendered(cs: seq<string>): string { "/" + Slashed(cs) }

  /** name_str_standrize: one slash at the end is taken off. */
  function Standardized(s: string): string {
    if s != "" && s[|s| - 1] == '/' then s[..|s| - 1] else s
  }

  lemma {:induction false} SlashedIsJoin(cs: seq<string>)
    requires cs != []
    ensures Slashed(cs) == Join(cs) + "/"
    decreases |cs|
  {
    if |cs| > 1 { SlashedIsJoin(cs[1..]); } else { assert cs[1..] == []; }
  }

  lemma StandardizedRendered(cs: seq<string>)
    ensures Standardized(Rendered(cs)) == if cs == [] then "" else "/" + Join(cs)
  {
    if cs != [] { SlashedIsJoin(cs); }
  }

  lemma NoEmptyName(dirs: Dirs, rank: seq<nat>, cwd: nat)
    requires Tree(dirs, rank) && IsDirectory(dirs, cwd)
    ensures Lookup(dirs[cwd], "").None?
  {
    assert Open(Seal);
    LookupFinds(dirs[cwd], "");
    assert WellNamed(dirs[cwd], cwd);
  }

  /** The printed path of a directory, standardised, resolves to that directory if and only if it
      is not the root: the root prints as "/", which is standardised to the empty name. */
  lemma PrintedPathResolves(dirs: Dirs, rank: seq<nat>, cwd: nat, d: nat)
    requires Tree(dirs, rank) && IsDirectory(dirs, cwd) && IsDirectory(dirs, d)
    ensures Resolve(dirs, cwd, Standardized(Rendered(PathTo(dirs, rank, d)))) == (if d != 0 then Some(d) else None)
  {
    var cs := PathTo(dirs, rank, d);
    PathLeads(dirs, rank, d);
    StandardizedRendered(cs);
    if d == 0 {
      NoEmptyName(dirs, rank, cwd);
      assert Split("") == [""];
    } else {
      SplitOfJoin(cs);
      assert ("/" + Join(cs))[1..] == Join(cs);
    }
  }

  // ---------------------------------------------------------------- the working directory's string

  predicate NoDots(cs: seq<string>) { forall i :: 0 <= i < |cs| ==> !Dots(cs[i]) }

  predicate Dots(c: string) { c == "." || c == ".." }

  /** The part of a string up to its last slash before position n. */
  function UpToSlash(s: string, n: nat): string
    requires n <= |s|
  {
    if n == 0 then "" else if s[n - 1] == '/' then s[..n] else UpToSlash(s, n - 1)
  }

  /** What one component does to the string, lines 153-175. */
  function Entered(s: string, c: string): string {
    if c == "." then s else if c == ".." then (if s == "" then "" else UpToSlash(s, |s| - 1)) else s + c + "/"
  }

  function EnteredAll(s: string, cs: seq<string>): string
    decreases |cs|
  {
    if cs == [] then s else EnteredAll(Entered(s, cs[0]), cs[1..])
  }

  /** update_cwd_str. */
  function Updated(s: string, name: string): string {
    if name != "" && name[0] == '/' then name + "/" else EnteredAll(s, Split(name))
  }

  lemma {:induction false} SlashedOn(cs: seq<string>, c: string)
    ensures Slashed(cs + [c]) == Slashed(cs) + c + "/"
    decreases |cs|
  {
    if cs == [] {
      assert ([] + [c])[1..] == [];
      assert Slashed([c]) == c + "/" + Slashed([]);
    } else {
      assert (cs + [c])[1..] == cs[1..] + [c];
      SlashedOn(cs[1..], c);
    }
  }

  lemma {:induction false} UpToSlashSkips(s: string, c: string, n: nat)
    requires n <= |c| && s != "" && s[|s| - 1] == '/' && Plain(c)
    ensures UpToSlash(s + c + "/", |s| + n) == s
    decreases n
  {
    var t := s + c + "/";
    if n == 0 {
      assert t[..|s|] == s;
    } else {
      assert t[|s| + n - 1] == c[n - 1];
      UpToSlashSkips(s, c, n - 1);
    }
  }

  lemma {:induction false} RenderedEnds(cs: seq<string>)
    ensures Rendered(cs) != "" && Rendered(cs)[|Rendered(cs)| - 1] == '/'
  {
    if cs != [] { SlashedIsJoin(cs); }
  }

  /** An ordinary name leads from a directory to one whose path is longer by that name. */
  lemma StepDown(dirs: Dirs, rank: seq<nat>, d: nat, c: string)
    requires Tree(dirs, rank) && IsDirectory(dirs, d) && !Dots(c)
    requires Lookup(dirs[d], c).Some? && IsDirectory(dirs, Lookup(dirs[d], c).value)
    ensures PathTo(dirs, rank, Lookup(dirs[d], c).value) == PathTo(dirs, rank, d) + [c] && Plain(c)
  {
    assert Open(Seal);
    var e := Lookup(dirs[d], c).value;
    LookupFinds(dirs[d], c);
    assert WellNamed(dirs[d], d);
    var k :| 0 <= k < |dirs[d]| && dirs[d][k].name == c && dirs[d][k].ino == e;
    assert Names(dirs, d, e, k);
  }

  lemma DotEntries(dirs: Dirs, rank: seq<nat>, d: nat)
    requires Tree(dirs, rank) && IsDirectory(dirs, d)
    ensures Lookup(dirs[d], ".") == Some(d) && Lookup(dirs[d], "..") == Some(Parent(dirs, d))
  {
    assert Open(Seal);
    assert WellNamed(dirs[d], d);
    LookupUnique(dirs[d], 0);
    LookupUnique(dirs[d], 1);
  }

  /** The path of a directory is that of its parent and a plain name. */
  lemma StepUp(dirs: Dirs, rank: seq<nat>, d: nat) returns (n: string)
    requires Tree(dirs, rank) && IsDirectory(dirs, d) && d != 0
    ensures IsDirectory(dirs, Parent(dirs, d)) && Plain(n) && PathTo(dirs, rank, d) == PathTo(dirs, rank, Parent(dirs, d)) + [n]
  {
    assert Open(Seal);
    FoundInParent(dirs, rank, d);
    var p := Parent(dirs, d);
    n := dirs[p][Position(dirs[p], d)].name;
    assert WellNamed(dirs[p], p);
  }

  lemma EnteredUp(up: seq<string>, n: string)
    requires Plain(n)
    ensures Entered(Rendered(up + [n]), "..") == Rendered(up)
  {
    var s := Rendered(up + [n]);
    SlashedOn(up, n);
    RenderedEnds(up);
    assert s == Rendered(up) + n + "/";
    UpToSlashSkips(Rendered(up), n, |n|);
  }

  lemma EnteredDown(cs: seq<string>, c: string)
    requires !Dots(c)
    ensures Entered(Rendered(cs), c) == Rendered(cs + [c])
  {
    SlashedOn(cs, c);
    assert "/" + (Slashed(cs) + c + "/") == ("/" + Slashed(cs)) + c + "/";
  }

  /** One component keeps the string equal to the path, except ".." at the root. */
  lemma EnteredIsPath(dirs: Dirs, rank: seq<nat>, d: nat, c: string)
    requires Tree(dirs, rank) && IsDirectory(dirs, d) && !(c == ".." && d == 0)
    requires Lookup(dirs[d], c).Some? && IsDirectory(dirs, Lookup(dirs[d], c).value)
    ensures Entered(Rendered(PathTo(dirs, rank, d)), c) == Rendered(PathTo(dirs, rank, Lookup(dirs[d], c).value))
  {
    DotEntries(dirs, rank, d);
    var cs := PathTo(dirs, rank, d);
    if c == ".." {
      var n := StepUp(dirs, rank, d);
      EnteredUp(PathTo(dirs, rank, Parent(dirs, d)), n);
    } else if c != "." {
      StepDown(dirs, rank, d, c);
      EnteredDown(cs, c);
    }
  }

  /** Some component is ".." where the walk stands at the root. */
  predicate AboveRoot(dirs: Dirs, d: nat, cs: seq<string>)
    decreases |cs|
  {
    cs != [] && ((cs[0] == ".." && d == 0)
                 || (d < |dirs| && Lookup(dirs[d], cs[0]).Some? && AboveRoot(dirs, Lookup(dirs[d], cs[0]).value, cs[1..])))
  }

  lemma {:induction false} EnteredAllIsPath(dirs: Dirs, rank: seq<nat>, d: nat, cs: seq<string>)
    requires Tree(dirs, rank) && IsDirectory(dirs, d) && !AboveRoot(dirs, d, cs)
    requires Walk(dirs, d, cs).Some? && IsDirectory(dirs, Walk(dirs, d, cs).value)
    ensures EnteredAll(Rendered(PathTo(dirs, rank, d)), cs) == Rendered(PathTo(dirs, rank, Walk(dirs, d, cs).value))
    decreases |cs|
  {
    assert Open(Seal);
    if cs != [] {
      var e := Lookup(dirs[d], cs[0]).value;
      if |cs| > 1 {
        assert e < |dirs| && Lookup(dirs[e], cs[1]).Some?;
      } else {
        assert cs[1..] == [];
      }
      EnteredIsPath(dirs, rank, d, cs[0]);
      EnteredAllIsPath(dirs, rank, e, cs[1..]);
    }
  }

  lemma Regrouped(a: seq<string>, cs: seq<string>)
    requires cs != []
    ensures a + [cs[0]] + cs[1..] == a + cs
  {
  }

  lemma {:induction false} WalkDown(dirs: Dirs, rank: seq<nat>, d: nat, cs: seq<string>)
    requires Tree(dirs, rank) && IsDirectory(dirs, d) && NoDots(cs)
    requires Walk(dirs, d, cs).Some? && IsDirectory(dirs, Walk(dirs, d, cs).value)
    ensures PathTo(dirs, rank, Walk(dirs, d, cs).value) == PathTo(dirs, rank, d) + cs
    decreases |cs|
  {
    assert Open(Seal);
    if cs != [] {
      var e := Lookup(dirs[d], cs[0]).value;
      if |cs| > 1 {
        assert e < |dirs| && Lookup(dirs[e], cs[1]).Some?;
      } else {
        assert cs[1..] == [];
      }
      StepDown(dirs, rank, d, cs[0]);
      WalkDown(dirs, rank, e, cs[1..]);
      Regrouped(PathTo(dirs, rank, d), cs);
    }
  }

  lemma {:induction false} PathHasNoDots(dirs: Dirs, rank: seq<nat>, d: nat)
    requires Tree(dirs, rank) && IsDirectory(dirs, d)
    ensures NoDots(PathTo(dirs, rank, d))
    decreases rank[d]
  {
    assert Open(Seal);
    if d != 0 {
      FoundInParent(dirs, rank, d);
      var p := Parent(dirs, d);
      PathHasNoDots(dirs, rank, p);
      assert WellNamed(dirs[p], p);
    }
  }

  /** cd with an absolute name sets the string to the path of the new directory if and only if no
      component of the name is a dot entry. */
  lemma AbsoluteCd(dirs: Dirs, rank: seq<nat>, cwd: nat, s: string, name: string)
    requires Tree(dirs, rank) && name != "" && name[0] == '/'
    requires Resolve(dirs, cwd, name).Some? && IsDirectory(dirs, Resolve(dirs, cwd, name).value)
    ensures
      var path := PathTo(dirs, rank, Resolve(dirs, cwd, name).value);
      Updated(s, name) == Rendered(path) <==> NoDots(Split(name[1..]))
  {
    var cs, d := Split(name[1..]), Resolve(dirs, cwd, name).value;
    var path := PathTo(dirs, rank, d);
    JoinOfSplit(name[1..]);
    assert name == "/" + name[1..];
    if NoDots(cs) {
      WalkDown(dirs, rank, 0, cs);
      SlashedIsJoin(cs);
      assert path == cs;
      assert ("/" + name[1..]) + "/" == "/" + (name[1..] + "/");
    }
    if Updated(s, name) == Rendered(path) {
      SameRendering(name, path);
      PathLeads(dirs, rank, d);
      SplitOfJoin(path);
      PathHasNoDots(dirs, rank, d);
      assert cs == path;
    }
  }

  lemma SameRendering(name: string, path: seq<string>)
    requires name != "" && name[0] == '/' && name + "/" == Rendered(path)
    ensures path != [] && name[1..] == Join(path)
  {
    if path != [] {
      SlashedIsJoin(path);
      var a, b := name + "/", "/" + Join(path) + "/";
      assert a[1..|a| - 1] == name[1..];
      assert b[1..|b| - 1] == Join(path);
    }
  }

  /** cd with a relative name keeps the string equal to the path, as long as it does not ask for
      the parent of the root. */
  lemma RelativeCd(dirs: Dirs, rank: seq<nat>, cwd: nat, name: string)
    requires Tree(dirs, rank) && IsDirectory(dirs, cwd) && !(name != "" && name[0] == '/') && !AboveRoot(dirs, cwd, Split(name))
    requires Resolve(dirs, cwd, name).Some? && IsDirectory(dirs, Resolve(dirs, cwd, name).value)
    ensures Updated(Rendered(PathTo(dirs, rank, cwd)), name) == Rendered(PathTo(dirs, rank, Resolve(dirs, cwd, name).value))
  {
    EnteredAllIsPath(dirs, rank, cwd, Split(name));
  }
}
