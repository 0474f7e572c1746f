/** The working directory and its string (kernel/fs/fs.c:20-69, 99-190, 202-288, 712-727): the
    loops over character buffers compute what module Paths says. */
module CurrentDir {
  import opened Sealing
  import opened Inodes
  import opened Paths
  import opened Wrappers
  import opened Strings

  const StrMax: nat := 240

  /** Entries name inodes of the table and have names without a NUL. */
  predicate Sound(dirs: Dirs) {
    forall d, k :: 0 <= d < |dirs| && 0 <= k < |dirs[d]| ==> dirs[d][k].ino < |dirs| && NoNul(dirs[d][k].name)
  }

  method StrCpy(a: array<char>, at: nat, s: string)
    requires NoNul(s) && at + |s| < a.Length
    modifies a
    ensures Holds(a[..], at, s) && forall i :: 0 <= i < at ==> a[i] == old(a[i])
  {
    var i := 0;
    while i < |s|
      invariant i <= |s| && (forall j :: 0 <= j < i ==> a[at + j] == s[j]) && forall j :: 0 <= j < at ==> a[j] == old(a[j])
    {
      a[at + i] := s[i];
      i := i + 1;
    }
    a[at + i] := '\0';
  }

  method StrLen(a: array<char>, ghost s: string) returns (n: nat)
    requires Holds(a[..], 0, s)
    ensures n == |s|
  {
    n := 0;
    while a[n] != '\0'
      invariant n <= |s|
      decreases |s| - n
    {
      assert n != |s|;
      n := n + 1;
    }
    FirstNul(a[..], s, n);
  }

  lemma FirstNul(b: seq<char>, s: string, n: nat)
    requires Holds(b, 0, s) && n <= |s| && b[n] == '\0'
    ensures n == |s|
  {
    forall i | 0 <= i < |s| ensures b[i] != '\0' { assert b[0 + i] == s[i]; }
  }

  /** The loop over the entries of one directory. */
  method FindEntry(es: seq<Dentry>, name: string) returns (i: nat)
    ensures i <= |es| && (i == |es| <==> Lookup(es, name).None?) && (i < |es| ==> Lookup(es, name) == Some(es[i].ino))
  {
    i := 0;
    assert es[0..] == es;
    while i < |es| && es[i].name != name
      invariant i <= |es| && Lookup(es, name) == Lookup(es[i..], name)
    {
      assert es[i..][1..] == es[i + 1..];
      i := i + 1;
    }
  }

  /** The component that starts at p is cut off: the loop over its characters, lines 233-245. */
  method NextComponent(a: array<char>, p: nat, ghost s: string) returns (len: nat, last: bool, p': nat, ghost rest: string)
    requires Holds(a[..], p, s)
    modifies a
    ensures len == End(s) && (last <==> len == |s|) && a[p..p + len] == s[..len]
    ensures p' == p + len + 1 && rest == (if last then "" else s[len + 1..]) && (!last ==> Holds(a[..], p', rest))
  {
    len := 0;
    while a[p + len] != '\0' && a[p + len] != '/'
      invariant len <= |s| && forall i :: 0 <= i < len ==> s[i] != '/'
      decreases |s| - len
    {
      assert len < |s| && a[..][p + len] == s[len];
      len := len + 1;
    }
    assert len < |s| ==> a[..][p + len] == s[len];
    EndIs(s, len);
    last := a[p + len] == '\0';
    ghost var was := a[..];
    if !last { a[p + len] := '\0'; }
    CutRest(was, a[..], p, s, len);
    p', rest := p + len + 1, if last then "" else s[len + 1..];
  }

  lemma CutRest(b: seq<char>, b': seq<char>, p: nat, s: string, len: nat)
    requires Holds(b, p, s) && |b'| == |b| && len <= |s| && forall i :: 0 <= i < |b| && i != p + len ==> b'[i] == b[i]
    ensures b'[p..p + len] == s[..len]
    ensures len < |s| ==> Holds(b', p + len + 1, s[len + 1..])
  {
    if len < |s| {
      var t := s[len + 1..];
      forall i | 0 <= i < |t| ensures t[i] == b'[p + len + 1 + i] && t[i] != '\0' { assert t[i] == s[len + 1 + i]; }
    }
  }

  lemma WalkStep(dirs: Dirs, d: nat, s: string)
    requires d < |dirs|
    ensures Walk(dirs, d, Split(s)) ==
      var r := Lookup(dirs[d], s[..End(s)]);
      if r.None? then None else if End(s) == |s| then r else Walk(dirs, r.value, Split(s[End(s) + 1..]))
  {
    var r := Lookup(dirs[d], s[..End(s)]);
    if End(s) == |s| {
      assert s[..|s|] == s && [s][1..] == [];
      if r.Some? { assert Walk(dirs, r.value, []) == r; }
    } else {
      assert Split(s)[1..] == Split(s[End(s) + 1..]);
    }
  }

  class CurrentDir {
    var dirs: Dirs
    var cwd: nat
    var str: array<char>

    predicate Valid()
      reads this
    {
      Sound(dirs) && cwd < |dirs| && str.Length == StrMax
    }

    /** name_parse computes the fold of lookups over the components. */
    method NameParse(name: string) returns (r: Option<nat>)
      requires Valid() && NoNul(name) && |name| < StrMax
      ensures r == Resolve(dirs, cwd, name)
    {
      var buf := new char[StrMax];
      StrCpy(buf, 0, name);
      var p: nat, target: nat := 0, cwd;
      ghost var rest := name;
      assert name != "" ==> buf[..][0 + 0] == name[0];
      if buf[0] == '/' {
        target := 0;
        p := 1;
        rest := name[1..];
      }
      LeadsFirst(dirs, target, rest);
      r := Some(target);
      var stop := false;
      while !stop
        invariant target < |dirs| && buf.Length == StrMax
        invariant stop ==> r == Resolve(dirs, cwd, name)
        invariant !stop ==> Holds(buf[..], p, rest) && r == Some(target) && Leads(dirs, target, rest, Resolve(dirs, cwd, name))
        decreases if stop then 0 else |rest| + 1
      {
        stop, p, target, r, rest := ParseNext(buf, p, target, rest, Resolve(dirs, cwd, name));
      }
    }

    /** One turn of the loop of lines 229-264. */
    method ParseNext(buf: array<char>, p: nat, target: nat, ghost rest: string, ghost goal: Option<nat>)
      returns (stop: bool, p': nat, target': nat, r: Option<nat>, ghost rest': string)
      requires Valid() && buf != str && target < |dirs| && Holds(buf[..], p, rest) && Leads(dirs, target, rest, goal)
      modifies buf
      ensures target' < |dirs| && (stop ==> r == goal)
      ensures !stop ==> |rest'| < |rest| && Holds(buf[..], p', rest') && r == Some(target') && Leads(dirs, target', rest', goal)
    {
      var len, last;
      len, last, p', rest' := NextComponent(buf, p, rest);
      var c := buf[p..p + len];
      LeadsOn(dirs, target, rest, goal, c, rest');
      stop, target', r := last, target, None;
      var i := FindEntry(dirs[target], c);
      if i < |dirs[target]| {
        target' := dirs[target][i].ino;
        r := Some(target');
      } else {
        stop := true;
      }
    }
  
    /** print_absolute_path: the names found on the way up, printed in reverse order. */
    method PrintAbsolutePath(d: nat, ghost rank: seq<nat>) returns (out: string)
      requires Tree(dirs, rank) && IsDirectory(dirs, d) && |PathTo(dirs, rank, d)| <= 10
      ensures out == Rendered(PathTo(dirs, rank, d))
    {
      var buf := dirs[d];
      var cur := d;
      var str: seq<string> := [];
      var top := false;
      while !top
        invariant IsDirectory(dirs, cur) && buf == dirs[cur] && (top ==> cur == 0)
        invariant PathTo(dirs, rank, d) == PathTo(dirs, rank, cur) + Reversed(str)
        decreases rank[cur], if top then 0 else 1
      {
        var parent := buf[1].ino;
        TopIsRoot(dirs, rank, cur);
        if parent == cur {
          top := true;
        } else {
          FoundInParent(dirs, rank, cur);
          buf := dirs[parent];
          var i := 0;
          while buf[i].ino != cur
            invariant i <= Position(buf, cur)
            decreases |buf| - i
          {
            i := i + 1;
          }
          ReversedOn(str, buf[i].name);
          Regrouped(PathTo(dirs, rank, parent), [buf[i].name] + Reversed(str));
          str := str + [buf[i].name];
          cur := parent;
        }
      }
      assert PathTo(dirs, rank, d) == Reversed(str);
      out := PrintBackwards(str);
    }

    /** The loop that prints the names, lines 50-54. */
    method PrintBackwards(str: seq<string>) returns (out: string)
      ensures out == Rendered(Reversed(str))
    {
      out := "/";
      var i := |str|;
      assert str[..i] == str;
      while i > 0
        invariant 0 <= i <= |str| && out + Slashed(Reversed(str[..i])) == Rendered(Reversed(str))
      {
        i := i - 1;
        assert str[..i + 1] == str[..i] + [str[i]];
        ReversedOn(str[..i], str[i]);
        SlashedFirst(str[i], Reversed(str[..i]));
        assert (out + str[i] + "/") + Slashed(Reversed(str[..i])) == out + (str[i] + "/" + Slashed(Reversed(str[..i])));
        out := out + str[i] + "/";
      }
      assert out + "" == out;
    }

    // -------------------------------------------------------------- the string

    /** The string is the path of a directory. */
    ghost predicate Shows(rank: seq<nat>, d: nat)
      reads this, str
      requires Tree(dirs, rank) && IsDirectory(dirs, d)
    {
      Holds(str[..], 0, Rendered(PathTo(dirs, rank, d)))
    }

    /** Lines 170-174: a name and a slash are put behind the string. */
    method Append(n: nat, c: string, ghost s: string)
      requires Holds(str[..], 0, s) && n == |s| && NoNul(c) && |s| + |c| + 1 < str.Length
      modifies str
      ensures Holds(str[..], 0, s + c + "/")
    {
      StrCpy(str, n, c);
      ghost var b := str[..];
      str[n + |c|] := '/';
      str[n + |c| + 1] := '\0';
      Appended(b, str[..], s, c);
    }

    /** Lines 160-166: the last component and its slash are taken off. */
    method GoUp(n: nat, ghost s: string)
      requires Holds(str[..], 0, s) && n == |s| > 0 && UpToSlash(s, |s| - 1) != ""
      modifies str
      ensures Holds(str[..], 0, UpToSlash(s, |s| - 1))
    {
      str[n - 1] := '\0';
      var len := n;
      ghost var b := str[..];
      assert b[n - 1] == '\0' && b[n] == '\0';
      while str[len] != '/'
        invariant 0 <= len <= n && str[..] == b
        invariant len >= n - 1 || UpToSlash(s, len + 1) == UpToSlash(s, n - 1)
        decreases len
      {
        if len < n - 1 { assert b[0 + len] == s[len] && UpToSlash(s, len + 1) == UpToSlash(s, len); }
        assert len > 0;
        len := len - 1;
      }
      str[len] := '/';
      len := len + 1;
      str[len] := '\0';
      ShortHolds(b, str[..], s, len);
    }

    /** One component, lines 151-175. */
    method Enter(c: string, n: nat, ghost rank: seq<nat>, ghost d: nat, ghost e: nat) returns (n': nat)
      requires Tree(dirs, rank) && IsDirectory(dirs, d) && Shows(rank, d) && n == |Rendered(PathTo(dirs, rank, d))|
      requires NoNul(c) && n + |c| + 1 < str.Length && !(c == ".." && d == 0)
      requires Lookup(dirs[d], c) == Some(e) && IsDirectory(dirs, e)
      modifies str
      ensures Shows(rank, e) && n' == |Rendered(PathTo(dirs, rank, e))| <= n + |c| + 1
    {
      ghost var s := Rendered(PathTo(dirs, rank, d));
      EnteredIsPath(dirs, rank, d, c);
      Lengths(s, c);
      n' := n;
      if c == "." {
      } else if c == ".." {
        NotAtRoot(dirs, rank, d);
        GoUp(n, s);
        n' := StrLen(str, UpToSlash(s, |s| - 1));
      } else {
        Append(n, c, s);
        n' := n + |c| + 1;
      }
    }

    /** update_cwd_str for a relative name that resolves: one component after the other is entered
        into the string. */
    method UpdateRelative(name: string, ghost rank: seq<nat>)
      requires Valid() && Tree(dirs, rank) && IsDirectory(dirs, cwd) && Shows(rank, cwd)
      requires NoNul(name) && |Rendered(PathTo(dirs, rank, cwd))| + |name| + 1 < StrMax
      requires !AboveRoot(dirs, cwd, Split(name)) && Walk(dirs, cwd, Split(name)).Some? && IsDirectory(dirs, Walk(dirs, cwd, Split(name)).value)
      modifies str
      ensures Shows(rank, Walk(dirs, cwd, Split(name)).value)
    {
      var buf := new char[StrMax];
      StrCpy(buf, 0, name);
      var n: nat := StrLen(str, Rendered(PathTo(dirs, rank, cwd)));
      var p: nat, target: nat := 0, cwd;
      ghost var rest, goal := name, Walk(dirs, cwd, Split(name)).value;
      Starts(dirs, cwd, name, goal);
      var stop := false;
      while !stop
        invariant buf.Length == StrMax && n >= 0 && Standing(rank, target, n)
        invariant stop ==> target == goal
        invariant !stop ==> Holds(buf[..], p, rest) && n + |rest| + 1 < StrMax && Onward(dirs, target, rest, goal)
        decreases if stop then 0 else |rest| + 1
      {
        stop, p, target, n, rest := EnterNext(buf, p, target, n, rank, rest, goal);
      }
    }

    /** The string is the path of the directory reached. */
    ghost predicate Standing(rank: seq<nat>, d: nat, n: nat)
      reads this, str
    {
      str.Length == StrMax && Tree(dirs, rank) && IsDirectory(dirs, d) && Shows(rank, d) && n == |Rendered(PathTo(dirs, rank, d))|
    }

    /** One turn of the loop of lines 130-188. */
    method EnterNext(buf: array<char>, p: nat, target: nat, n: nat, ghost rank: seq<nat>, ghost rest: string, ghost goal: nat)
      returns (stop: bool, p': nat, target': nat, n': nat, ghost rest': string)
      requires buf != str && Standing(rank, target, n) && IsDirectory(dirs, goal)
      requires Holds(buf[..], p, rest) && n + |rest| + 1 < StrMax && Onward(dirs, target, rest, goal)
      modifies str, buf
      ensures Standing(rank, target', n') && (stop ==> target' == goal)
      ensures !stop ==> |rest'| < |rest| && Holds(buf[..], p', rest') && n' + |rest'| + 1 < StrMax && Onward(dirs, target', rest', goal)
    {
      var len;
      len, stop, p', rest' := NextComponent(buf, p, rest);
      ghost var b := buf[..];
      var c := buf[p..p + len];
      var i := FindEntry(dirs[target], c);
      ghost var e := Next(dirs, rank, target, rest, goal, c, rest');
      n' := Enter(c, n, rank, target, e);
      target' := dirs[target][i].ino;
      assert buf[..] == b;
    }

    /** Lines 117-121: the name and a slash. */
    method SetString(nm: string)
      requires NoNul(nm) && |nm| + 1 < str.Length
      modifies str
      ensures Holds(str[..], 0, nm + "/")
    {
      StrCpy(str, 0, nm);
      ghost var b := str[..];
      str[|nm|] := '/';
      str[|nm| + 1] := '\0';
      Appended(b, str[..], "", nm);
      assert "" + nm + "/" == nm + "/";
    }

    /** do_cd.  An absolute name becomes the string as it stands, with a slash behind it. */
    method Cd(name: string, ghost rank: seq<nat>)
      requires Valid() && Tree(dirs, rank) && IsDirectory(dirs, cwd) && Shows(rank, cwd)
      requires CanCd(dirs, rank, cwd, Standardized(name))
      modifies this`cwd, str
      ensures Valid()
      ensures var r := Resolve(dirs, old(cwd), Standardized(name));
        if r.None? then cwd == old(cwd) && Shows(rank, cwd)
        else cwd == r.value && IsDirectory(dirs, cwd) && (Shows(rank, cwd) <==> !DottedAbsolute(Standardized(name)))
    {
      var nm := if name != "" && name[|name| - 1] == '/' then name[..|name| - 1] else name;
      var r := NameParse(nm);
      if r.None? { return; }
      if nm != "" && nm[0] == '/' {
        AbsoluteCd(dirs, rank, cwd, Rendered(PathTo(dirs, rank, cwd)), nm);
        SetString(nm);
        SameString(str[..], nm + "/", Rendered(PathTo(dirs, rank, r.value)));
      } else {
        UpdateRelative(nm, rank);
      }
      cwd := r.value;
    }
  }

  /** The name fits the buffers, leads to a directory if anywhere, and a relative one does not
      leave the root upwards. */
  ghost predicate CanCd(dirs: Dirs, rank: seq<nat>, cwd: nat, name: string)
    requires Tree(dirs, rank) && IsDirectory(dirs, cwd)
  {
    && NoNul(name) && |Rendered(PathTo(dirs, rank, cwd))| + |name| + 1 < StrMax
    && (Resolve(dirs, cwd, name).Some? ==> IsDirectory(dirs, Resolve(dirs, cwd, name).value))
    && ((name != "" && name[0] == '/') || !AboveRoot(dirs, cwd, Split(name)))
  }

  predicate DottedAbsolute(name: string) { name != "" && name[0] == '/' && !NoDots(Split(name[1..])) }

  lemma SameString(b: seq<char>, s: string, t: string)
    requires Holds(b, 0, s)
    ensures Holds(b, 0, t) <==> s == t
  {
    if Holds(b, 0, t) {
      if |t| <= |s| { FirstNul(b, s, |t|); } else { FirstNul(b, t, |s|); }
      assert |s| == |t|;
      forall i | 0 <= i < |s| ensures s[i] == t[i] { assert b[0 + i] == s[i]; }
    }
  }

  function Reversed(s: seq<string>): seq<string> {
    if s == [] then [] else [s[|s| - 1]] + Reversed(s[..|s| - 1])
  }

  lemma ReversedOn(s: seq<string>, c: string)
    ensures Reversed(s + [c]) == [c] + Reversed(s)
  {
    assert (s + [c])[..|s|] == s;
  }

  lemma SlashedFirst(c: string, cs: seq<string>)
    ensures Slashed([c] + cs) == c + "/" + Slashed(cs)
  {
    assert ([c] + cs)[1..] == cs;
  }

  /** Only the root is its own parent. */
  lemma TopIsRoot(dirs: Dirs, rank: seq<nat>, d: nat)
    requires Tree(dirs, rank) && IsDirectory(dirs, d)
    ensures Parent(dirs, d) == d <==> d == 0
  {
    assert Open(Seal);
    if d != 0 { FoundInParent(dirs, rank, d); }
  }

  /** The rest of the name leads from the directory reached to the goal, without leaving the root. */
  ghost predicate Onward(dirs: Dirs, d: nat, rest: string, goal: nat) {
    forall s: Seal {:trigger Open(s)} :: Open(s) ==>
      Walk(dirs, d, Split(rest)) == Some(goal) && !AboveRoot(dirs, d, Split(rest)) && NoNul(rest)
  }

  lemma Starts(dirs: Dirs, d: nat, rest: string, goal: nat)
    requires Walk(dirs, d, Split(rest)) == Some(goal) && !AboveRoot(dirs, d, Split(rest)) && NoNul(rest)
    ensures Onward(dirs, d, rest, goal)
  {
    assert Open(Seal);
  }

  /** The rest of the name is still to be walked from the directory reached. */
  ghost predicate Leads(dirs: Dirs, d: nat, rest: string, goal: Option<nat>) {
    forall s: Seal {:trigger Open(s)} :: Open(s) ==> Walk(dirs, d, Split(rest)) == goal
  }

  lemma LeadsOn(dirs: Dirs, d: nat, rest: string, goal: Option<nat>, c: string, rest': string)
    requires d < |dirs| && Leads(dirs, d, rest, goal)
    requires c == rest[..End(rest)] && rest' == if End(rest) == |rest| then "" else rest[End(rest) + 1..]
    ensures
      var r := Lookup(dirs[d], c);
      && (r.None? ==> goal == None) && (r.Some? && End(rest) == |rest| ==> goal == r)
      && (r.Some? && End(rest) < |rest| ==> Leads(dirs, r.value, rest', goal))
  {
    assert Open(Seal);
    WalkStep(dirs, d, rest);
  }

  lemma LeadsFirst(dirs: Dirs, d: nat, rest: string)
    ensures Leads(dirs, d, rest, Walk(dirs, d, Split(rest)))
  {
    assert Open(Seal);
  }

  lemma NextIsDirectory(dirs: Dirs, rank: seq<nat>, e: nat, t: string)
    requires Tree(dirs, rank) && Walk(dirs, e, Split(t)).Some?
    ensures IsDirectory(dirs, e)
  {
    assert Open(Seal);
    assert e < |dirs| && Lookup(dirs[e], Split(t)[0]).Some?;
  }

  lemma NextStep(dirs: Dirs, d: nat, rest: string, goal: nat)
    requires d < |dirs| && Onward(dirs, d, rest, goal)
    ensures
      var c := rest[..End(rest)];
      var r := Lookup(dirs[d], c);
      && r.Some? && NoNul(c) && !(c == ".." && d == 0)
      && (End(rest) == |rest| ==> r.value == goal)
      && (End(rest) < |rest| ==> Onward(dirs, r.value, rest[End(rest) + 1..], goal))
  {
    assert Open(Seal);
    WalkStep(dirs, d, rest);
    AboveStep(dirs, d, rest);
    if End(rest) < |rest| { Starts(dirs, Lookup(dirs[d], rest[..End(rest)]).value, rest[End(rest) + 1..], goal); }
  }

  lemma AboveStep(dirs: Dirs, d: nat, s: string)
    requires d < |dirs|
    ensures
      var c := s[..End(s)];
      var r := Lookup(dirs[d], c);
      AboveRoot(dirs, d, Split(s)) <==>
        ((c == ".." && d == 0) || (r.Some? && End(s) < |s| && AboveRoot(dirs, r.value, Split(s[End(s) + 1..]))))
  {
    var cs := Split(s);
    if End(s) < |s| {
      assert cs[0] == s[..End(s)] && cs[1..] == Split(s[End(s) + 1..]);
    } else {
      assert cs == [s] && s[..End(s)] == s && cs[1..] == [];
    }
  }

  lemma Next(dirs: Dirs, rank: seq<nat>, d: nat, rest: string, goal: nat, c: string, rest': string) returns (e: nat)
    requires Tree(dirs, rank) && IsDirectory(dirs, d) && Onward(dirs, d, rest, goal) && IsDirectory(dirs, goal)
    requires c == rest[..End(rest)] && rest' == if End(rest) == |rest| then "" else rest[End(rest) + 1..]
    ensures Lookup(dirs[d], c) == Some(e) && IsDirectory(dirs, e) && NoNul(c) && !(c == ".." && d == 0)
    ensures if End(rest) == |rest| then e == goal else Onward(dirs, e, rest', goal)
  {
    assert Open(Seal);
    NextStep(dirs, d, rest, goal);
    e := Lookup(dirs[d], c).value;
    if End(rest) < |rest| {
      NextIsDirectory(dirs, rank, Lookup(dirs[d], rest[..End(rest)]).value, rest[End(rest) + 1..]);
    }
  }

  lemma Lengths(s: string, c: string)
    ensures |Entered(s, c)| <= |s| + |c| + 1
  {
    if c == ".." && s != "" { UpToShort(s, |s| - 1); }
  }

  lemma {:induction false} UpToShort(s: string, n: nat)
    requires n <= |s|
    ensures |UpToSlash(s, n)| <= n
  {
    if n > 0 && s[n - 1] != '/' { UpToShort(s, n - 1); }
  }

  lemma NotAtRoot(dirs: Dirs, rank: seq<nat>, d: nat)
    requires Tree(dirs, rank) && IsDirectory(dirs, d) && d != 0
    ensures var s := Rendered(PathTo(dirs, rank, d)); UpToSlash(s, |s| - 1) != ""
  {
    DotEntries(dirs, rank, d);
    FoundInParent(dirs, rank, d);
    EnteredIsPath(dirs, rank, d, "..");
    RenderedEnds(PathTo(dirs, rank, Parent(dirs, d)));
  }

  lemma ShortHolds(b: seq<char>, b': seq<char>, s: string, len: nat)
    requires |s| < |b| && NoNul(s) && 0 < len < |s| && s[len - 1] == '/' && (forall i :: 0 <= i < |s| - 1 ==> b[i] == s[i])
    requires b' == b[len - 1 := '/'][len := '\0']
    ensures Holds(b', 0, UpToSlash(s, len))
  {
  }

  lemma Appended(b: seq<char>, b': seq<char>, s: string, c: string)
    requires Holds(b, |s|, c) && NoNul(s) && (forall i :: 0 <= i < |s| ==> b[i] == s[i]) && |s| + |c| + 1 < |b|
    requires b' == b[|s| + |c| := '/'][|s| + |c| + 1 := '\0']
    ensures Holds(b', 0, s + c + "/")
  {
    var t := s + c + "/";
    forall i | 0 <= i < |t| ensures b'[i] == t[i] && t[i] != '\0' {
      if |s| <= i < |s| + |c| { assert b[|s| + (i - |s|)] == c[i - |s|]; }
    }
  }
}
