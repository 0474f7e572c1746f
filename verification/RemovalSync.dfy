/** When rm (kernel/fs/fs.c:596-677) keeps the disk in step with memory: it marks the inodes it frees,
    not the directory that loses the entry, nor a file that only loses a link.  The condition can be
    read off the directories before the call. */
module RemovalSync {
  import opened Sealing
  import opened Inodes
  import opened Entries
  import opened Reachability
  import opened Operations
  import opened Remount

  /** An inode that nothing but entry k of directory d leads to. */
  ghost predicate OnlyHere(v: Fs, d: nat, k: nat, i: nat)
    requires |v.inodeMap| == |v.nodes| == InodeMax && d < InodeMax && k < |OnDisk(v, d)|
  {
    i < InodeMax && v.inodeMap[i] && !Reachable(CutNames(v, d, k), i)
  }

  /** One of them is in the same block of the inode table as i. */
  ghost predicate BlockFreed(v: Fs, d: nat, k: nat, i: nat)
    requires |v.inodeMap| == |v.nodes| == InodeMax && d < InodeMax && k < |OnDisk(v, d)|
  {
    exists f: nat :: OnlyHere(v, d, k, f) && f / PerBlock == i / PerBlock
  }

  /** The entry itself, or an entry in a directory that goes with it, names i. */
  ghost predicate LosesLink(v: Fs, d: nat, k: nat, i: nat)
    requires |v.inodeMap| == |v.nodes| == InodeMax && d < InodeMax && k < |OnDisk(v, d)|
  {
    OnDisk(v, d)[k] == i || exists e: nat :: OnlyHere(v, d, k, e) && i in OnDisk(v, e)
  }

  /** The directory, and every inode that loses a link and stays, share a block with a freed inode. */
  ghost predicate StaysInStep(v: Fs, d: nat, k: nat)
    requires |v.inodeMap| == |v.nodes| == InodeMax && d < InodeMax && k < |OnDisk(v, d)|
  {
    && BlockFreed(v, d, k, d)
    && forall i: nat :: i < InodeMax && Reachable(CutNames(v, d, k), i) && LosesLink(v, d, k, i) ==> BlockFreed(v, d, k, i)
  }

  // ---------------------------------------------------------------- references that disappear

  function Count(s: seq<nat>, i: nat): nat { multiset(s)[i] }

  /** The references to i from the first n directories. */
  function CountUpTo(names: seq<seq<nat>>, i: nat, n: nat): nat
    requires n <= |names|
  {
    if n == 0 then 0 else CountUpTo(names, i, n - 1) + Count(names[n - 1], i)
  }

  lemma {:induction false} CountIsTotal(names: seq<seq<nat>>, i: nat, n: nat)
    requires n <= |names|
    ensures CountUpTo(names, i, n) == Total(names[..n])[i]
  {
    if n > 0 {
      CountIsTotal(names, i, n - 1);
      assert names[..n][..n - 1] == names[..n - 1];
    }
  }

  predicate Fewer(names: seq<seq<nat>>, less: seq<seq<nat>>, i: nat) {
    |names| == |less| && forall e :: 0 <= e < |names| ==> Count(less[e], i) <= Count(names[e], i)
  }

  lemma {:induction false} CountLess(names: seq<seq<nat>>, less: seq<seq<nat>>, i: nat, n: nat)
    requires Fewer(names, less, i) && n <= |names|
    ensures CountUpTo(less, i, n) <= CountUpTo(names, i, n)
    ensures CountUpTo(less, i, n) == CountUpTo(names, i, n) <==> forall e :: 0 <= e < n ==> Count(less[e], i) == Count(names[e], i)
  {
    if n > 0 {
      CountLess(names, less, i, n - 1);
      assert Count(less[n - 1], i) <= Count(names[n - 1], i);
    }
  }

  lemma TotalLess(names: seq<seq<nat>>, less: seq<seq<nat>>, i: nat)
    requires Fewer(names, less, i)
    ensures Total(less)[i] == Total(names)[i] <==> forall e :: 0 <= e < |names| ==> Count(less[e], i) == Count(names[e], i)
  {
    var n := |names|;
    CountIsTotal(names, i, n);
    CountIsTotal(less, i, n);
    assert names[..n] == names && less[..n] == less;
    CountLess(names, less, i, n);
  }

  lemma CountWithout(s: seq<nat>, k: nat, i: nat)
    requires k < |s|
    ensures Count(Without(s, k), i) == Count(s, i) - (if s[k] == i then 1 else 0)
  {
    assert s == s[..k] + [s[k]] + s[k + 1..];
  }

  lemma CountIn(s: seq<nat>, i: nat)
    ensures Count(s, i) > 0 <==> i in s
  {
    assert i in multiset(s) <==> i in s;
  }

  /** What is left of the list of each directory. */
  lemma ListsLeft(v: Fs, b: Book, v': Fs, b': Book, d: nat, k: nat, e: nat)
    requires Settled(v, b) && Settled(v', b') && d < InodeMax && k < |OnDisk(v, d)| && IsRm(v, v', d, k) && e < InodeMax
    ensures OnDisk(v', e) == if v'.inodeMap[e] then CutNames(v, d, k)[e] else []
    ensures OnDisk(v, e) != [] ==> v.inodeMap[e]
  {
    NamesAreOnDisk(v, b);
    NamesAreOnDisk(v', b');
    assert AllOnDisk(v)[e] == OnDisk(v, e) && AllOnDisk(v')[e] == OnDisk(v', e);
    if OnDisk(v, e) != [] { ActiveIsLive(v, b, e); }
    if OnDisk(v', e) != [] { ActiveIsLive(v', b', e); }
    LiveIsLinked(v', b', e);
  }

  lemma LiveIsLinked(v: Fs, b: Book, e: nat)
    requires Settled(v, b) && e < InodeMax
    ensures v.inodeMap[e] ==> v.nodes[e].link > 0
    ensures v.inodeMap[e] && !Active(v, e) ==> !IsDir(v, e)
  {
    assert Open(Seal);
  }

  /** The change in one directory's list, for an inode i. */
  lemma ListShrinks(v: Fs, b: Book, v': Fs, b': Book, d: nat, k: nat, e: nat, i: nat)
    requires Settled(v, b) && Settled(v', b') && d < InodeMax && k < |OnDisk(v, d)| && IsRm(v, v', d, k) && e < InodeMax && v'.inodeMap[d]
    ensures Count(OnDisk(v', e), i) <= Count(OnDisk(v, e), i)
    ensures Count(OnDisk(v', e), i) == Count(OnDisk(v, e), i)
      <==> !(e == d && OnDisk(v, d)[k] == i) && !(OnlyHere(v, d, k, e) && i in OnDisk(v, e))
  {
    ListsLeft(v, b, v', b', d, k, e);
    assert AllOnDisk(v)[e] == OnDisk(v, e);
    CountIn(OnDisk(v, e), i);
    if e == d { CountWithout(OnDisk(v, d), k, i); }
  }

  /** A surviving inode loses a link exactly when the entry, or one in a directory that goes, named it. */
  lemma LinkDiffers(v: Fs, b: Book, v': Fs, b': Book, d: nat, k: nat, i: nat)
    requires Settled(v, b) && Settled(v', b') && d < InodeMax && k < |OnDisk(v, d)| && IsRm(v, v', d, k) && i < InodeMax && v'.inodeMap[d]
    ensures v'.nodes[i].link != v.nodes[i].link <==> LosesLink(v, d, k, i)
  {
    var names, less := AllOnDisk(v), AllOnDisk(v');
    LinksAreEntries(v, b, i);
    LinksAreEntries(v', b', i);
    forall e | 0 <= e < InodeMax
      ensures Count(less[e], i) <= Count(names[e], i)
      ensures Count(less[e], i) == Count(names[e], i) <==> !(e == d && OnDisk(v, d)[k] == i) && !(OnlyHere(v, d, k, e) && i in OnDisk(v, e))
    {
      ListShrinks(v, b, v', b', d, k, e, i);
    }
    TotalLess(names, less, i);
    if LosesLink(v, d, k, i) {
      var e: nat := if OnDisk(v, d)[k] == i then d else (var e: nat :| OnlyHere(v, d, k, e) && i in OnDisk(v, e); e);
      assert Count(less[e], i) != Count(names[e], i);
    }
  }

  lemma GoneIsOnlyHere(v: Fs, v': Fs, d: nat, k: nat, i: nat)
    requires d < |v.nodes| && k < |OnDisk(v, d)| && IsRm(v, v', d, k)
    ensures Marked(Gone(v.inodeMap, v'.inodeMap), i) <==> BlockFreed(v, d, k, i)
  {
    var g := Gone(v.inodeMap, v'.inodeMap);
    forall f: nat ensures f in g <==> OnlyHere(v, d, k, f) {}
    if Marked(g, i) {
      var f :| f in g && f / PerBlock == i / PerBlock;
      assert OnlyHere(v, d, k, f);
    }
    if BlockFreed(v, d, k, i) {
      var f: nat :| OnlyHere(v, d, k, f) && f / PerBlock == i / PerBlock;
      assert f in g;
    }
  }

  /** rm keeps the disk in step if and only if the directory, and every inode that only loses a link,
      share a block of the table with an inode that only the removed entry leads to. */
  lemma RmSyncs(x: Store, b: Book, y: Store, b': Book, d: nat, k: nat)
    requires Settled(x.mem, b) && Settled(y.mem, b') && Synced(x.mem, x.saved)
    requires d < InodeMax && k < |OnDisk(x.mem, d)| && RmStep(x, y, d, k) && y.mem.inodeMap[d]
    ensures Synced(y.mem, y.saved) <==> StaysInStep(x.mem, d, k)
  {
    var v, v' := x.mem, y.mem;
    var g := Gone(v.inodeMap, v'.inodeMap);
    StoredSyncs(v', x.saved, g);
    forall i: nat | i < InodeMax && v'.inodeMap[i]
      ensures v'.nodes[i] != x.saved.nodes[i] <==> i == d || LosesLink(v, d, k, i)
      ensures Marked(g, i) <==> BlockFreed(v, d, k, i)
      ensures Reachable(CutNames(v, d, k), i)
    {
      LinkDiffers(v, b, v', b', d, k, i);
      GoneIsOnlyHere(v, v', d, k, i);
    }
    forall i: nat | i < InodeMax ensures v'.inodeMap[i] <==> Reachable(CutNames(v, d, k), i) {}
  }

  // ---------------------------------------------------------------- the usual cases

  /** Without the entry of something that names nothing, everything else is still reached. */
  lemma {:induction false} AroundLeaf(names: seq<seq<nat>>, d: nat, k: nat, i: nat, n: nat)
    requires d < |names| && k < |names[d]| && Reached(names, i, n) && i != names[d][k]
    requires names[d][k] < |names| ==> names[names[d][k]] == []
    ensures Reachable(names[d := Without(names[d], k)], i)
    decreases n
  {
    var cut := names[d := Without(names[d], k)];
    if n == 0 {
      assert Reached(cut, i, 0);
    } else {
      var e: nat :| e < |names| && i in names[e] && Reached(names, e, n - 1);
      AroundLeaf(names, d, k, e, n - 1);
      if e == d { StillNamed(names[d], k, i); }
      FurtherReachable(cut, e, i);
    }
  }

  lemma StillNamed(s: seq<nat>, k: nat, i: nat)
    requires k < |s| && i in s && (i != s[k] || Count(s, i) > 1)
    ensures i in Without(s, k)
  {
    CountWithout(s, k, i);
    CountIn(s, i);
    CountIn(Without(s, k), i);
  }

  lemma FurtherReachable(names: seq<seq<nat>>, e: nat, i: nat)
    requires e < |names| && i in names[e] && Reachable(names, e)
    ensures Reachable(names, i)
  {
    var n: nat :| Reached(names, e, n);
    OneFurther(names, e, i, n);
  }

  lemma SomeCount(names: seq<seq<nat>>, i: nat, n: nat) returns (e: nat)
    requires n <= |names| && CountUpTo(names, i, n) > 0
    ensures e < n && i in names[e]
  {
    CountIn(names[n - 1], i);
    if Count(names[n - 1], i) > 0 { e := n - 1; } else { e := SomeCount(names, i, n - 1); }
  }

  lemma CutCount(names: seq<seq<nat>>, d: nat, k: nat, n: nat)
    requires d < |names| && k < |names[d]| && n <= |names|
    ensures CountUpTo(names[d := Without(names[d], k)], names[d][k], n) == CountUpTo(names, names[d][k], n) - (if d < n then 1 else 0)
  {
    if n > 0 {
      CutCount(names, d, k, n - 1);
      CountWithout(names[d], k, names[d][k]);
    }
  }

  lemma FileNamesNothing(v: Fs, b: Book, x: nat)
    requires Settled(v, b) && IsFile(v, x)
    ensures OnDisk(v, x) == []
  {
    assert Open(Seal);
  }

  /** Of a file with further links nothing goes; of one with a single link just the file goes. */
  lemma FileGoes(v: Fs, b: Book, d: nat, k: nat, i: nat)
    requires Settled(v, b) && d < InodeMax && k < |OnDisk(v, d)| && IsFile(v, OnDisk(v, d)[k])
    ensures OnlyHere(v, d, k, i) <==> i == OnDisk(v, d)[k] && v.nodes[i].link == 1
  {
    var names, x := AllOnDisk(v), OnDisk(v, d)[k];
    var cut := CutNames(v, d, k);
    NamesAreOnDisk(v, b);
    FileNamesNothing(v, b, x);
    LinksAreEntries(v, b, x);
    CountIsTotal(names, x, InodeMax);
    CutCount(names, d, k, InodeMax);
    assert names[..InodeMax] == names;
    if i < InodeMax && v.inodeMap[i] && i != x {
      AllocatedIsReachable(v, b, i);
      var n: nat :| Reached(names, i, n);
      AroundLeaf(names, d, k, i, n);
    }
    if v.nodes[x].link > 1 {
      var e := SomeCount(cut, x, InodeMax);
      assert e != x;
      assert names[e] != [];
      ActiveIsLive(v, b, e);
      AllocatedIsReachable(v, b, e);
      var n: nat :| Reached(names, e, n);
      AroundLeaf(names, d, k, e, n);
      FurtherReachable(cut, e, x);
    } else {
      if n: nat :| Reached(cut, x, n) { NotNamed(cut, x, n); }
    }
  }

  lemma NotNamed(cut: seq<seq<nat>>, x: nat, n: nat)
    requires CountUpTo(cut, x, |cut|) == 0 && x != 0
    ensures !Reached(cut, x, n)
  {
    if n > 0 {
      forall e: nat | e < |cut| ensures x !in cut[e] {
        CountIn(cut[e], x);
        CountAt(cut, x, e, |cut|);
      }
    }
  }

  lemma {:induction false} CountAt(names: seq<seq<nat>>, i: nat, e: nat, n: nat)
    requires e < n <= |names|
    ensures Count(names[e], i) <= CountUpTo(names, i, n)
  {
    if e < n - 1 { CountAt(names, i, e, n - 1); }
  }

  /** Removing a name of a file: with further links the disk falls out of step in every case; with
      the last link it stays in step if and only if directory and file share a block of the table. */
  lemma RmOfFile(v: Fs, b: Book, d: nat, k: nat)
    requires Settled(v, b) && d < InodeMax && k < |OnDisk(v, d)| && IsFile(v, OnDisk(v, d)[k])
    ensures
      var x := OnDisk(v, d)[k];
      StaysInStep(v, d, k) <==> v.nodes[x].link == 1 && d / PerBlock == x / PerBlock
  {
    var x := OnDisk(v, d)[k];
    forall i: nat ensures OnlyHere(v, d, k, i) <==> i == x && v.nodes[i].link == 1 { FileGoes(v, b, d, k, i); }
    FileNamesNothing(v, b, x);
    if v.nodes[x].link == 1 {
      assert OnlyHere(v, d, k, x);
      forall i: nat | i < InodeMax && Reachable(CutNames(v, d, k), i) ensures !LosesLink(v, d, k, i) {
        assert !OnlyHere(v, d, k, i);
      }
    }
  }
}
