/** The file system operations of kernel/fs/fs.c as methods on the global tables, each of which
    keeps the books of module Inodes. */
module FileSystem {
  import opened Inodes
  import opened Removal
  import opened Entries
  import opened Reachability
  import opened Operations
  import opened Remount
  import opened Mounting
  import P = Paths

  class FileSystem {
    var inodeMap: seq<bool>
    var blockMap: seq<bool>
    var nodes: seq<Inode>
    var disk: seq<seq<Dentry>>
    var cwd: nat
    var dirty: seq<bool>
    var saved: Saved
    ghost var book: Book
    ghost var marks: set<nat>

    function State(): Fs
      reads this
    {
      Fs(inodeMap, blockMap, nodes, disk)
    }

    // -------------------------------------------------------------- write-back

    /** The inodes freed since a moment are among the marked ones, and nothing else is newly marked. */
    ghost predicate Tracked(was: seq<bool>, before: set<nat>)
      reads this
    {
      FlagsOk(dirty, marks) && Shrunk(was, inodeMap) && marks == before + Gone(was, inodeMap)
    }

    /** mark_inode_dirty. */
    method MarkInodeDirty(i: nat)
      requires FlagsOk(dirty, marks) && i < InodeMax
      modifies this`dirty, this`marks
      ensures FlagsOk(dirty, marks) && marks == old(marks) + {i}
    {
      Flagged(dirty, marks, i);
      dirty := dirty[i / PerBlock := true];
      marks := marks + {i};
    }

    /** One do_fs_write of update_inode: a block of the table. */
    method WriteBlock(b: nat)
      requires |nodes| == |saved.nodes| == InodeMax && b < DirtyMax
      modifies this`saved
      ensures |saved.nodes| == InodeMax && saved == old(saved).(nodes := saved.nodes)
      ensures forall n :: 0 <= n < InodeMax ==> saved.nodes[n] == if n / PerBlock == b then nodes[n] else old(saved).nodes[n]
    {
      var st, from, to := b * PerBlock, nodes, saved.nodes;
      saved := saved.(nodes := seq(InodeMax, n requires 0 <= n < InodeMax && |from| == |to| == InodeMax =>
        if st <= n < st + PerBlock then from[n] else to[n]));
      forall n: nat ensures n / PerBlock == b <==> st <= n < st + PerBlock { InBlock(n, b); }
    }

    method FlushBlock(b: nat, ghost all: set<nat>, ghost before: seq<Inode>)
      requires |dirty| == DirtyMax && b < DirtyMax && UpTo(b, all, nodes, before, saved.nodes) && dirty[b] == Marked(all, b * PerBlock)
      modifies this`saved, this`dirty
      ensures UpTo(b + 1, all, nodes, before, saved.nodes) && saved == old(saved).(nodes := saved.nodes)
      ensures dirty == old(dirty)[b := false]
    {
      ghost var was := saved.nodes;
      if dirty[b] {
        dirty := dirty[b := false];
        WriteBlock(b);
      }
      OneBlock(b, all, nodes, before, was, saved.nodes);
    }

    /** update_inode: the flagged blocks of the table are written, and no flag stays set. */
    method UpdateInode()
      requires FlagsOk(dirty, marks) && |nodes| == |saved.nodes| == InodeMax
      modifies this`saved, this`dirty, this`marks
      ensures FlagsOk(dirty, marks) && marks == {}
      ensures saved == old(saved).(nodes := Flushed(nodes, old(saved).nodes, old(marks)))
    {
      ghost var before, all := saved, marks;
      var i := 0;
      while i < DirtyMax
        invariant i <= DirtyMax && |dirty| == DirtyMax && saved == before.(nodes := saved.nodes)
        invariant forall b :: 0 <= b < DirtyMax ==> dirty[b] == (i <= b && Marked(all, b * PerBlock))
        invariant UpTo(i, all, nodes, before.nodes, saved.nodes)
      {
        FlushBlock(i, all, before.nodes);
        i := i + 1;
      }
      marks := {};
      AllWritten(all, nodes, before.nodes, saved.nodes);
    }

    /** update_bit_map. */
    method UpdateBitMap()
      modifies this`saved
      ensures saved == Saved(inodeMap, blockMap, old(saved).nodes)
    {
      saved := Saved(inodeMap, blockMap, saved.nodes);
    }

    /** Bitmaps and marked inodes are written. */
    method WriteBack()
      requires FlagsOk(dirty, marks) && Sizes(State(), saved)
      modifies this`saved, this`dirty, this`marks
      ensures FlagsOk(dirty, marks) && marks == {} && Sizes(State(), saved) && saved == Stored(State(), old(saved), old(marks))
    {
      UpdateBitMap();
      UpdateInode();
    }

    // -------------------------------------------------------------- removal

    /** free_inode, after the block bits of the inode have been cleared. */
    method FreeInode(i: nat, ghost v: Fs)
      requires i < |v.nodes| && i < |v.inodeMap|
      requires State() == v.(blockMap := Cleared(v.blockMap, v.nodes[i].direct, |v.nodes[i].direct|))
      requires FlagsOk(dirty, marks) && i < InodeMax && inodeMap[i]
      modifies this`nodes, this`inodeMap, this`book, this`dirty, this`marks
      ensures State() == Freed(v, i) && book == FreedBook(old(book), i) && Tracked(old(inodeMap), old(marks))
    {
      MarkInodeDirty(i);
      nodes := nodes[i := BlankInode()];
      inodeMap := ClearBit(inodeMap, i);
      book := FreedBook(book, i);
    }

    /** The loop over the sixteen slots of a file, lines 587-591. */
    method ClearSlots(i: nat)
      requires i < |nodes| && |nodes[i].direct| == Slots
      modifies this`blockMap
      ensures blockMap == Cleared(old(blockMap), nodes[i].direct, Slots)
    {
      var s := 0;
      while s < Slots
        invariant s <= Slots && blockMap == Cleared(old(blockMap), nodes[i].direct, s)
      {
        blockMap := ClearBit(blockMap, NumberOf(nodes[i].direct[s]));
        s := s + 1;
      }
    }

    method DropLink(ind: nat)
      requires ind < |nodes| && ind < |book.names|
      modifies this`nodes, this`book
      ensures State() == Unlinked(old(State()), ind) && book == UnlinkedBook(old(State()), old(book), ind)
    {
      book := UnlinkedBook(State(), book, ind);
      nodes := nodes[ind := nodes[ind].(link := nodes[ind].link - 1)];
    }

    /** rm_recurse: terminates because the directories that still have a name become fewer, and
        drops exactly one reference. */
    method RmRecurse(ind: nat, ghost hole: int, ghost active: set<nat>)
      requires Ready(State(), book, hole, ind, active)
      requires FlagsOk(dirty, marks)
      modifies this`nodes, this`inodeMap, this`blockMap, this`book, this`dirty, this`marks
      ensures Done(old(State()), old(book), hole, ind, State(), book)
      ensures Tracked(old(inodeMap), old(marks))
      decreases |active|, 3
    {
      ghost var v, b := State(), book;
      DropLink(ind);
      if nodes[ind].link > 0 {
        MoreLinks(v, b, hole, ind, active);
      } else {
        RmLast(ind, hole, active, v, b);
      }
    }

    method RmLast(ind: nat, ghost hole: int, ghost active: set<nat>, ghost v: Fs, ghost b: Book)
      requires Ready(v, b, hole, ind, active) && v.nodes[ind].link <= 1
      requires State() == Unlinked(v, ind) && book == UnlinkedBook(v, b, ind)
      requires FlagsOk(dirty, marks)
      modifies this`nodes, this`inodeMap, this`blockMap, this`book, this`dirty, this`marks
      ensures Done(v, b, hole, ind, State(), book)
      ensures Tracked(old(inodeMap), old(marks))
      decreases |active|, 2
    {
      ReadyKind(v, b, hole, ind, active);
      if nodes[ind].kind == Dir {
        RmDirectory(ind, hole, active, v, b);
      } else if nodes[ind].kind == File {
        RmFile(ind, hole, active, v, b);
      }
    }

    method RmFile(ind: nat, ghost hole: int, ghost active: set<nat>, ghost v: Fs, ghost b: Book)
      requires Ready(v, b, hole, ind, active) && v.nodes[ind].link == 1 && v.nodes[ind].kind == File
      requires State() == Unlinked(v, ind) && book == UnlinkedBook(v, b, ind)
      requires FlagsOk(dirty, marks)
      modifies this`nodes, this`inodeMap, this`blockMap, this`book, this`dirty, this`marks
      ensures Done(v, b, hole, ind, State(), book)
      ensures Tracked(old(inodeMap), old(marks))
    {
      ReadyKind(v, b, hole, ind, active);
      LastLink(v, b, hole, ind, active);
      ClearSlots(ind);
      FreeInode(ind, Unlinked(v, ind));
    }

    method RmDirectory(ind: nat, ghost hole: int, ghost active: set<nat>, ghost v: Fs, ghost b: Book)
      requires Ready(v, b, hole, ind, active) && v.nodes[ind].link == 1 && v.nodes[ind].kind == Dir
      requires State() == Unlinked(v, ind) && book == UnlinkedBook(v, b, ind)
      requires FlagsOk(dirty, marks)
      modifies this`nodes, this`inodeMap, this`blockMap, this`book, this`dirty, this`marks
      ensures Done(v, b, hole, ind, State(), book)
      ensures Tracked(old(inodeMap), old(marks))
      decreases |active|, 1
    {
      FirstTurn(v, b, hole, ind, active);
      ghost var was := inodeMap;
      RmEntries(ind, hole, active, v, b);
      ghost var now := inodeMap;
      FreeDirectory(ind, hole, active, v, b);
      GoneTwice(was, now, inodeMap);
    }

    method FreeDirectory(ind: nat, ghost hole: int, ghost active: set<nat>, ghost v: Fs, ghost b: Book)
      requires ind < |b.names| && Turn(v, b, hole, ind, active, State(), book, |b.names[ind]|)
      requires FlagsOk(dirty, marks)
      modifies this`nodes, this`inodeMap, this`blockMap, this`book, this`dirty, this`marks
      ensures Done(v, b, hole, ind, State(), book)
      ensures Tracked(old(inodeMap), old(marks))
    {
      ghost var w := State();
      LastTurn(v, b, hole, ind, active, w, book);
      TurnSlots(v, b, hole, ind, active, w, book, |b.names[ind]|);
      blockMap := ClearBit(blockMap, NumberOf(nodes[ind].direct[0]));
      FreeInode(ind, w);
    }

    /** The loop over the entries of a directory that has lost its name, lines 574-580. */
    method RmEntries(ind: nat, ghost hole: int, ghost active: set<nat>, ghost v: Fs, ghost b: Book)
      requires Turn(v, b, hole, ind, active, State(), book, 0) && ind in active
      requires State() == Unlinked(v, ind)
      requires FlagsOk(dirty, marks)
      modifies this`nodes, this`inodeMap, this`blockMap, this`book, this`dirty, this`marks
      ensures ind < |b.names| && Turn(v, b, hole, ind, active, State(), book, |b.names[ind]|)
      ensures Tracked(old(inodeMap), old(marks))
      decreases |active|, 0
    {
      ghost var list := b.names[ind];
      ghost var was, before := inodeMap, marks;
      EntriesOnDisk(v, b, hole, ind, active);
      var buf := disk[NumberOf(nodes[ind].direct[0])];
      var cnt := nodes[ind].entries;
      var i := 2;
      while i < cnt
        invariant 2 <= i <= cnt == |list| + 2
        invariant Turn(v, b, hole, ind, active, State(), book, i - 2) && Tracked(was, before)
      {
        assert buf[i].ino == list[i - 2];
        ghost var now := inodeMap;
        RmEntry(buf[i].ino, ind, hole, active, v, b, i - 2);
        GoneTwice(was, now, inodeMap);
        i := i + 1;
      }
    }

    method RmEntry(x: nat, ghost ind: nat, ghost hole: int, ghost active: set<nat>, ghost v: Fs, ghost b: Book, ghost k: nat)
      requires Turn(v, b, hole, ind, active, State(), book, k) && k < |b.names[ind]| && x == b.names[ind][k] && ind in active
      requires FlagsOk(dirty, marks)
      modifies this`nodes, this`inodeMap, this`blockMap, this`book, this`dirty, this`marks
      ensures Turn(v, b, hole, ind, active, State(), book, k + 1)
      ensures Tracked(old(inodeMap), old(marks))
      decreases |active| - 1, 4
    {
      ghost var w, c := State(), book;
      TurnReady(v, b, hole, ind, active, w, c, k);
      RmRecurse(x, hole, active - {ind});
      NextTurn(v, b, hole, ind, active, w, c, k, State(), book);
    }

    // -------------------------------------------------------------- operations

    /** Between two operations the books are settled and the working directory has a name. */
    ghost predicate Valid()
      reads this
    {
      Settled(State(), book) && cwd < InodeMax && Active(State(), cwd) && Clean()
    }

    /** No flag is set, and the tables on the disk have their sizes. */
    ghost predicate Clean()
      reads this
    {
      FlagsOk(dirty, marks) && marks == {} && Sizes(State(), saved)
    }

    /** Memory and disk. */
    function Both(): Store
      reads this
    {
      Store(State(), saved)
    }

    /** Room in the working directory. */
    predicate Room()
      reads this
    {
      CanAppend(State(), cwd)
    }

    /** do_mkfs on blank inodes: an empty root directory. */
    method Mkfs()
      requires |inodeMap| == |nodes| == InodeMax && |blockMap| == |disk| == BlockMax
      requires forall i :: 0 <= i < InodeMax ==> |nodes[i].direct| == Slots && Blank(nodes[i])
      requires forall k :: 0 <= k < BlockMax ==> |disk[k]| == DirSlots
      requires FlagsOk(dirty, marks) && Sizes(State(), saved)
      modifies this
      ensures Valid() && cwd == 0 && EmptyRoot(State()) && Formatted(Both())
    {
      ghost var s, before := saved, marks;
      var root := MakeRoot();
      MarkInodeDirty(root);
      cwd := 0;
      WriteBack();
      assert Sizes(State(), s) && saved == Stored(State(), s, before + {0});
    }

    /** The maps and the root directory of do_mkfs. */
    method MakeRoot() returns (root: nat)
      requires |inodeMap| == |nodes| == InodeMax && |blockMap| == |disk| == BlockMax
      requires forall i :: 0 <= i < InodeMax ==> |nodes[i].direct| == Slots && Blank(nodes[i])
      requires forall k :: 0 <= k < BlockMax ==> |disk[k]| == DirSlots
      modifies this`inodeMap, this`blockMap, this`nodes, this`disk, this`book
      ensures root == 0 && EmptyRoot(State()) && Settled(State(), book) && Active(State(), 0)
    {
      blockMap := seq(BlockMax, i => false);
      inodeMap := seq(InodeMax, i => false);
      var buf := seq(DirSlots, i => Dentry(NoType, 0, ""));
      assert !inodeMap[0] && !blockMap[0];
      root := FindFirstZeroBit(inodeMap);
      assert root == 0;
      inodeMap := inodeMap[root := true];
      nodes := nodes[root := nodes[root].(entries := 2, link := 1)];
      var blk := FindFirstZeroBit(blockMap);
      assert blk == 0;
      blockMap := blockMap[blk := true];
      nodes := nodes[root := nodes[root].(direct := nodes[root].direct[0 := Offset(blk)])];
      disk := disk[blk := DotBlock(buf, root, root)];
      book := FirstBook();
      FirstSettled(State());
    }

    /** mount_fs of a formatted disk: the tables are read back.  A disk that was in step, with blank
        free inodes, gives back the state before, apart from the working directory. */
    method Mount()
      requires Sizes(State(), saved) && FlagsOk(dirty, marks)
      modifies this`inodeMap, this`blockMap, this`nodes, this`cwd
      ensures State() == Mounted(saved, disk) && cwd == 0
      ensures old(Valid()) && Synced(old(State()), saved) && FreeBlank(saved) ==> Valid() && State() == old(State())
    {
      ghost var v := State();
      inodeMap := saved.inodeMap;
      blockMap := saved.blockMap;
      nodes := saved.nodes;
      cwd := 0;
      if old(Valid()) {
        MountIsIdentity(v, book, saved);
        RootIsActive(v, book);
      }
    }

    /** The entry that touch, link and mkdir write at the end of the working directory. */
    method AppendEntry(e: Dentry)
      requires HasRoom(State(), cwd)
      modifies this`disk, this`nodes
      ensures State() == Appended(old(State()), cwd, e)
    {
      var k, n := NumberOf(nodes[cwd].direct[0]), nodes[cwd].entries;
      disk := disk[k := disk[k][n := e]];
      nodes := nodes[cwd := nodes[cwd].(entries := n + 1)];
    }

    method AllocateFile(i: nat)
      requires i < |inodeMap| && i < |nodes|
      modifies this`inodeMap, this`nodes
      ensures State() == NewFile(old(State()), i)
    {
      inodeMap := inodeMap[i := true];
      nodes := nodes[i := nodes[i].(kind := File, link := 1)];
    }

    method AllocateDir(i: nat, k: nat, blk: seq<Dentry>)
      requires i < |inodeMap| && i < |nodes| && |nodes[i].direct| == Slots && k < |blockMap| && k < |disk|
      modifies this`inodeMap, this`nodes, this`blockMap, this`disk
      ensures State() == NewDir(old(State()), i, k, blk)
    {
      inodeMap := inodeMap[i := true];
      blockMap := blockMap[k := true];
      nodes := nodes[i := Inode(Dir, 1, 2, nodes[i].direct[0 := Offset(k)])];
      disk := disk[k := blk];
    }

    method AddLink(i: nat)
      requires i < |nodes|
      modifies this`nodes
      ensures State() == Linked(old(State()), i)
    {
      nodes := nodes[i := nodes[i].(link := nodes[i].link + 1)];
    }

    /** The test for a slash in do_touch and do_link. */
    method HasSlash(name: string) returns (r: bool)
      ensures r <==> exists i :: 0 <= i < |name| && name[i] == '/'
    {
      var i := 0;
      while i < |name|
        invariant i <= |name| && forall k :: 0 <= k < i ==> name[k] != '/'
      {
        if name[i] == '/' { return true; }
        i := i + 1;
      }
      r := false;
    }

    /** Both inodes are marked, and everything is written. */
    method WriteBoth(i: nat)
      requires Clean() && i < InodeMax && cwd < InodeMax
      modifies this`saved, this`dirty, this`marks
      ensures Clean() && saved == Stored(State(), old(saved), {i, cwd})
    {
      MarkInodeDirty(i);
      MarkInodeDirty(cwd);
      assert marks == {i, cwd};
      WriteBack();
    }

    /** do_touch: a new file with one entry, at the end of the working directory, unless the
        standardised name contains a slash. */
    method Touch(name: string) returns (done: bool, i: nat)
      requires Valid() && Room() && !AllSet(inodeMap) && name != ""
      modifies this`inodeMap, this`nodes, this`disk, this`book, this`saved, this`dirty, this`marks
      ensures Valid() && (done <==> forall k :: 0 <= k < |P.Standardized(name)| ==> P.Standardized(name)[k] != '/')
      ensures done ==> Step(old(Both()), Touched(cwd, i, P.Standardized(name)), Both()) && i == FirstZero(old(inodeMap))
      ensures !done ==> Both() == old(Both())
    {
      ghost var v, b := State(), book;
      var nm := P.Standardized(name);
      i := 0;
      var slash := HasSlash(nm);
      done := !slash;
      if done {
        i := FindFirstZeroBit(inodeMap);
        TouchSettles(v, b, cwd, i, nm);
        AllocateFile(i);
        AppendEntry(Dentry(File, i, nm));
        book := AppendedBook(Awaiting(b, i), cwd, i);
        WriteBoth(i);
      }
    }

    /** do_link for a hard link to a file, unless the standardised new name contains a slash.  The file
        is marked, the directory is not. */
    method HardLink(master: nat, name: string) returns (done: bool)
      requires Valid() && Room() && IsFile(State(), master) && name != ""
      modifies this`nodes, this`disk, this`book, this`saved, this`dirty, this`marks
      ensures Valid() && (done <==> forall k :: 0 <= k < |P.Standardized(name)| ==> P.Standardized(name)[k] != '/')
      ensures done ==> LinkStep(old(Both()), Both(), cwd, master, P.Standardized(name))
      ensures !done ==> Both() == old(Both())
    {
      ghost var v, b := State(), book;
      var nm := P.Standardized(name);
      var slash := HasSlash(nm);
      done := !slash;
      if done {
        var e := Dentry(nodes[master].kind, master, nm);
        LinkSettles(v, b, cwd, master, e);
        AddLink(master);
        AppendEntry(e);
        book := AppendedBook(Awaiting(b, master), cwd, master);
        WriteOne(master);
      }
    }

    method WriteOne(i: nat)
      requires Clean() && i < InodeMax
      modifies this`saved, this`dirty, this`marks
      ensures Clean() && saved == old(saved).(nodes := Flushed(nodes, old(saved).nodes, {i}))
    {
      MarkInodeDirty(i);
      assert marks == {i};
      UpdateInode();
    }

    /** do_mkdir: a new directory, its block holding two dot entries in an otherwise unwritten buffer. */
    method Mkdir(name: string, junk: seq<Dentry>) returns (i: nat, k: nat)
      requires Valid() && Room() && !AllSet(inodeMap) && !AllSet(blockMap) && |junk| == DirSlots && name != ""
      modifies this`inodeMap, this`blockMap, this`nodes, this`disk, this`book, this`saved, this`dirty, this`marks
      ensures Valid() && Step(old(Both()), MadeDir(cwd, i, k, junk, P.Standardized(name)), Both())
      ensures i == FirstZero(old(inodeMap)) && k == FirstZero(old(blockMap))
    {
      ghost var v, b := State(), book;
      var nm := P.Standardized(name);
      i := FindFirstZeroBit(inodeMap);
      k := FindFirstZeroBit(blockMap);
      var blk := DotBlock(junk, i, cwd);
      MkdirWorks(v, b, cwd, i, k, junk, nm);
      AllocateDir(i, k, blk);
      AppendEntry(Dentry(Dir, i, nm));
      book := AppendedBook(NewDirBook(b, i, k, cwd), cwd, i);
      WriteBoth(i);
    }

    /** The first entry of the working directory with a name, from a position on, or none. */
    method Find(name: string, start: nat) returns (n: nat)
      requires HasBlock(State(), cwd) && start <= nodes[cwd].entries
      ensures n == FirstNamed(State(), cwd, name, start)
    {
      var buf := disk[NumberOf(nodes[cwd].direct[0])];
      n := start;
      while n < nodes[cwd].entries && buf[n].name != name
        invariant start <= n <= nodes[cwd].entries
        invariant FirstNamed(State(), cwd, name, start) == FirstNamed(State(), cwd, name, n)
        decreases nodes[cwd].entries - n
      {
        n := n + 1;
      }
    }

    /** The loop that closes the gap, lines 667-673. */
    method CloseGap(n: nat)
      requires CanShift(State(), cwd, n)
      modifies this`disk, this`nodes
      ensures State() == Cut(old(State()), cwd, n)
    {
      var k, count := NumberOf(nodes[cwd].direct[0]), nodes[cwd].entries;
      var buf := disk[k];
      var i := n + 1;
      ghost var was := buf;
      while i < count
        invariant n < i <= count && buf == Shifted(was, n, i)
      {
        assert buf[i] == was[i];
        buf := buf[i - 1 := buf[i]];
        i := i + 1;
      }
      nodes := nodes[cwd := nodes[cwd].(entries := count - 1)];
      disk := disk[k := buf];
    }

    /** do_rm of one component, which is not a dot entry, in the working directory.  The name is looked
        for from the first entry on, then, after the removal, again behind the dot entries. */
    method Rm(name: string) returns (found: bool, ghost k: nat)
      requires Valid() && name != "" && !P.Dots(P.Standardized(name)) && forall i :: 0 <= i < |name| - 1 ==> name[i] != '/'
      modifies this`inodeMap, this`blockMap, this`nodes, this`disk, this`book, this`saved, this`dirty, this`marks
      ensures Valid()
      ensures !found ==> Both() == old(Both()) && NoEntry(State(), cwd, P.Standardized(name))
      ensures found ==> IsFirst(old(State()), cwd, P.Standardized(name), k) && RmStep(old(Both()), Both(), cwd, k)
    {
      ghost var v, b := State(), book;
      var nm := P.Standardized(name);
      SettledShows(v, b, cwd, nm);
      FoundOrNot(v, cwd, nm);
      var n := Find(nm, 0);
      found := n < nodes[cwd].entries;
      k := 0;
      if found {
        k := n - 2;
        RmNamed(n, nm, v, b);
        WriteBack();
      }
    }

    method RmNamed(n: nat, name: string, ghost v: Fs, ghost b: Book)
      requires State() == v && book == b && Settled(v, b) && cwd < InodeMax && CanRm(v, b, cwd, name, n)
      requires FlagsOk(dirty, marks)
      modifies this`inodeMap, this`blockMap, this`nodes, this`disk, this`book, this`dirty, this`marks
      ensures Settled(State(), book) && Active(State(), cwd) && IsRm(v, State(), cwd, n - 2) && Tracked(old(inodeMap), old(marks))
    {
      var x := disk[NumberOf(nodes[cwd].direct[0])][n].ino;
      RmTarget(x, n - 2, v, b);
      RmTail(n, name, v, b);
    }

    /** The end of rm, after the recursion. */
    method RmTail(n: nat, name: string, ghost v: Fs, ghost b: Book)
      requires Settled(v, b) && cwd < InodeMax && CanRm(v, b, cwd, name, n)
      requires Done(v, DetachedBook(b, cwd, n - 2), cwd, b.names[cwd][n - 2], State(), book)
      modifies this`nodes, this`disk
      ensures Settled(State(), book) && Active(State(), cwd) && IsRm(v, State(), cwd, n - 2)
    {
      RmFinish(v, b, cwd, n - 2, State(), book);
      RmName(n, name, v);
    }

    method RmTarget(x: nat, ghost k: nat, ghost v: Fs, ghost b: Book)
      requires State() == v && book == b && Settled(v, b) && cwd < InodeMax && k < |b.names[cwd]| && x == b.names[cwd][k]
      requires FlagsOk(dirty, marks)
      modifies this`inodeMap, this`blockMap, this`nodes, this`book, this`dirty, this`marks
      ensures Done(v, DetachedBook(b, cwd, k), cwd, x, State(), book) && Tracked(old(inodeMap), old(marks))
    {
      RmBegin(v, b, cwd, k);
      book := DetachedBook(b, cwd, k);
      RmRecurse(x, cwd, Below(InodeMax));
    }

    method RmName(n: nat, name: string, ghost v: Fs)
      requires HasBlock(v, cwd) && 2 <= v.nodes[cwd].entries && n == FirstNamed(v, cwd, name, 2) && CanShift(State(), cwd, n)
      requires nodes[cwd] == v.nodes[cwd] && disk == v.disk
      modifies this`nodes, this`disk
      ensures State() == Cut(old(State()), cwd, n)
    {
      SameFirst(v, State(), cwd, name, 2);
      var th := Find(name, 2);
      CloseGap(th);
    }
  
    /** do_rename within the working directory: the first entry with the old name gets the new one. */
    method Rename(from: string, to: string) returns (n: nat)
      requires Valid() && from != "" && to != ""
      modifies this`disk
      ensures Valid() && AllOnDisk(State()) == AllOnDisk(old(State()))
      ensures HasBlock(old(State()), cwd) && 2 <= nodes[cwd].entries && n == FirstNamed(old(State()), cwd, P.Standardized(from), 2)
      ensures Step(old(Both()), if n < nodes[cwd].entries then RenamedTo(cwd, n, P.Standardized(to)) else Nothing, Both())
    {
      ghost var v, b := State(), book;
      var oldName, newName := P.Standardized(from), P.Standardized(to);
      SettledDir(v, b, cwd);
      n := Find(oldName, 2);
      if n < nodes[cwd].entries {
        RenameSettles(v, b, cwd, n, newName);
        var k := NumberOf(nodes[cwd].direct[0]);
        disk := disk[k := disk[k][n := disk[k][n].(name := newName)]];
      }
    }
  }
}
