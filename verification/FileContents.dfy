/** Reading and writing files (kernel/fs/fs.c:386-423, 811-962, 1089-1110) on values: what a write
    within one block does, when a request comes to an end, and what appending keeps. */
module FileContents {
  import opened Sealing
  import opened Inodes
  import opened Wrappers

  type Byte = x: int | 0 <= x < 256 witness 0

  /** The part of an inode that file contents depend on. */
  datatype FileNode = FileNode(size: nat, direct: seq<nat>)

  /** The block map, the inodes, and the blocks of the disk. */
  datatype Files = Files(blockMap: seq<bool>, nodes: seq<FileNode>, data: seq<seq<Byte>>)

  function Blocks(size: nat): nat { (size + BlockSize - 1) / BlockSize }

  predicate Shape(v: Files) {
    && |v.blockMap| == |v.data| == BlockMax
    && (forall k :: 0 <= k < BlockMax ==> |v.data[k]| == BlockSize)
    && (forall f :: 0 <= f < |v.nodes| ==> |v.nodes[f].direct| == Slots)
  }

  /** Every slot in use holds a block of its own that is marked in the map. */
  predicate Separate(v: Files)
    requires Shape(v)
  {
    && (forall f, s :: 0 <= f < |v.nodes| && 0 <= s < Slots && v.nodes[f].direct[s] != 0 ==>
          var k := NumberOf(v.nodes[f].direct[s]); k < BlockMax && v.nodes[f].direct[s] == Offset(k) && v.blockMap[k])
    && (forall f, s, g, t | 0 <= f < |v.nodes| && 0 <= s < Slots && 0 <= g < |v.nodes| && 0 <= t < Slots ::
          (v.nodes[f].direct[s] == v.nodes[g].direct[t] != 0) ==> (f == g && s == t))
  }

  // ---------------------------------------------------------------- requests that come to an end

  /** The request a write or read makes of itself first, if any: in blocks when it is longer than
      one, and up to the block boundary when it reaches it.  The position does not move before. */
  function FirstCall(pos: nat, size: nat): (r: nat)
    ensures r > 0 ==> r <= BlockSize
  {
    if size > BlockSize then BlockSize
    else if pos / BlockSize != (pos + size) / BlockSize then BlockSize - pos % BlockSize
    else 0
  }

  /** After n calls one is reached that makes no further call. */
  predicate Ends(pos: nat, size: nat, n: nat)
    decreases n
  {
    if n == 0 then FirstCall(pos, size) == 0 else FirstCall(pos, size) > 0 && Ends(pos, FirstCall(pos, size), n - 1)
  }

  lemma Crossing(pos: nat, size: nat)
    requires size <= BlockSize
    ensures pos / BlockSize != (pos + size) / BlockSize <==> pos % BlockSize + size >= BlockSize
  {
  }

  /** A request that reaches the block boundary calls itself with the same arguments for ever. */
  lemma {:induction false} NeverEnds(pos: nat, size: nat, n: nat)
    requires pos % BlockSize + size >= BlockSize
    ensures !Ends(pos, size, n)
    decreases n
  {
    if size <= BlockSize { Crossing(pos, size); }
    if n > 0 { NeverEnds(pos, FirstCall(pos, size), n - 1); }
  }

  /** A request comes to an end, and then at once, if and only if it stays strictly below the next
      block boundary. */
  lemma EndsExactly(pos: nat, size: nat)
    ensures if pos % BlockSize + size < BlockSize then Ends(pos, size, 0) else forall n: nat :: !Ends(pos, size, n)
  {
    if pos % BlockSize + size < BlockSize {
      Crossing(pos, size);
    } else {
      forall n: nat ensures !Ends(pos, size, n) { NeverEnds(pos, size, n); }
    }
  }

  // ---------------------------------------------------------------- do_resize

  function WithSlot(v: Files, f: nat, s: nat): Files
    requires f < |v.nodes| && s < |v.nodes[f].direct| && !AllSet(v.blockMap)
  {
    var k := FirstZero(v.blockMap);
    v.(blockMap := v.blockMap[k := true], nodes := v.nodes[f := v.nodes[f].(direct := v.nodes[f].direct[s := Offset(k)])])
  }

  /** There are free blocks for slots s to t - 1. */
  predicate CanGrow(v: Files, f: nat, s: nat, t: nat)
    requires f < |v.nodes| && t <= |v.nodes[f].direct|
    decreases t - s
  {
    s < t ==> !AllSet(v.blockMap) && CanGrow(WithSlot(v, f, s), f, s + 1, t)
  }

  function Grown(v: Files, f: nat, s: nat, t: nat): Files
    requires f < |v.nodes| && t <= |v.nodes[f].direct| && CanGrow(v, f, s, t)
    decreases t - s
  {
    if s >= t then v else Grown(WithSlot(v, f, s), f, s + 1, t)
  }

  function WithSize(v: Files, f: nat, size: nat): Files
    requires f < |v.nodes|
  {
    v.(nodes := v.nodes[f := v.nodes[f].(size := size)])
  }

  predicate CanResize(v: Files, f: nat, size: nat) {
    f < |v.nodes| && |v.nodes[f].direct| == Slots
    && (Blocks(size) < 16 ==> CanGrow(WithSize(v, f, size), f, Blocks(v.nodes[f].size), Blocks(size)))
  }

  /** do_resize, called for a size that needs more blocks. */
  function Resized(v: Files, f: nat, size: nat): Files
    requires CanResize(v, f, size)
  {
    if Blocks(size) <= Blocks(v.nodes[f].size) then v
    else if Blocks(size) < 16 then Grown(WithSize(v, f, size), f, Blocks(v.nodes[f].size), Blocks(size))
    else WithSize(v, f, size)
  }

  // ---------------------------------------------------------------- writing and reading in a block

  function Overwritten(b: seq<Byte>, r: nat, s: seq<Byte>): (b': seq<Byte>)
    requires r + |s| <= |b|
    ensures |b'| == |b|
  {
    b[..r] + s + b[r + |s|..]
  }

  predicate InBlock(pos: nat, size: nat) { pos % BlockSize + size < BlockSize && pos < Slots * BlockSize }

  /** A write that stays within a block the file has, or gets by growing. */
  predicate CanWrite(v: Files, f: nat, pos: nat, s: seq<Byte>) {
    && Shape(v) && InBlock(pos, |s|) && f < |v.nodes| && CanResize(v, f, pos + |s|)
    && HasBlock(Sized(v, f, pos, |s|), f, pos / BlockSize)
  }

  predicate HasBlock(v: Files, f: nat, s: nat) {
    && f < |v.nodes| && s < |v.nodes[f].direct| && NumberOf(v.nodes[f].direct[s]) < |v.data|
    && |v.data[NumberOf(v.nodes[f].direct[s])]| == BlockSize
  }

  /** The size after a write: set by do_resize, or else increased by the length written. */
  function Sized(v: Files, f: nat, pos: nat, n: nat): Files
    requires CanResize(v, f, pos + n)
  {
    if Blocks(v.nodes[f].size) < Blocks(pos + n) then Resized(v, f, pos + n) else WithSize(v, f, v.nodes[f].size + n)
  }

  /** do_fwrite of a request that ends. */
  function Written(v: Files, f: nat, pos: nat, s: seq<Byte>): Files
    requires CanWrite(v, f, pos, s)
  {
    var w := Sized(v, f, pos, |s|);
    var k := NumberOf(w.nodes[f].direct[pos / BlockSize]);
    w.(data := w.data[k := Overwritten(w.data[k], pos % BlockSize, s)])
  }

  /** A read that ends: one past the size, or within a block, which the file has if bytes are asked for. */
  predicate CanRead(v: Files, f: nat, pos: nat, n: nat) {
    && Shape(v) && f < |v.nodes|
    && (pos + n <= v.nodes[f].size ==> InBlock(pos, n) && (n > 0 ==> NumberOf(v.nodes[f].direct[pos / BlockSize]) < BlockMax))
  }

  /** do_fread of a request that ends: nothing beyond the size. */
  function Read(v: Files, f: nat, pos: nat, n: nat): Option<seq<Byte>>
    requires CanRead(v, f, pos, n)
  {
    if pos + n > v.nodes[f].size then None
    else if n == 0 then Some([])
    else Some(v.data[NumberOf(v.nodes[f].direct[pos / BlockSize])][pos % BlockSize..pos % BlockSize + n])
  }

  /** The size after a write within the blocks a file has is the end of what is written if and only
      if the write starts at the end of the file, or writes nothing there. */
  lemma SizeAfterWrite(v: Files, f: nat, pos: nat, n: nat)
    requires CanResize(v, f, pos + n) && Blocks(pos + n) <= Blocks(v.nodes[f].size) && pos <= v.nodes[f].size
    ensures
      var size := v.nodes[f].size;
      Sized(v, f, pos, n).nodes[f].size == (if pos + n > size then pos + n else size) <==> pos == size || n == 0
  {
  }

  // ---------------------------------------------------------------- appending

  /** File f has exactly these contents, in its first block; an empty file has no block. */
  predicate Contains(v: Files, f: nat, c: seq<Byte>) {
    && Shape(v) && Separate(v) && f < |v.nodes| && v.nodes[f].size == |c| < BlockSize
    && (c == [] ==> forall s :: 0 <= s < Slots ==> v.nodes[f].direct[s] == 0)
    && (c != [] ==> v.nodes[f].direct[0] != 0 && v.data[NumberOf(v.nodes[f].direct[0])][..|c|] == c)
  }

  /** Nothing changes for the other inodes: neither sizes nor blocks nor what the blocks hold. */
  predicate OthersSame(v: Files, v': Files, f: nat)
    requires Shape(v) && Shape(v')
  {
    && |v.nodes| == |v'.nodes|
    && (forall g :: 0 <= g < |v.nodes| && g != f ==> v'.nodes[g] == v.nodes[g])
    && (forall g, s :: 0 <= g < |v.nodes| && g != f && 0 <= s < Slots && v.nodes[g].direct[s] != 0 && NumberOf(v.nodes[g].direct[s]) < BlockMax ==>
          v'.data[NumberOf(v.nodes[g].direct[s])] == v.data[NumberOf(v.nodes[g].direct[s])])
  }

  lemma FirstSlot(v: Files, f: nat, n: nat)
    requires Contains(v, f, []) && 0 < n < BlockSize && !AllSet(v.blockMap)
    ensures CanResize(v, f, n) && Sized(v, f, 0, n) == WithSlot(WithSize(v, f, n), f, 0)
    ensures var w := WithSlot(WithSize(v, f, n), f, 0);
      Shape(w) && Separate(w) && w.nodes[f].direct[0] != 0 && w.data == v.data && w.nodes[f].size == n && HasBlock(w, f, 0)
  {
    var w0 := WithSize(v, f, n);
    var k := FirstZero(v.blockMap);
    BlockNumbers(k);
    assert Blocks(n) == 1 && Blocks(0) == 0;
    assert CanGrow(WithSlot(w0, f, 0), f, 1, 1);
    var w := WithSlot(w0, f, 0);
    assert Grown(w, f, 1, 1) == w;
    forall g, s | 0 <= g < |v.nodes| && 0 <= s < Slots && v.nodes[g].direct[s] != 0 ensures v.nodes[g].direct[s] != Offset(k) {
      assert v.blockMap[NumberOf(v.nodes[g].direct[s])];
    }
    forall g, s | 0 <= g < |v.nodes| && 0 <= s < Slots && (g != f || s != 0) ensures w.nodes[g].direct[s] == v.nodes[g].direct[s] {}
  }

  /** The first write to an empty file takes a free block. */
  lemma FirstWrite(v: Files, f: nat, s: seq<Byte>)
    requires Contains(v, f, []) && 0 < |s| < BlockSize && !AllSet(v.blockMap)
    ensures CanWrite(v, f, 0, s) && Contains(Written(v, f, 0, s), f, s) && OthersSame(v, Written(v, f, 0, s), f)
  {
    FirstSlot(v, f, |s|);
    var w := Sized(v, f, 0, |s|);
    var v' := Written(v, f, 0, s);
    var k := NumberOf(w.nodes[f].direct[0]);
    assert v'.data[k] == Overwritten(w.data[k], 0, s);
    assert v'.data[k][..|s|] == s;
    assert Separate(v');
    forall g, t | 0 <= g < |v.nodes| && g != f && 0 <= t < Slots && v.nodes[g].direct[t] != 0 ensures NumberOf(v.nodes[g].direct[t]) != k {
      assert w.nodes[g].direct[t] == v.nodes[g].direct[t];
    }
  }

  lemma GrownInPlace(v: Files, f: nat, c: seq<Byte>, n: nat)
    requires Contains(v, f, c) && c != [] && |c| + n < BlockSize
    ensures CanResize(v, f, |c| + n) && Sized(v, f, |c|, n) == WithSize(v, f, |c| + n)
  {
    assert Blocks(|c|) == 1 && Blocks(|c| + n) == 1;
    assert CanGrow(WithSize(v, f, |c| + n), f, 1, 1);
  }

  /** A write at the end of the file puts its bytes behind the others. */
  lemma NextWrite(v: Files, f: nat, c: seq<Byte>, s: seq<Byte>)
    requires Contains(v, f, c) && c != [] && |c| + |s| < BlockSize
    ensures CanWrite(v, f, |c|, s) && Contains(Written(v, f, |c|, s), f, c + s) && OthersSame(v, Written(v, f, |c|, s), f)
  {
    GrownInPlace(v, f, c, |s|);
    assert |c| / BlockSize == 0 && |c| % BlockSize == |c|;
    var w := Sized(v, f, |c|, |s|);
    forall g, t | 0 <= g < |v.nodes| && 0 <= t < Slots ensures w.nodes[g].direct[t] == v.nodes[g].direct[t] {}
    var k := NumberOf(v.nodes[f].direct[0]);
    assert HasBlock(w, f, 0);
    var v' := Written(v, f, |c|, s);
    assert v'.data[k] == Overwritten(v.data[k], |c|, s);
    assert v'.data[k][..|c| + |s|] == c + s;
    forall g, t | 0 <= g < |v.nodes| && g != f && 0 <= t < Slots && v.nodes[g].direct[t] != 0 ensures NumberOf(v.nodes[g].direct[t]) != k {
      assert v.nodes[f].direct[0] != v.nodes[g].direct[t];
    }
    assert Separate(v');
  }

  /** One write at the end of a file of any length. */
  lemma Append(v: Files, f: nat, c: seq<Byte>, s: seq<Byte>)
    requires Contains(v, f, c) && s != [] && |c| + |s| < BlockSize && (c == [] ==> !AllSet(v.blockMap))
    ensures CanWrite(v, f, |c|, s) && Contains(Written(v, f, |c|, s), f, c + s) && OthersSame(v, Written(v, f, |c|, s), f)
  {
    if c == [] {
      FirstWrite(v, f, s);
      assert c + s == s;
    } else {
      NextWrite(v, f, c, s);
    }
  }

  lemma Joined(a: seq<Byte>, b: seq<Byte>, d: seq<Byte>)
    ensures a + b + d == a + (b + d)
  {
  }

  lemma OthersTwice(v: Files, w: Files, v': Files, f: nat)
    requires Shape(v) && Shape(w) && Shape(v') && OthersSame(v, w, f) && OthersSame(w, v', f)
    ensures OthersSame(v, v', f)
  {
  }

  function Concat(ws: seq<seq<Byte>>): seq<Byte> { if ws == [] then [] else ws[0] + Concat(ws[1..]) }

  /** The state after a run of writes, the position following the end of the file. */
  ghost predicate WriteRun(v: Files, f: nat, pos: nat, ws: seq<seq<Byte>>, v': Files)
    decreases |ws|
  {
    if ws == [] then v' == v
    else CanWrite(v, f, pos, ws[0]) && WriteRun(Written(v, f, pos, ws[0]), f, pos + |ws[0]|, ws[1..], v')
  }

  /** The writes can follow: the file has these contents, and they fit behind them in its block. */
  ghost predicate Follow(v: Files, f: nat, c: seq<Byte>, ws: seq<seq<Byte>>) {
    forall x: Seal {:trigger Open(x)} :: Open(x) ==>
      && Contains(v, f, c) && |c| + |Concat(ws)| < BlockSize && (forall i :: 0 <= i < |ws| ==> ws[i] != [])
      && (c == [] ==> !AllSet(v.blockMap))
  }

  lemma NextFollows(v: Files, f: nat, c: seq<Byte>, ws: seq<seq<Byte>>, w: Files)
    requires Follow(v, f, c, ws) && ws != [] && CanWrite(v, f, |c|, ws[0]) && w == Written(v, f, |c|, ws[0])
    ensures Follow(w, f, c + ws[0], ws[1..]) && Shape(v) && Shape(w) && OthersSame(v, w, f)
    ensures c + Concat(ws) == (c + ws[0]) + Concat(ws[1..])
  {
    assert Open(Seal);
    FirstOfRun(v, f, c, ws, w);
    Joined(c, ws[0], Concat(ws[1..]));
  }

  lemma {:induction false} WritesFollow(v: Files, f: nat, c: seq<Byte>, ws: seq<seq<Byte>>, v': Files)
    requires Follow(v, f, c, ws) && WriteRun(v, f, |c|, ws, v')
    ensures Follow(v', f, c + Concat(ws), []) && Shape(v) && Shape(v') && OthersSame(v, v', f)
    decreases |ws|
  {
    if ws == [] {
      NothingFollows(v, f, c);
    } else {
      var w := Written(v, f, |c|, ws[0]);
      NextFollows(v, f, c, ws, w);
      WritesFollow(w, f, c + ws[0], ws[1..], v');
      OthersTwice(v, w, v', f);
    }
  }

  lemma NothingFollows(v: Files, f: nat, c: seq<Byte>)
    requires Follow(v, f, c, [])
    ensures c + Concat([]) == c && Shape(v)
  {
    assert Open(Seal);
  }

  /** A run of writes to a new file that stay below a block leaves exactly their bytes, in order,
      keeps the position equal to the size, and leaves every other file alone. */
  lemma WritesConcatenate(v: Files, f: nat, c: seq<Byte>, ws: seq<seq<Byte>>, v': Files)
    requires Contains(v, f, c) && |c| + |Concat(ws)| < BlockSize && (forall i :: 0 <= i < |ws| ==> ws[i] != [])
    requires c == [] ==> !AllSet(v.blockMap)
    requires WriteRun(v, f, |c|, ws, v')
    ensures Contains(v', f, c + Concat(ws)) && OthersSame(v, v', f)
  {
    WritesFollow(v, f, c, ws, v');
    assert Open(Seal);
  }

  lemma FirstOfRun(v: Files, f: nat, c: seq<Byte>, ws: seq<seq<Byte>>, w: Files)
    requires Contains(v, f, c) && ws != [] && |c| + |Concat(ws)| < BlockSize && (forall i :: 0 <= i < |ws| ==> ws[i] != [])
    requires c == [] ==> !AllSet(v.blockMap)
    requires CanWrite(v, f, |c|, ws[0]) && w == Written(v, f, |c|, ws[0])
    ensures Contains(w, f, c + ws[0]) && OthersSame(v, w, f) && c + ws[0] != []
    ensures forall i :: 0 <= i < |ws[1..]| ==> ws[1..][i] != []
  {
    Append(v, f, c, ws[0]);
    var rest := ws[1..];
    forall i | 0 <= i < |rest| ensures rest[i] != [] { assert rest[i] == ws[i + 1]; }
  }

  /** Reads that follow each other from position 0 return the contents piece by piece. */
  function ReadRun(v: Files, f: nat, pos: nat, ns: seq<nat>): Option<seq<Byte>>
    requires Shape(v) && f < |v.nodes|
    decreases |ns|
  {
    if ns == [] then Some([])
    else if !CanRead(v, f, pos, ns[0]) then None
    else
      var r := Read(v, f, pos, ns[0]);
      if r.None? then None
      else
        var t := ReadRun(v, f, pos + ns[0], ns[1..]);
        if t.None? then None else Some(r.value + t.value)
  }

  function Sum(ns: seq<nat>): nat { if ns == [] then 0 else ns[0] + Sum(ns[1..]) }

  lemma SamePart(b: seq<Byte>, c: seq<Byte>, i: nat, j: nat)
    requires i <= j <= |c| <= |b| && b[..|c|] == c
    ensures b[i..j] == c[i..j]
  {
    forall x | i <= x < j ensures b[x] == c[x] { assert b[..|c|][x] == b[x]; }
  }

  /** Every read of a file that fits in a block ends: it returns the bytes asked for if they are all
      there, and nothing if not. */
  lemma ReadsExactly(v: Files, f: nat, c: seq<Byte>, pos: nat, n: nat)
    requires Contains(v, f, c)
    ensures CanRead(v, f, pos, n) && Read(v, f, pos, n) == if pos + n <= |c| then Some(c[pos..pos + n]) else None
  {
    if pos + n <= |c| {
      assert pos / BlockSize == 0 && pos % BlockSize == pos;
      if n > 0 { SamePart(v.data[NumberOf(v.nodes[f].direct[0])], c, pos, pos + n); } else { assert c[pos..pos] == []; }
    }
  }

  /** Reads that follow each other return the contents piece by piece, if and only if they do not pass
      the end. */
  lemma {:induction false} ReadsReturn(v: Files, f: nat, c: seq<Byte>, pos: nat, ns: seq<nat>)
    requires Contains(v, f, c) && pos <= |c|
    ensures ReadRun(v, f, pos, ns) == if pos + Sum(ns) <= |c| then Some(c[pos..pos + Sum(ns)]) else None
    decreases |ns|
  {
    if ns != [] {
      ReadsExactly(v, f, c, pos, ns[0]);
      if pos + ns[0] <= |c| {
        ReadsReturn(v, f, c, pos + ns[0], ns[1..]);
        if pos + Sum(ns) <= |c| { assert c[pos..pos + ns[0]] + c[pos + ns[0]..pos + Sum(ns)] == c[pos..pos + Sum(ns)]; }
      }
    }
  }
}
