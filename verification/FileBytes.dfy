/** What a write at any position means for every byte of every file, and what a read returns after it
    (kernel/fs/fs.c:386-423, 839-949). */
module FileBytes {
  import opened Inodes
  import opened FileContents
  import opened Wrappers

  /** Byte p of a file. */
  function ByteAt(v: Files, f: nat, p: nat): Byte
    requires HasBlock(v, f, p / BlockSize)
  {
    v.data[NumberOf(v.nodes[f].direct[p / BlockSize])][p % BlockSize]
  }

  // ---------------------------------------------------------------- growing

  /** Everything but the slots of file f from slot s on, and its size, is as before. */
  ghost predicate KeepsSlots(v: Files, w: Files, f: nat, s: nat) {
    && FileContents.Shape(v) && FileContents.Shape(w) && Separate(w) && w.data == v.data && |w.nodes| == |v.nodes|
    && (forall g :: 0 <= g < |v.nodes| && g != f ==> w.nodes[g] == v.nodes[g])
    && (f < |v.nodes| ==> forall t :: 0 <= t < s && t < Slots ==> w.nodes[f].direct[t] == v.nodes[f].direct[t])
  }

  /** The block taken for a slot is nobody else's. */
  lemma SlotKeeps(v: Files, f: nat, s: nat)
    requires FileContents.Shape(v) && Separate(v) && f < |v.nodes| && s < Slots && !AllSet(v.blockMap)
    ensures KeepsSlots(v, WithSlot(v, f, s), f, s) && WithSlot(v, f, s).nodes[f].size == v.nodes[f].size
  {
    var k, w := FirstZero(v.blockMap), WithSlot(v, f, s);
    BlockNumbers(k);
    forall g, t | 0 <= g < |v.nodes| && 0 <= t < Slots && v.nodes[g].direct[t] != 0 ensures v.nodes[g].direct[t] != Offset(k) {
      assert v.blockMap[NumberOf(v.nodes[g].direct[t])];
    }
    forall g, t | 0 <= g < |v.nodes| && 0 <= t < Slots && (g != f || t != s) ensures w.nodes[g].direct[t] == v.nodes[g].direct[t] {}
  }

  lemma {:induction false} GrownKeeps(v: Files, f: nat, s: nat, t: nat)
    requires FileContents.Shape(v) && Separate(v) && f < |v.nodes| && t <= Slots && CanGrow(v, f, s, t)
    ensures KeepsSlots(v, Grown(v, f, s, t), f, s) && Grown(v, f, s, t).nodes[f].size == v.nodes[f].size
    decreases t - s
  {
    if s < t {
      SlotKeeps(v, f, s);
      GrownKeeps(WithSlot(v, f, s), f, s + 1, t);
    }
  }

  lemma SizeKeeps(v: Files, f: nat, size: nat)
    requires FileContents.Shape(v) && Separate(v) && f < |v.nodes|
    ensures KeepsSlots(v, WithSize(v, f, size), f, Slots) && WithSize(v, f, size).nodes[f].size == size
  {
    forall g | 0 <= g < |v.nodes| ensures WithSize(v, f, size).nodes[g].direct == v.nodes[g].direct {}
  }

  /** The size that a write leaves: its end when blocks were missing, and otherwise the old size and the
      length together. */
  function SizeAfter(size: nat, pos: nat, n: nat): nat {
    if Blocks(size) < Blocks(pos + n) then pos + n else size + n
  }

  lemma SizedKeeps(v: Files, f: nat, pos: nat, n: nat)
    requires FileContents.Shape(v) && Separate(v) && CanResize(v, f, pos + n)
    ensures var w := Sized(v, f, pos, n);
      KeepsSlots(v, w, f, Blocks(v.nodes[f].size)) && w.nodes[f].size == SizeAfter(v.nodes[f].size, pos, n)
  {
    var size := v.nodes[f].size;
    if Blocks(size) < Blocks(pos + n) {
      SizeKeeps(v, f, pos + n);
      if Blocks(pos + n) < 16 { GrownKeeps(WithSize(v, f, pos + n), f, Blocks(size), Blocks(pos + n)); }
    } else {
      SizeKeeps(v, f, size + n);
    }
  }

  // ---------------------------------------------------------------- writing

  lemma OverwrittenAt(b: seq<Byte>, r: nat, s: seq<Byte>, i: nat)
    requires r + |s| <= |b| && i < |b|
    ensures Overwritten(b, r, s)[i] == if r <= i < r + |s| then s[i - r] else b[i]
  {
  }

  /** What a write has to leave behind of a file g at position p. */
  ghost predicate ByteWritten(v: Files, v': Files, f: nat, pos: nat, s: seq<Byte>, g: nat, p: nat) {
    HasBlock(v', g, p / BlockSize) &&
    if g == f && pos <= p < pos + |s| then ByteAt(v', g, p) == s[p - pos]
    else HasBlock(v, g, p / BlockSize) && ByteAt(v', g, p) == ByteAt(v, g, p)
  }

  /** A position of the write lies in the block of its begin. */
  lemma SamePlace(pos: nat, n: nat, p: nat)
    requires InBlock(pos, n) && pos <= p < pos + n
    ensures p / BlockSize == pos / BlockSize && p % BlockSize == pos % BlockSize + (p - pos)
  {
  }

  lemma SameDistance(pos: nat, p: nat)
    requires p / BlockSize == pos / BlockSize
    ensures p % BlockSize - pos % BlockSize == p - pos
  {
  }

  /** The blocks of two slots in use differ. */
  lemma Apart(w: Files, f: nat, s: nat, g: nat, t: nat)
    requires FileContents.Shape(w) && Separate(w) && HasBlock(w, f, s) && HasBlock(w, g, t) && (g != f || t != s)
    ensures NumberOf(w.nodes[f].direct[s]) != NumberOf(w.nodes[g].direct[t])
  {
    BlockNumbers(0);
    assert w.nodes[f].direct[s] != 0 && w.nodes[g].direct[t] != 0;
  }

  /** A write sets the bytes of its range and no other byte of any file that lay within its size; slots
      in use stay apart; and the size is as SizeAfter says. */
  lemma WriteSets(v: Files, f: nat, pos: nat, s: seq<Byte>)
    requires CanWrite(v, f, pos, s) && Separate(v)
    ensures var v' := Written(v, f, pos, s);
      && FileContents.Shape(v') && Separate(v') && |v'.nodes| == |v.nodes| && v'.nodes[f].size == SizeAfter(v.nodes[f].size, pos, |s|)
      && (forall g :: 0 <= g < |v.nodes| && g != f ==> v'.nodes[g] == v.nodes[g])
      && (forall p: nat :: pos <= p < pos + |s| ==> ByteWritten(v, v', f, pos, s, f, p))
      && (forall g: nat, p: nat :: g < |v.nodes| && p < v.nodes[g].size && HasBlock(v, g, p / BlockSize) ==> ByteWritten(v, v', f, pos, s, g, p))
  {
    SizedKeeps(v, f, pos, |s|);
    var v' := Written(v, f, pos, s);
    forall p: nat | pos <= p < pos + |s| ensures ByteWritten(v, v', f, pos, s, f, p) {
      WrittenAt(v, f, pos, s, p);
    }
    forall g: nat, p: nat | g < |v.nodes| && p < v.nodes[g].size && HasBlock(v, g, p / BlockSize) ensures ByteWritten(v, v', f, pos, s, g, p) {
      if g == f && pos <= p < pos + |s| { WrittenAt(v, f, pos, s, p); } else { KeptAt(v, f, pos, s, g, p); }
    }
  }

  lemma WrittenAt(v: Files, f: nat, pos: nat, s: seq<Byte>, p: nat)
    requires CanWrite(v, f, pos, s) && pos <= p < pos + |s|
    ensures ByteWritten(v, Written(v, f, pos, s), f, pos, s, f, p)
  {
    SamePlace(pos, |s|, p);
    var w := Sized(v, f, pos, |s|);
    OverwrittenAt(w.data[NumberOf(w.nodes[f].direct[pos / BlockSize])], pos % BlockSize, s, p % BlockSize);
  }

  lemma KeptAt(v: Files, f: nat, pos: nat, s: seq<Byte>, g: nat, p: nat)
    requires CanWrite(v, f, pos, s) && Separate(v) && g < |v.nodes| && p < v.nodes[g].size && HasBlock(v, g, p / BlockSize)
    requires g != f || p < pos || pos + |s| <= p
    ensures ByteWritten(v, Written(v, f, pos, s), f, pos, s, g, p)
  {
    SizedKeeps(v, f, pos, |s|);
    var w := Sized(v, f, pos, |s|);
    assert w.nodes[g].direct[p / BlockSize] == v.nodes[g].direct[p / BlockSize];
    if g == f && p / BlockSize == pos / BlockSize {
      SameDistance(pos, p);
      OverwrittenAt(w.data[NumberOf(w.nodes[f].direct[pos / BlockSize])], pos % BlockSize, s, p % BlockSize);
    } else {
      Apart(w, f, pos / BlockSize, g, p / BlockSize);
    }
  }

  // ---------------------------------------------------------------- reading after writing

  /** A read at the position of a write returns what was written, unless the write began behind the end
      of the file within the blocks it had: then the size is too small, and nothing is returned. */
  lemma ReadAfterWrite(v: Files, f: nat, pos: nat, s: seq<Byte>)
    requires CanWrite(v, f, pos, s) && Separate(v)
    ensures var v' := Written(v, f, pos, s);
      && CanRead(v', f, pos, |s|)
      && Read(v', f, pos, |s|) == if pos <= v.nodes[f].size || Blocks(v.nodes[f].size) < Blocks(pos + |s|) then Some(s) else None
  {
    WriteSets(v, f, pos, s);
    var v' := Written(v, f, pos, s);
    var b := v'.data[NumberOf(v'.nodes[f].direct[pos / BlockSize])];
    assert b[pos % BlockSize..pos % BlockSize + |s|] == s;
  }
}
