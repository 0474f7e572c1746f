/** do_resize, do_fwrite, do_fread and do_fseek (kernel/fs/fs.c:839-962, 1089-1110) on an open file,
    for the requests that come to an end (FileContents.EndsExactly).  Access rights do not appear:
    the test for them compares with a constant that is always 0 and so never denies. */
module FileIo {
  import opened Inodes
  import opened FileContents
  import opened Wrappers

  class OpenFile {
    var blockMap: seq<bool>
    var nodes: seq<FileNode>
    var data: seq<seq<Byte>>
    var file: nat
    var pos: nat

    function State(): Files
      reads this
    {
      Files(blockMap, nodes, data)
    }

    /** do_resize: the slots from the first unused one on get free blocks. */
    method Resize(size: nat)
      requires CanResize(State(), file, size)
      modifies this`blockMap, this`nodes
      ensures State() == Resized(old(State()), file, size)
    {
      var used, all := Blocks(nodes[file].size), Blocks(size);
      if all > used {
        ghost var v := WithSize(State(), file, size);
        nodes := nodes[file := nodes[file].(size := size)];
        if all < 16 {
          var i := used;
          while i < all
            invariant used <= i <= all && file < |nodes| && |nodes[file].direct| == Slots && CanGrow(State(), file, i, all)
            invariant Grown(State(), file, i, all) == Grown(v, file, used, all)
          {
            var k := FindFirstZeroBit(blockMap);
            blockMap := blockMap[k := true];
            nodes := nodes[file := nodes[file].(direct := nodes[file].direct[i := Offset(k)])];
            i := i + 1;
          }
        }
      }
    }

    /** The loop of lines 884-887. */
    method CopyInto(block: seq<Byte>, r: nat, buf: seq<Byte>) returns (wbuf: seq<Byte>)
      requires |block| == BlockSize && r + |buf| <= BlockSize
      ensures wbuf == Overwritten(block, r, buf)
    {
      wbuf := block;
      var i := 0;
      while i < |buf| && i < BlockSize - r
        invariant i <= |buf| && wbuf == Overwritten(block, r, buf[..i])
      {
        wbuf := wbuf[r + i := buf[i]];
        i := i + 1;
        assert buf[..i] == buf[..i - 1] + [buf[i - 1]];
      }
      assert buf[..i] == buf;
    }

    /** do_fwrite of a request that stays below the block boundary. */
    method Fwrite(buf: seq<Byte>)
      requires CanWrite(State(), file, pos, buf)
      modifies this`blockMap, this`nodes, this`data, this`pos
      ensures State() == Written(old(State()), file, old(pos), buf) && pos == old(pos) + |buf|
    {
      ghost var v := State();
      var resized := Blocks(nodes[file].size) < Blocks(pos + |buf|);
      if resized { Resize(pos + |buf|); }
      var blk := NumberOf(nodes[file].direct[pos / BlockSize]);
      SameBlock(v, State(), file, pos, |buf|, resized);
      var wbuf := CopyInto(data[blk], pos % BlockSize, buf);
      pos := pos + |buf|;
      if !resized { nodes := nodes[file := nodes[file].(size := nodes[file].size + |buf|)]; }
      data := data[blk := wbuf];
    }

    /** do_fread of a request that ends: nothing beyond the size.  A file without a block has nothing
        to copy. */
    method Fread(n: nat) returns (r: Option<seq<Byte>>)
      requires CanRead(State(), file, pos, n)
      modifies this`pos
      ensures r == Read(State(), file, old(pos), n) && pos == old(pos) + (if r.Some? then n else 0)
      ensures forall c :: Contains(State(), file, c) ==> r == if old(pos) + n <= |c| then Some(c[old(pos)..old(pos) + n]) else None
    {
      forall c | Contains(State(), file, c) ensures Read(State(), file, pos, n) == if pos + n <= |c| then Some(c[pos..pos + n]) else None {
        ReadsExactly(State(), file, c, pos, n);
      }
      if pos + n > nodes[file].size { return None; }
      var blk := NumberOf(nodes[file].direct[pos / BlockSize]);
      var rbuf := if blk < BlockMax then data[blk] else [];
      var at, out, i := pos % BlockSize, [], 0;
      while i < n
        invariant i <= n && (n > 0 ==> out == rbuf[at..at + i]) && |out| == i
      {
        out := out + [rbuf[at + i]];
        i := i + 1;
      }
      pos := pos + n;
      r := Some(out);
    }

    /** do_fseek. */
    method Fseek(to: nat)
      modifies this`pos
      ensures pos == to
    {
      pos := to;
    }

    /** What callers do with the three calls: a text appended, and read again from where it began, comes
        back; so the position that do_fseek sets is where the next read starts. */
    method WriteAndReadBack(buf: seq<Byte>, ghost c: seq<Byte>) returns (r: Option<seq<Byte>>)
      requires Contains(State(), file, c) && pos == |c| && buf != [] && |c| + |buf| < BlockSize
      requires c == [] ==> !AllSet(blockMap)
      modifies this`blockMap, this`nodes, this`data, this`pos
      ensures r == Some(buf) && pos == |c| + |buf|
      ensures Contains(State(), file, c + buf) && OthersSame(old(State()), State(), file)
    {
      var start := pos;
      Append(State(), file, c, buf);
      Fwrite(buf);
      ReadsAppended(State(), file, c, buf);
      Fseek(start);
      r := Fread(|buf|);
    }
  }

  lemma ReadsAppended(v: Files, f: nat, c: seq<Byte>, buf: seq<Byte>)
    requires Contains(v, f, c + buf) && buf != []
    ensures CanRead(v, f, |c|, |buf|) && Read(v, f, |c|, |buf|) == Some(buf)
  {
    ReadsExactly(v, f, c + buf, |c|, |buf|);
    assert (c + buf)[|c|..|c + buf|] == buf;
  }

  /** The size is entered only after the copy when nothing was resized; the block is the same. */
  lemma SameBlock(v: Files, w: Files, f: nat, pos: nat, n: nat, resized: bool)
    requires CanResize(v, f, pos + n) && (resized <==> Blocks(v.nodes[f].size) < Blocks(pos + n))
    requires w == if resized then Resized(v, f, pos + n) else v
    requires HasBlock(Sized(v, f, pos, n), f, pos / BlockSize)
    ensures HasBlock(w, f, pos / BlockSize) && w.nodes[f].direct == Sized(v, f, pos, n).nodes[f].direct && w.data == Sized(v, f, pos, n).data
  {
  }
}
