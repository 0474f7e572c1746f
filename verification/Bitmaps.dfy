/** The bitmaps of kernel/fs/fs.c (357-417, 699-704) as bytes: bit k of a map is bit k % 8 of byte
    k / 8.  The routines on bytes do to these bits what the ones of module Inodes do to a map of flags,
    which is how the file system classes hold their maps. */
module Bitmaps {
  import I = Inodes

  function Mask(r: nat): bv8
    requires r < 8
  {
    1 as bv8 << r
  }

  predicate BitOf(b: bv8, r: nat)
    requires r < 8
  {
    b & Mask(r) != 0
  }

  /** The flags a buffer of bytes stands for. */
  function Bits(m: seq<bv8>): (s: seq<bool>)
    ensures |s| == 8 * |m|
  {
    seq(8 * |m|, k requires 0 <= k < 8 * |m| => BitOf(m[k / 8], k % 8))
  }

  lemma SetOne(b: bv8, r: nat, s: nat)
    requires r < 8 && s < 8
    ensures BitOf(b | Mask(r), s) == (s == r || BitOf(b, s))
  {
    Pick(r);
    Pick(s);
  }

  lemma ClearOne(b: bv8, r: nat, s: nat)
    requires r < 8 && s < 8
    ensures BitOf(b & !Mask(r), s) == (s != r && BitOf(b, s))
  {
    Pick(r);
    Pick(s);
  }

  /** The eight masks one by one. */
  lemma Pick(r: nat)
    requires r < 8
    ensures Mask(r) == match r case 0 => 1 case 1 => 2 case 2 => 4 case 3 => 8 case 4 => 16 case 5 => 32 case 6 => 64 case _ => 128
  {
  }

  lemma BitsAfter(m: seq<bv8>, k: nat, b: bv8, value: bool)
    requires k < 8 * |m|
    requires forall s :: 0 <= s < 8 ==> BitOf(b, s) == if s == k % 8 then value else BitOf(m[k / 8], s)
    ensures Bits(m[k / 8 := b]) == Bits(m)[k := value]
  {
    var m' := m[k / 8 := b];
    forall i | 0 <= i < 8 * |m| ensures Bits(m')[i] == Bits(m)[k := value][i] {
      assert i == 8 * (i / 8) + i % 8 && k == 8 * (k / 8) + k % 8;
    }
  }

  lemma ClearedBits(m: seq<bv8>, k: nat)
    requires k < 8 * |m|
    ensures Bits(m[k / 8 := m[k / 8] & !Mask(k % 8)]) == Bits(m)[k := false]
  {
    var b, r := m[k / 8], k % 8;
    forall s | 0 <= s < 8 ensures BitOf(b & !Mask(r), s) == (s != r && BitOf(b, s)) { ClearOne(b, r, s); }
    BitsAfter(m, k, b & !Mask(r), false);
  }

  lemma SetBits(m: seq<bv8>, k: nat)
    requires k < 8 * |m|
    ensures Bits(m[k / 8 := m[k / 8] | Mask(k % 8)]) == Bits(m)[k := true]
  {
    var b, r := m[k / 8], k % 8;
    forall s | 0 <= s < 8 ensures BitOf(b | Mask(r), s) == (s == r || BitOf(b, s)) { SetOne(b, r, s); }
    BitsAfter(m, k, b | Mask(r), true);
  }

  /** find_first_zero_bit. */
  method FindFirstZeroBit(buf: array<bv8>) returns (i: nat)
    requires !I.AllSet(Bits(buf[..]))
    ensures i == I.FirstZero(Bits(buf[..]))
  {
    i := 0;
    while buf[i / 8] & Mask(i % 8) != 0
      invariant 0 <= i <= I.FirstZero(Bits(buf[..]))
      decreases 8 * buf.Length - i
    {
      assert Bits(buf[..])[i];
      i := i + 1;
    }
    assert !Bits(buf[..])[i];
  }

  /** clear_bit. */
  method ClearBit(buf: array<bv8>, k: nat)
    requires k < 8 * buf.Length
    modifies buf
    ensures Bits(buf[..]) == I.ClearBit(Bits(old(buf[..])), k)
  {
    var b, r := k / 8, k % 8;
    ClearedBits(buf[..], k);
    buf[b] := buf[b] & !Mask(r);
  }

  /** allocate_inode and allocate_data_block: nothing happens beyond the limit or for a bit that is set. */
  method Allocate(buf: array<bv8>, k: nat) returns (ok: bool)
    modifies buf
    ensures ok <==> k < 8 * buf.Length && !Bits(old(buf[..]))[k]
    ensures Bits(buf[..]) == if ok then Bits(old(buf[..]))[k := true] else Bits(old(buf[..]))
  {
    if k >= 8 * buf.Length { return false; }
    var b, r := k / 8, k % 8;
    if buf[b] & Mask(r) != 0 {
      assert Bits(buf[..])[k];
      return false;
    }
    assert !Bits(buf[..])[k];
    SetBits(buf[..], k);
    buf[b] := buf[b] | Mask(r);
    ok := true;
  }
}
