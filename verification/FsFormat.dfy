/** How the file system reads its blocks: bits of the free map, words of an indirect block,
    bytes of a file. */
module FsFormat {
  import opened Common

  const BSIZE := 512
  const NDIRECT := 12
  const NINDIRECT := 128
  const MAXFILE := 140
  const BPB := 4096       // bitmap bits per block
  const IPB := 8          // inodes per block

  type Byte = b: nat | b < 256
  type Block = b: seq<Byte> | |b| == BSIZE witness seq(BSIZE, _ => 0)

  function Zeros(): (b: Block)
    ensures forall k :: 0 <= k < BSIZE ==> b[k] == 0
  {
    seq(BSIZE, _ => 0)
  }

  // ---- the free map ----

  /** The mask of bit k of a byte. */
  function Mask(k: nat): bv8
    requires k < 8
  {
    if k == 0 then 1 else if k == 1 then 2 else if k == 2 then 4 else if k == 3 then 8
    else if k == 4 then 16 else if k == 5 then 32 else if k == 6 then 64 else 128
  }

  /** The mask of bit k is 1 shifted by k. */
  lemma MaskShifts(k: nat)
    requires k < 7
    ensures Mask(0) == 1 && Mask(k + 1) == Mask(k) << 1
  {
  }

  /** The bit of block b is set. */
  predicate Bit(bits: seq<bv8>, b: nat)
    requires b / 8 < |bits|
  {
    bits[b / 8] & Mask(b % 8) != 0
  }

  lemma OrMask(x: bv8, i: nat, j: nat)
    requires i < 8 && j < 8
    ensures (x | Mask(i)) & Mask(j) != 0 <==> i == j || x & Mask(j) != 0
  {
  }

  lemma AndNotMask(x: bv8, i: nat, j: nat)
    requires i < 8 && j < 8
    ensures (x & !Mask(i)) & Mask(j) != 0 <==> i != j && x & Mask(j) != 0
  {
  }

  /** Or-ing in the mask sets one bit and no other ... */
  lemma SetBit(bits: seq<bv8>, b: nat, c: nat)
    requires b / 8 < |bits| && c / 8 < |bits|
    ensures Bit(bits[b / 8 := bits[b / 8] | Mask(b % 8)], c) <==> c == b || Bit(bits, c)
  {
    if b / 8 == c / 8 {
      OrMask(bits[b / 8], b % 8, c % 8);
    }
  }

  /** ... and and-ing with its complement clears one. */
  lemma ClearBit(bits: seq<bv8>, b: nat, c: nat)
    requires b / 8 < |bits| && c / 8 < |bits|
    ensures Bit(bits[b / 8 := bits[b / 8] & !Mask(b % 8)], c) <==> c != b && Bit(bits, c)
  {
    if b / 8 == c / 8 {
      AndNotMask(bits[b / 8], b % 8, c % 8);
    }
  }

  // ---- the words of an indirect block ----

  /** Word j of a block of little-endian words. */
  function GetWord(b: Block, j: nat): (w: Word)
    requires j < NINDIRECT
  {
    var b0: int, b1: int, b2: int, b3: int := b[4 * j], b[4 * j + 1], b[4 * j + 2], b[4 * j + 3];
    b0 + 0x100 * b1 + 0x1_0000 * b2 + 0x100_0000 * b3
  }

  function SetWord(b: Block, j: nat, w: Word): (c: Block)
    requires j < NINDIRECT
  {
    b[4 * j := w % 0x100][4 * j + 1 := w / 0x100 % 0x100]
     [4 * j + 2 := w / 0x1_0000 % 0x100][4 * j + 3 := w / 0x100_0000]
  }

  lemma Bytes(w: Word)
    ensures w % 0x100 + 0x100 * (w / 0x100 % 0x100) + 0x1_0000 * (w / 0x1_0000 % 0x100)
            + 0x100_0000 * (w / 0x100_0000) == w
  {
  }

  lemma GetSet(b: Block, j: nat, w: Word, k: nat)
    requires j < NINDIRECT && k < NINDIRECT
    ensures GetWord(SetWord(b, j, w), k) == if k == j then w else GetWord(b, k)
  {
    Bytes(w);
  }

  lemma ZeroWords(j: nat)
    requires j < NINDIRECT
    ensures GetWord(Zeros(), j) == 0
  {
  }

  // ---- the bytes of a file ----

  /** The block with src copied over the bytes from `at` on. */
  function Patch(b: Block, at: nat, src: seq<Byte>): (c: Block)
    requires at + |src| <= BSIZE
    ensures forall k :: 0 <= k < BSIZE ==> c[k] == if at <= k < at + |src| then src[k - at] else b[k]
  {
    seq(BSIZE, k requires 0 <= k < BSIZE => if at <= k < at + |src| then src[k - at] else b[k])
  }

  /** Blocks that hold a file of n bytes. */
  function Ceil(n: nat): nat {
    (n + BSIZE - 1) / BSIZE
  }

  function Max(a: nat, b: nat): nat {
    if a < b then b else a
  }

  /** s with the bytes from `off` on replaced by src, and longer if src reaches past its end. */
  function Overlay(s: seq<Byte>, off: nat, src: seq<Byte>): (t: seq<Byte>)
    requires off <= |s|
    ensures |t| == Max(|s|, off + |src|)
  {
    seq(Max(|s|, off + |src|), p requires 0 <= p < Max(|s|, off + |src|) =>
      if off <= p < off + |src| then src[p - off] else s[p])
  }

  /** Where the step of writei at `off` stands in a file of which `len` bytes are there. */
  lemma StepBlock(len: nat, off: nat, m: nat)
    requires off <= len && 0 < m <= BSIZE - off % BSIZE
    ensures off / BSIZE <= Ceil(len)
    ensures Ceil(Max(len, off + m)) == if off / BSIZE == Ceil(len) then Ceil(len) + 1 else Ceil(len)
  {
    var bn, r := off / BSIZE, off % BSIZE;
    assert off == bn * BSIZE + r;
    if bn == Ceil(len) {
      assert r == 0 && len == off;
    }
  }

  lemma OverlayTwice(s: seq<Byte>, off: nat, a: seq<Byte>, b: seq<Byte>)
    requires off <= |s|
    ensures Overlay(Overlay(s, off, a), off + |a|, b) == Overlay(s, off, a + b)
  {
  }

  lemma CeilCovers(n: nat)
    ensures n <= Ceil(n) * BSIZE
  {
  }

  /** A read of the range written returns what was written; a read that misses the range
      returns what was there. */
  lemma ReadBack(s: seq<Byte>, off: nat, src: seq<Byte>, lo: nat, hi: nat)
    requires off <= |s| && lo <= hi <= |s| && (hi <= off || off + |src| <= lo)
    ensures Overlay(s, off, src)[off..off + |src|] == src
    ensures Overlay(s, off, src)[lo..hi] == s[lo..hi]
  {
  }
}
