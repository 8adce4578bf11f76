/** The file system on the crash-safe disk: how an image is laid out in blocks, and what a
    crash leaves of the operations on it. */
module DurableFs {
  import opened Common
  import opened FsFormat
  import opened FsImage
  import opened FileSystem
  import Disk
  import LogFormat

  /** Boot block, superblock, log, inode blocks, free bit map, data blocks, in this order. */
  datatype Geometry = Geometry(lay: LogFormat.Layout, inodestart: nat, inodeblocks: nat, bmapstart: nat,
      bmapblocks: nat)

  const DINODE := 16   // words of an inode on disk

  ghost predicate Fits(g: Geometry, v: Image) {
    && g.lay.Ok() && Shaped(v) && |v.blocks| == g.lay.total
    && g.lay.start + g.lay.size <= g.inodestart && g.inodestart + g.inodeblocks <= g.bmapstart
    && g.bmapstart + g.bmapblocks <= v.meta
    && |v.inodes| <= g.inodeblocks * IPB && |v.used| <= g.bmapblocks * BPB
  }

  predicate InInodes(g: Geometry, x: int) { g.inodestart <= x < g.inodestart + g.inodeblocks }

  predicate InBitmap(g: Geometry, x: int) { g.bmapstart <= x < g.bmapstart + g.bmapblocks }

  /** The blocks an image is laid out in. */
  predicate Modelled(g: Geometry, v: Image, x: int) {
    InInodes(g, x) || InBitmap(g, x) || v.meta <= x < |v.blocks|
  }

  // ---- the layout ----

  /** Bits `at` to at+n-1 of the map as a number, lowest first. */
  function BitsValue(used: seq<bool>, at: nat, n: nat): nat
    decreases n
  {
    if n == 0 then 0 else (if at < |used| && used[at] then 1 else 0) + 2 * BitsValue(used, at + 1, n - 1)
  }

  function Power(n: nat): nat { if n == 0 then 1 else 2 * Power(n - 1) }

  lemma {:induction false} BitsBound(used: seq<bool>, at: nat, n: nat)
    ensures BitsValue(used, at, n) < Power(n)
    decreases n
  {
    if n > 0 {
      BitsBound(used, at + 1, n - 1);
    }
  }

  lemma WordPower()
    ensures Power(32) == WRAP
  {
    assert Power(8) == 0x100;
    assert Power(16) == 0x1_0000;
    assert Power(24) == 0x100_0000;
  }

  function MapWord(used: seq<bool>, at: nat): (w: Word) {
    BitsBound(used, at, 32);
    WordPower();
    BitsValue(used, at, 32)
  }

  /** Word f of an inode on disk; type, device numbers and link count are not modelled. */
  function InodeWord(q: Inode, f: nat): Word
    requires |q.addrs| == NDIRECT + 1 && f < DINODE
  {
    if f < 2 then 0 else if f == 2 then q.size % WRAP else q.addrs[f - 3]
  }

  ghost function InodeBlock(inodes: seq<Inode>, j: nat): (b: Disk.Block)
    requires forall i :: 0 <= i < |inodes| ==> |inodes[i].addrs| == NDIRECT + 1
  {
    seq(Disk.BLOCK_WORDS, k requires 0 <= k < Disk.BLOCK_WORDS =>
      var i := j * IPB + k / DINODE; if i < |inodes| then InodeWord(inodes[i], k % DINODE) else 0)
  }

  function MapBlock(used: seq<bool>, j: nat): (b: Disk.Block) {
    seq(Disk.BLOCK_WORDS, k requires 0 <= k < Disk.BLOCK_WORDS => MapWord(used, j * BPB + 32 * k))
  }

  function DataBlock(data: Block): (b: Disk.Block) {
    seq(Disk.BLOCK_WORDS, k requires 0 <= k < Disk.BLOCK_WORDS => GetWord(data, k))
  }

  /** Block x of the disk that holds image v. */
  ghost function Laid(g: Geometry, v: Image, x: nat): Disk.Block
    requires Shaped(v) && Modelled(g, v, x)
  {
    if InInodes(g, x) then InodeBlock(v.inodes, x - g.inodestart)
    else if InBitmap(g, x) then MapBlock(v.used, x - g.bmapstart)
    else DataBlock(v.blocks[x])
  }

  ghost predicate LaidOut(g: Geometry, v: Image, d: Disk.Platter) {
    && Shaped(v) && |d| == |v.blocks|
    && forall x :: 0 <= x < |d| && Modelled(g, v, x) ==> d[x] == Laid(g, v, x)
  }

  // ---- reading it back ----

  function BitOf(w: nat, k: nat): bool { if k == 0 then w % 2 == 1 else BitOf(w / 2, k - 1) }

  function UsedAt(g: Geometry, d: Disk.Platter, b: nat): bool
    requires b / BPB + g.bmapstart < |d|
  {
    BitOf(d[b / BPB + g.bmapstart][b % BPB / 32], b % BPB % 32)
  }

  function InodeAt(g: Geometry, d: Disk.Platter, i: nat): Inode
    requires i / IPB + g.inodestart < |d|
  {
    var block, at := d[i / IPB + g.inodestart], i % IPB * DINODE;
    Inode(block[at + 2], block[at + 3..at + DINODE])
  }

  function ByteOf(w: Word, k: nat): Byte
    requires k < 4
  {
    if k == 0 then w % 0x100 else if k == 1 then w / 0x100 % 0x100
    else if k == 2 then w / 0x1_0000 % 0x100 else w / 0x100_0000
  }

  function DataAt(d: Disk.Platter, b: nat): Block
    requires b < |d|
  {
    seq(BSIZE, k requires 0 <= k < BSIZE => ByteOf(d[b][k / 4], k % 4))
  }

  /** Read back, disk d gives the image v. */
  ghost predicate ReadsBack(g: Geometry, d: Disk.Platter, v: Image) {
    && Fits(g, v) && |d| == |v.blocks|
    && (forall b :: 0 <= b < |v.used| ==> UsedAt(g, d, b) == v.used[b])
    && (forall i :: 0 <= i < |v.inodes| ==> InodeAt(g, d, i) == v.inodes[i])
    && (forall b :: v.meta <= b < |v.blocks| ==> DataAt(d, b) == v.blocks[b])
  }

  lemma {:induction false} BitRead(used: seq<bool>, at: nat, n: nat, k: nat)
    requires k < n
    ensures BitOf(BitsValue(used, at, n), k) <==> at + k < |used| && used[at + k]
    decreases n
  {
    var rest := BitsValue(used, at + 1, n - 1);
    var bit := if at < |used| && used[at] then 1 else 0;
    assert (bit + 2 * rest) / 2 == rest && (bit + 2 * rest) % 2 == bit;
    if k > 0 {
      BitRead(used, at + 1, n - 1, k - 1);
    }
  }

  lemma ByteRead(b: Block, k: nat)
    requires k < BSIZE
    ensures ByteOf(GetWord(b, k / 4), k % 4) == b[k]
  {
    var j := k / 4;
    var b0: int, b1: int, b2: int, b3: int := b[4 * j], b[4 * j + 1], b[4 * j + 2], b[4 * j + 3];
    BytesRead(b0, b1, b2, b3);
    assert k == 4 * j + k % 4;
  }

  lemma BytesRead(b0: int, b1: int, b2: int, b3: int)
    requires 0 <= b0 < 0x100 && 0 <= b1 < 0x100 && 0 <= b2 < 0x100 && 0 <= b3 < 0x100
    ensures var w := b0 + 0x100 * b1 + 0x1_0000 * b2 + 0x100_0000 * b3;
            w % 0x100 == b0 && w / 0x100 % 0x100 == b1 && w / 0x1_0000 % 0x100 == b2 && w / 0x100_0000 == b3
  {
    var u, t := b1 + 0x100 * b2 + 0x1_0000 * b3, b2 + 0x100 * b3;
    var w := b0 + 0x100 * u;
    LowByte(b0, u);
    LowByte(b1, t);
    LowByte(b2, b3);
    Halves(w, 0x100, 0x100);
    Halves(w, 0x1_0000, 0x100);
  }

  lemma LowByte(b: int, u: int)
    requires 0 <= b < 0x100
    ensures (b + 0x100 * u) % 0x100 == b && (b + 0x100 * u) / 0x100 == u
  {
  }

  lemma Halves(w: int, a: int, b: int)
    requires a == 0x100 || a == 0x1_0000
    requires b == 0x100
    ensures w / a / b == w / (a * b)
  {
  }

  /** A disk that an image is laid out on reads back as that image. */
  lemma LaidOutReadsBack(g: Geometry, v: Image, d: Disk.Platter)
    requires Fits(g, v) && LaidOut(g, v, d) && AllSized(v)
    ensures ReadsBack(g, d, v)
  {
    forall b | 0 <= b < |v.used| ensures UsedAt(g, d, b) == v.used[b] {
      UsedReads(g, v, d, b);
    }
    forall i | 0 <= i < |v.inodes| ensures InodeAt(g, d, i) == v.inodes[i] {
      InodeReads(g, v, d, i);
    }
    forall b | v.meta <= b < |v.blocks| ensures DataAt(d, b) == v.blocks[b] {
      DataReads(g, v, d, b);
    }
  }

  lemma UsedReads(g: Geometry, v: Image, d: Disk.Platter, b: nat)
    requires Fits(g, v) && LaidOut(g, v, d) && b < |v.used|
    ensures b / BPB + g.bmapstart < |d| && UsedAt(g, d, b) == v.used[b]
  {
    hide InodeBlock, DataBlock, BitsValue;
    var j, k, m := b / BPB, b % BPB / 32, b % BPB % 32;
    MapPlace(b);
    assert InBitmap(g, j + g.bmapstart) && Modelled(g, v, j + g.bmapstart);
    BitRead(v.used, j * BPB + 32 * k, 32, m);
  }

  lemma MapPlace(b: nat)
    ensures b / BPB * BPB + 32 * (b % BPB / 32) + b % BPB % 32 == b && b % BPB / 32 < Disk.BLOCK_WORDS
  {
  }

  lemma InodeReads(g: Geometry, v: Image, d: Disk.Platter, i: nat)
    requires Fits(g, v) && LaidOut(g, v, d) && AllSized(v) && i < |v.inodes|
    ensures i / IPB + g.inodestart < |d| && InodeAt(g, d, i) == v.inodes[i]
  {
    var j, r := i / IPB, i % IPB;
    var x := j + g.inodestart;
    InodePlace(i);
    assert InInodes(g, x) && Modelled(g, v, x);
    InodeFields(v.inodes, j, r, d[x], r * DINODE, v.inodes[i]);
    assert Sized(v, i);
    InodeWords(v.inodes[i], d[x], r * DINODE);
  }

  /** Word f of inode q stands in the block behind word `at`. */
  predicate FieldAt(block: Disk.Block, at: nat, q: Inode, f: nat)
    requires at + DINODE <= Disk.BLOCK_WORDS && f < DINODE && |q.addrs| == NDIRECT + 1
  {
    block[at + f] == InodeWord(q, f)
  }

  lemma InodeFields(inodes: seq<Inode>, j: nat, r: nat, block: Disk.Block, at: nat, q: Inode)
    requires forall i :: 0 <= i < |inodes| ==> |inodes[i].addrs| == NDIRECT + 1
    requires r < IPB && j * IPB + r < |inodes|
    requires block == InodeBlock(inodes, j) && at == r * DINODE && q == inodes[j * IPB + r]
    ensures forall f :: 0 <= f < DINODE ==> FieldAt(block, at, q, f)
  {
    forall f | 0 <= f < DINODE ensures FieldAt(block, at, q, f) {
      InodeField(inodes, j, r, f);
    }
  }

  lemma InodePlace(i: nat)
    ensures i / IPB * IPB + i % IPB == i && i % IPB * DINODE + DINODE <= Disk.BLOCK_WORDS
  {
  }

  lemma InodeWords(q: Inode, block: Disk.Block, at: nat)
    requires |q.addrs| == NDIRECT + 1 && q.size < WRAP && at + DINODE <= Disk.BLOCK_WORDS
    requires forall f :: 0 <= f < DINODE ==> FieldAt(block, at, q, f)
    ensures Inode(block[at + 2], block[at + 3..at + DINODE]) == q
  {
    assert FieldAt(block, at, q, 2);
    forall k | 0 <= k <= NDIRECT ensures block[at + 3..at + DINODE][k] == q.addrs[k] {
      assert FieldAt(block, at, q, k + 3);
    }
  }

  lemma InodeField(inodes: seq<Inode>, j: nat, r: nat, f: nat)
    requires forall i :: 0 <= i < |inodes| ==> |inodes[i].addrs| == NDIRECT + 1
    requires r < IPB && f < DINODE && j * IPB + r < |inodes|
    ensures InodeBlock(inodes, j)[r * DINODE + f] == InodeWord(inodes[j * IPB + r], f)
  {
    var k := r * DINODE + f;
    assert k / DINODE == r && k % DINODE == f;
  }

  lemma DataReads(g: Geometry, v: Image, d: Disk.Platter, b: nat)
    requires Fits(g, v) && LaidOut(g, v, d) && v.meta <= b < |v.blocks|
    ensures b < |d| && DataAt(d, b) == v.blocks[b]
  {
    assert Modelled(g, v, b) && !InInodes(g, b) && !InBitmap(g, b);
    forall k | 0 <= k < BSIZE ensures DataAt(d, b)[k] == v.blocks[b][k] {
      ByteRead(v.blocks[b], k);
    }
  }

  // ---- what an operation changes on disk ----

  lemma {:induction false} SameBits(a: seq<bool>, b: seq<bool>, at: nat, n: nat)
    requires |a| == |b| && forall c :: at <= c < at + n && c < |a| ==> a[c] == b[c]
    ensures BitsValue(a, at, n) == BitsValue(b, at, n)
    decreases n
  {
    if n > 0 {
      SameBits(a, b, at + 1, n - 1);
    }
  }

  /** Bit c of the map stands in word k of bitmap block j. */
  predicate InMap(j: nat, k: nat, c: nat) { j * BPB + 32 * k <= c < j * BPB + 32 * k + 32 }

  lemma InMapBlock(j: nat, k: nat, c: nat)
    requires k < Disk.BLOCK_WORDS && InMap(j, k, c)
    ensures c / BPB == j
  {
  }

  /** A block that the operation did not log is laid out as before. */
  lemma UnloggedStays(g: Geometry, v: Image, w: Image, logged: set<nat>, x: nat)
    requires Fits(g, v) && Fits(g, w) && Covered(v, w, g.inodestart, g.bmapstart, logged)
    requires Modelled(g, v, x) && x !in logged
    ensures Modelled(g, w, x) && Laid(g, w, x) == Laid(g, v, x)
  {
    if InInodes(g, x) {
      InodesStay(g, v, w, logged, x);
    } else if InBitmap(g, x) {
      MapStays(g, v, w, logged, x);
    } else {
      assert BlockKept(v.blocks, w.blocks, logged, x);
    }
  }

  lemma InodesStay(g: Geometry, v: Image, w: Image, logged: set<nat>, x: nat)
    requires Fits(g, v) && Fits(g, w) && Covered(v, w, g.inodestart, g.bmapstart, logged)
    requires InInodes(g, x) && x !in logged
    ensures InodeBlock(w.inodes, x - g.inodestart) == InodeBlock(v.inodes, x - g.inodestart)
  {
    var j: nat := x - g.inodestart;
    forall k: nat | k < Disk.BLOCK_WORDS
      ensures InodeBlock(w.inodes, j)[k] == InodeBlock(v.inodes, j)[k]
    {
      var i := j * IPB + k / DINODE;
      assert i / IPB == j;
      assert i < |v.inodes| ==> InodeKept(v.inodes, w.inodes, logged, g.inodestart, i);
    }
  }

  lemma MapStays(g: Geometry, v: Image, w: Image, logged: set<nat>, x: nat)
    requires Fits(g, v) && Fits(g, w) && Covered(v, w, g.inodestart, g.bmapstart, logged)
    requires InBitmap(g, x) && x !in logged
    ensures MapBlock(w.used, x - g.bmapstart) == MapBlock(v.used, x - g.bmapstart)
  {
    hide MapWord, Fits;
    var j: nat := x - g.bmapstart;
    forall k: nat | k < Disk.BLOCK_WORDS
      ensures MapBlock(w.used, j)[k] == MapBlock(v.used, j)[k]
    {
      forall c: nat | InMap(j, k, c) && c < |v.used| ensures v.used[c] == w.used[c] {
        InMapBlock(j, k, c);
        assert BitKept(v.used, w.used, logged, g.bmapstart, c);
      }
      SameWord(v.used, w.used, j, k);
    }
  }

  lemma SameWord(a: seq<bool>, b: seq<bool>, j: nat, k: nat)
    requires |a| == |b| && forall c: nat :: InMap(j, k, c) && c < |a| ==> a[c] == b[c]
    ensures MapWord(a, j * BPB + 32 * k) == MapWord(b, j * BPB + 32 * k)
  {
    var at := j * BPB + 32 * k;
    forall c | at <= c < at + 32 && c < |a| ensures a[c] == b[c] {
      assert InMap(j, k, c);
    }
    SameBits(a, b, at, 32);
  }

  /** What an operation logs are home blocks the image is laid out in. */
  lemma LoggedIsHome(g: Geometry, v: Image, b: nat)
    requires Fits(g, v) && Known(v, g.inodestart, g.bmapstart, b)
    ensures g.lay.IsHome(b) && Modelled(g, v, b)
  {
  }
}
