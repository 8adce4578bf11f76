/** The file system's block layer: allocation, block maps, truncation, reading and writing. */
module FileSystem {
  import opened Common
  import opened FsFormat
  import opened FsImage
  import Disk

  const MAXOPBLOCKS := Disk.MAXOPBLOCKS

  /** Every file has exactly the blocks its size calls for. */
  ghost predicate AllSized(v: Image) {
    forall i :: 0 <= i < |v.inodes| ==> Sized(v, i)
  }

  /** v with file i at least `size` bytes long. */
  ghost function Stretched(v: Image, i: nat, size: nat): Image
    requires i < |v.inodes|
  {
    if size > v.inodes[i].size then Resized(v, i, size) else v
  }

  /** Every block is marked in use: balloc can only panic. */
  ghost predicate Full(v: Image) {
    forall b :: 0 <= b < |v.used| ==> v.used[b]
  }

  lemma EmptyFiles(v: Image)
    requires Shaped(v) && v.owner == map[] && forall b :: 0 <= b < |v.used| ==> (v.used[b] <==> b < v.meta)
    requires forall i :: 0 <= i < |v.inodes| ==> v.inodes[i] == Inode(0, seq(NDIRECT + 1, _ => 0))
    ensures Sound(v) && AllSized(v)
  {
    forall s | IsSlot(v, s) ensures Named(v, s) == 0 {
      assert v.inodes[s.i] == Inode(0, seq(NDIRECT + 1, _ => 0));
    }
    forall i, bn | 0 <= i < |v.inodes| && 0 <= bn < MAXFILE ensures IsMapped(v, i, bn) == (bn < 0) {
      assert IsSlot(v, SlotOf(i, bn));
    }
    forall i | 0 <= i < |v.inodes| ensures Sized(v, i) {
      assert IsSlot(v, Indirect(i));
      assert v.inodes[i].size == 0;
    }
  }

  lemma BitWithin(b: nat, bi: nat)
    requires b % BPB == 0
    ensures (b + bi) / 8 == b / 8 + bi / 8 && (b + bi) % 8 == bi % 8
  {
    var k := b / BPB;
    assert b == 8 * (512 * k) && bi == 8 * (bi / 8) + bi % 8;
    assert b + bi == 8 * (512 * k + bi / 8) + bi % 8;
  }

  // ---- what an operation has changed, it has logged ----

  predicate BlockKept(v: seq<Block>, w: seq<Block>, logged: set<nat>, b: nat)
    requires b < |v| && b < |w|
  {
    w[b] == v[b] || b in logged
  }

  predicate BitKept(v: seq<bool>, w: seq<bool>, logged: set<nat>, bmapstart: nat, b: nat)
    requires b < |v| && b < |w|
  {
    w[b] == v[b] || b / BPB + bmapstart in logged
  }

  predicate InodeKept(v: seq<Inode>, w: seq<Inode>, logged: set<nat>, inodestart: nat, i: nat)
    requires i < |v| && i < |w|
  {
    w[i] == v[i] || i / IPB + inodestart in logged
  }

  /** b is a data block, a bitmap block or an inode block. */
  ghost predicate Known(v: Image, inodestart: nat, bmapstart: nat, b: nat) {
    || v.meta <= b < |v.blocks|
    || (exists c: nat :: c < |v.used| && b == c / BPB + bmapstart)
    || (exists i: nat :: i < |v.inodes| && b == i / IPB + inodestart)
  }

  /** An operation that started from the image in `start`, if one is under way, has logged
      every block, bit and inode on disk that is not what it was, and nothing unknown. */
  ghost predicate Accounted(start: Option<Image>, inodestart: nat, bmapstart: nat, meta: nat, blocks: seq<Block>,
                            used: seq<bool>, dinodes: seq<Inode>, logged: set<nat>)
  {
    match start
    case None => true
    case Some(v) =>
      && v.meta == meta && |v.blocks| == |blocks| && |v.used| == |used| && |v.inodes| == |dinodes|
      && (forall b :: 0 <= b < |blocks| ==> BlockKept(v.blocks, blocks, logged, b))
      && (forall b :: 0 <= b < |used| ==> BitKept(v.used, used, logged, bmapstart, b))
      && (forall i :: 0 <= i < |dinodes| ==> InodeKept(v.inodes, dinodes, logged, inodestart, i))
      && (forall b :: b in logged ==> Known(v, inodestart, bmapstart, b))
  }

  /** The operation from v to w has changed nothing on disk but the blocks it logged. */
  ghost predicate Covered(v: Image, w: Image, inodestart: nat, bmapstart: nat, logged: set<nat>) {
    Accounted(Some(v), inodestart, bmapstart, w.meta, w.blocks, w.used, w.inodes, logged)
  }

  lemma AccountStart(v: Image, inodestart: nat, bmapstart: nat)
    ensures Covered(v, v, inodestart, bmapstart, {})
  {
  }

  lemma AccountBlock(start: Option<Image>, inodestart: nat, bmapstart: nat, meta: nat, blocks: seq<Block>,
                     used: seq<bool>, dinodes: seq<Inode>, logged: set<nat>, b: nat, data: Block)
    requires Accounted(start, inodestart, bmapstart, meta, blocks, used, dinodes, logged) && meta <= b < |blocks|
    ensures Accounted(start, inodestart, bmapstart, meta, blocks[b := data], used, dinodes, logged + {b})
  {
    if start.Some? {
      var v, w, more := start.value, blocks[b := data], logged + {b};
      forall c | 0 <= c < |w| ensures BlockKept(v.blocks, w, more, c) {
        assert BlockKept(v.blocks, blocks, logged, c);
      }
      forall c | 0 <= c < |used| ensures BitKept(v.used, used, more, bmapstart, c) {
        assert BitKept(v.used, used, logged, bmapstart, c);
      }
      forall i | 0 <= i < |dinodes| ensures InodeKept(v.inodes, dinodes, more, inodestart, i) {
        assert InodeKept(v.inodes, dinodes, logged, inodestart, i);
      }
    }
  }

  lemma AccountBit(start: Option<Image>, inodestart: nat, bmapstart: nat, meta: nat, blocks: seq<Block>,
                   used: seq<bool>, dinodes: seq<Inode>, logged: set<nat>, b: nat, mark: bool)
    requires Accounted(start, inodestart, bmapstart, meta, blocks, used, dinodes, logged) && b < |used|
    ensures Accounted(start, inodestart, bmapstart, meta, blocks, used[b := mark], dinodes,
            logged + {b / BPB + bmapstart})
  {
    if start.Some? {
      var v, w, more := start.value, used[b := mark], logged + {b / BPB + bmapstart};
      forall c | 0 <= c < |blocks| ensures BlockKept(v.blocks, blocks, more, c) {
        assert BlockKept(v.blocks, blocks, logged, c);
      }
      forall c | 0 <= c < |w| ensures BitKept(v.used, w, more, bmapstart, c) {
        assert BitKept(v.used, used, logged, bmapstart, c);
      }
      forall i | 0 <= i < |dinodes| ensures InodeKept(v.inodes, dinodes, more, inodestart, i) {
        assert InodeKept(v.inodes, dinodes, logged, inodestart, i);
      }
    }
  }

  lemma AccountInode(start: Option<Image>, inodestart: nat, bmapstart: nat, meta: nat, blocks: seq<Block>,
                     used: seq<bool>, dinodes: seq<Inode>, logged: set<nat>, i: nat, inode: Inode)
    requires Accounted(start, inodestart, bmapstart, meta, blocks, used, dinodes, logged) && i < |dinodes|
    ensures Accounted(start, inodestart, bmapstart, meta, blocks, used, dinodes[i := inode],
            logged + {i / IPB + inodestart})
  {
    if start.Some? {
      var v, w, more := start.value, dinodes[i := inode], logged + {i / IPB + inodestart};
      forall c | 0 <= c < |blocks| ensures BlockKept(v.blocks, blocks, more, c) {
        assert BlockKept(v.blocks, blocks, logged, c);
      }
      forall c | 0 <= c < |used| ensures BitKept(v.used, used, more, bmapstart, c) {
        assert BitKept(v.used, used, logged, bmapstart, c);
      }
      forall j | 0 <= j < |w| ensures InodeKept(v.inodes, w, more, inodestart, j) {
        assert InodeKept(v.inodes, dinodes, logged, inodestart, j);
      }
    }
  }

  class Volume {
    const inodestart: nat
    const bmapstart: nat
    var blocks: seq<Block>
    var bits: seq<bv8>
    var inodes: seq<Inode>       // the inodes in memory
    var dinodes: seq<Inode>      // the inodes on disk
    var logged: set<nat>         // the blocks the current operation has passed to log_write
    ghost var img: Image
    ghost var start: Option<Image>   // the image at the start of the operation under way

    function BBlock(b: nat): nat { b / BPB + bmapstart }

    function IBlock(i: nat): nat { i / IPB + inodestart }

    /** The image is what the fields say. */
    ghost predicate Tied()
      reads this
    {
      && img.blocks == blocks && img.inodes == inodes && |img.used| == |blocks| <= 8 * |bits| && |blocks| < WRAP
      && Accounted(start, inodestart, bmapstart, img.meta, blocks, img.used, dinodes, logged)
      && forall b :: 0 <= b < |blocks| ==> img.used[b] == Bit(bits, b)
    }

    ghost predicate Valid()
      reads this
    {
      Tied() && Sound(img)
    }

    /** A file system of empty files: the metadata blocks are marked, the rest is free. */
    constructor (size: nat, meta: nat, files: nat, inodestart: nat, bmapstart: nat)
      requires 0 < meta <= size < WRAP
      ensures Ready() && |blocks| == size && |inodes| == files && img.meta == meta
    {
      this.inodestart, this.bmapstart := inodestart, bmapstart;
      blocks := seq(size, _ => Zeros());
      bits := seq(size / 8 + 1, _ => 0);
      inodes := seq(files, _ => Inode(0, seq(NDIRECT + 1, _ => 0)));
      dinodes := seq(files, _ => Inode(0, seq(NDIRECT + 1, _ => 0)));
      logged := {};
      img := Image(meta, seq(size, _ => Zeros()), seq(size, _ => false),
                   seq(files, _ => Inode(0, seq(NDIRECT + 1, _ => 0))), map[]);
      start := None;
      new;
      ghost var v := img;
      var b := 0;
      while b < meta
        invariant b <= meta && Tied() && |blocks| == size && dinodes == inodes == v.inodes && start == None
        invariant img == v.(used := img.used) && forall c :: 0 <= c < size ==> (img.used[c] <==> c < b)
      {
        Mark(b);
        b := b + 1;
      }
      EmptyFiles(img);
    }

    /** Allocate a zeroed block; None stands for the panic "out of blocks". */
    method Balloc() returns (r: Option<Word>)
      requires Valid()
      modifies this`blocks, this`bits, this`logged, this`img
      ensures Tied()
      ensures r.None? ==> Full(img) && img == old(img) && logged == old(logged)
      ensures r.Some? ==>
                && r.value < |old(img).used| && !old(img).used[r.value]
                && (forall c :: 0 <= c < r.value ==> old(img).used[c])
                && img == old(img).(used := old(img).used[r.value := true],
                     blocks := old(img).blocks[r.value := Zeros()])
                && logged == old(logged) + {BBlock(r.value), r.value}
    {
      var b: nat := 0;
      while b < |blocks|
        invariant b % BPB == 0 && Valid() && img == old(img) && logged == old(logged)
        invariant forall c :: 0 <= c < b && c < |blocks| ==> img.used[c]
      {
        var bi := FindBit(b);
        if bi < BPB && b + bi < |blocks| {
          Mark(b + bi);
          Bzero(b + bi);
          return Some(b + bi);
        }
        b := b + BPB;
      }
      r := None;
    }

    /** Zero a block. */
    method Bzero(b: nat)
      requires Tied() && img.meta <= b < |blocks|
      modifies this`blocks, this`logged, this`img
      ensures Tied() && img == old(img).(blocks := old(img).blocks[b := Zeros()]) && logged == old(logged) + {b}
    {
      AccountBlock(start, inodestart, bmapstart, img.meta, blocks, img.used, dinodes, logged, b, Zeros());
      blocks := blocks[b := Zeros()];
      logged := logged + {b};
      img := img.(blocks := blocks);
    }

    /** The inner loop of balloc: the first clear bit of the bitmap block of b. */
    method FindBit(b: nat) returns (bi: nat)
      requires Tied() && b % BPB == 0
      ensures bi <= BPB && forall c :: b <= c < b + bi && c < |blocks| ==> img.used[c]
      ensures bi == BPB || b + bi >= |blocks| || !img.used[b + bi]
    {
      bi := 0;
      while bi < BPB && b + bi < |blocks|
        invariant bi <= BPB && forall c :: b <= c < b + bi && c < |blocks| ==> img.used[c]
      {
        BitWithin(b, bi);
        assert img.used[b + bi] == Bit(bits, b + bi);
        if bits[b / 8 + bi / 8] & Mask(bi % 8) == 0 {
          return;
        }
        bi := bi + 1;
      }
    }

    /** The bit of block b is set and its bitmap block logged. */
    method Mark(b: nat)
      requires Tied() && b < |blocks|
      modifies this`bits, this`logged, this`img
      ensures Tied() && img == old(img).(used := old(img).used[b := true]) && logged == old(logged) + {BBlock(b)}
    {
      forall c | 0 <= c < |blocks|
          ensures Bit(bits[b / 8 := bits[b / 8] | Mask(b % 8)], c) <==> c == b || Bit(bits, c) {
        SetBit(bits, b, c);
      }
      AccountBit(start, inodestart, bmapstart, img.meta, blocks, img.used, dinodes, logged, b, true);
      bits := bits[b / 8 := bits[b / 8] | Mask(b % 8)];
      logged := logged + {BBlock(b)};
      img := img.(used := img.used[b := true]);
    }

    /** Free a block; false stands for the panic "freeing free block". */
    method Bfree(b: nat) returns (ok: bool)
      requires Tied() && b < |blocks|
      modifies this`bits, this`logged, this`img
      ensures Tied() && ok == old(img).used[b]
      ensures ok ==> img == old(img).(used := old(img).used[b := false]) && logged == old(logged) + {BBlock(b)}
      ensures !ok ==> img == old(img) && logged == old(logged)
      ensures |blocks| <= BPB ==> logged <= old(logged) + {bmapstart}
    {
      assert img.used[b] == Bit(bits, b);
      if bits[b / 8] & Mask(b % 8) == 0 {
        return false;
      }
      Unmark(b);
      ok := true;
    }

    /** The bit of block b is cleared and its bitmap block logged. */
    method Unmark(b: nat)
      requires Tied() && b < |blocks|
      modifies this`bits, this`logged, this`img
      ensures Tied() && img == old(img).(used := old(img).used[b := false]) && logged == old(logged) + {BBlock(b)}
    {
      forall c | 0 <= c < |blocks|
          ensures Bit(bits[b / 8 := bits[b / 8] & !Mask(b % 8)], c) <==> c != b && Bit(bits, c) {
        ClearBit(bits, b, c);
      }
      AccountBit(start, inodestart, bmapstart, img.meta, blocks, img.used, dinodes, logged, b, false);
      bits := bits[b / 8 := bits[b / 8] & !Mask(b % 8)];
      logged := logged + {BBlock(b)};
      img := img.(used := img.used[b := false]);
    }

    /** The block in address k of inode i, allocated if there is none. */
    method BmapSlot(i: nat, k: nat) returns (r: Option<Word>)
      requires Valid() && i < |inodes| && k <= NDIRECT
      modifies this`blocks, this`bits, this`inodes, this`logged, this`img
      ensures r.None? ==> Full(img) && Named(old(img), AddrSlot(i, k)) == 0
      ensures r.Some? ==>
                && Valid() && AddrMapped(old(img), img, i, k, r.value)
                && logged == (if img == old(img) then old(logged) else old(logged) + {BBlock(r.value), r.value})
    {
      ghost var v := img;
      var addr := inodes[i].addrs[k];
      if addr != 0 {
        return Some(addr);
      }
      r := Balloc();
      if r.None? {
        return;
      }
      AddrAllocated(v, i, k, r.value);
      inodes := inodes[i := inodes[i].(addrs := inodes[i].addrs[k := r.value])];
      img := Allocated(v, AddrSlot(i, k), r.value);
    }

    /** The entry j of the indirect block, allocating if it is 0. */
    method BmapEntry(i: nat, j: nat) returns (r: Option<Word>)
      requires Valid() && i < |inodes| && j < NINDIRECT && Table(img, i) != 0
      modifies this`blocks, this`bits, this`logged, this`img
      ensures r.None? ==> Full(img) && Named(old(img), Entry(i, j)) == 0
      ensures r.Some? ==>
                && Valid() && EntryMapped(old(img), img, i, j, r.value)
                && logged == (if img == old(img) then old(logged)
                              else old(logged) + {BBlock(r.value), r.value, Table(img, i)})
    {
      ghost var v := img;
      TableOwned(v, i);
      var t := inodes[i].addrs[NDIRECT];
      var bp := blocks[t];
      var addr := GetWord(bp, j);
      if addr != 0 {
        return Some(addr);
      }
      r := Balloc();
      if r.None? {
        return;
      }
      EntryAllocated(v, i, j, r.value);
      AccountBlock(start, inodestart, bmapstart, img.meta, blocks, img.used, dinodes, logged, t,
          SetWord(bp, j, r.value));
      blocks := blocks[t := SetWord(bp, j, r.value)];
      logged := logged + {t};
      img := Allocated(v, Entry(i, j), r.value);
    }

    /** The disk block of the bn-th block of inode i, allocated if there is none; None stands
        for the panics "out of range" and "out of blocks". */
    method Bmap(i: nat, bn: nat) returns (r: Option<Word>)
      requires Valid() && i < |inodes|
      modifies this`blocks, this`bits, this`inodes, this`logged, this`img
      ensures r.None? ==> bn >= MAXFILE || (Full(img) && Named(old(img), SlotOf(i, bn)) == 0)
      ensures r.Some? ==> bn < MAXFILE && Valid() && Mapped(old(img), img, i, bn, r.value)
      ensures r.Some? ==> old(logged) <= logged <= old(logged) + Touched(img, i, bn)
      ensures r.Some? && img == old(img) ==> logged == old(logged)
    {
      ghost var v := img;
      if bn < NDIRECT {
        r := BmapSlot(i, bn);
        if r.Some? {
          DirectMapped(v, img, i, bn, r.value);
        }
        return;
      }
      if bn - NDIRECT < NINDIRECT {
        r := BmapIndirect(i, bn);
        return;
      }
      r := None;
    }

    /** The second half of bmap: load the indirect block, allocating if necessary. */
    method BmapIndirect(i: nat, bn: nat) returns (r: Option<Word>)
      requires Valid() && i < |inodes| && NDIRECT <= bn < MAXFILE
      modifies this`blocks, this`bits, this`inodes, this`logged, this`img
      ensures r.None? ==> Full(img) && Named(old(img), SlotOf(i, bn)) == 0
      ensures r.Some? ==> Valid() && Mapped(old(img), img, i, bn, r.value)
      ensures r.Some? ==> old(logged) <= logged <= old(logged) + Touched(img, i, bn)
      ensures r.Some? && img == old(img) ==> logged == old(logged)
    {
      ghost var v := img;
      r := BmapSlot(i, NDIRECT);
      if r.None? {
        return;
      }
      TableThere(v, img, i, r.value);
      r := BmapUnder(i, bn, v, r.value);
    }

    /** The rest of it, once there is an indirect block t. */
    method BmapUnder(i: nat, bn: nat, ghost v: Image, ghost t: Word) returns (r: Option<Word>)
      requires Valid() && i < |inodes| && NDIRECT <= bn < MAXFILE && Table(img, i) == t != 0
      requires Sound(v) && i < |v.inodes| && AddrMapped(v, img, i, NDIRECT, t)
      modifies this`blocks, this`bits, this`inodes, this`logged, this`img
      ensures r.None? ==> Full(img) && Named(v, SlotOf(i, bn)) == 0
      ensures r.Some? ==> Valid() && Mapped(v, img, i, bn, r.value) && i < |inodes| && Table(img, i) == t
      ensures r.Some? ==>
                old(logged) <= logged <= old(logged) + (if old(img) == img then {} else {BBlock(r.value), r.value, t})
      ensures r.Some? && img == v ==> old(img) == v
    {
      ghost var w := img;
      r := BmapEntry(i, bn - NDIRECT);
      if r.Some? {
        IndirectMapped(v, w, img, i, bn, t, r.value);
      }
    }

    /** One turn of the loop of writei: bmap, bread, memmove, log_write; false stands for the
        panic of balloc. */
    method WriteStep(i: nat, off: nat, src: seq<Byte>) returns (ok: bool)
      requires Valid() && i < |inodes|
      requires 0 < |src| <= BSIZE - off % BSIZE && off / BSIZE < MAXFILE
      modifies this`blocks, this`bits, this`inodes, this`logged, this`img
      ensures !ok ==> Full(img)
      ensures ok ==> Valid() && (exists w :: Stepped(old(img), w, img, i, off, src))
      ensures ok && |blocks| <= BPB ==> logged <= old(logged) + Near(img, i, off / BSIZE, bmapstart)
    {
      ghost var v, bn := img, off / BSIZE;
      var r := Bmap(i, off / BSIZE);
      if r.None? {
        return false;
      }
      var addr := r.value;
      ghost var w, s, data := img, SlotOf(i, bn), Patch(Data(img, i, bn), off % BSIZE, src);
      AccountBlock(start, inodestart, bmapstart, img.meta, blocks, img.used, dinodes, logged, addr, data);
      blocks := blocks[addr := Patch(blocks[addr], off % BSIZE, src)];
      logged := logged + {addr};
      img := Written(w, s, data);
      WrittenSound(w, s, data);
      WrittenNames(w, s, data, s);
      WrittenNames(w, s, data, Indirect(i));
      assert Stepped(v, w, img, i, off, src);
      TouchedNear(w, i, bn);
      ok := true;
    }

    /** Between operations the inodes on disk are those in memory, and every file has exactly
        the blocks its size calls for. */
    ghost predicate Ready()
      reads this
    {
      Valid() && dinodes == inodes && AllSized(img)
    }

    method Iupdate(i: nat)
      requires Tied() && i < |inodes| == |dinodes|
      modifies this`dinodes, this`logged
      ensures Tied() && dinodes == old(dinodes)[i := inodes[i]] && logged == old(logged) + {IBlock(i)}
    {
      AccountInode(start, inodestart, bmapstart, img.meta, blocks, img.used, dinodes, logged, i, inodes[i]);
      dinodes := dinodes[i := inodes[i]];
      logged := logged + {IBlock(i)};
    }

    lemma TouchedNear(v: Image, i: nat, bn: nat)
      requires Sound(v) && i < |v.inodes| && bn < MAXFILE && Named(v, SlotOf(i, bn)) != 0
      requires bn >= NDIRECT ==> Table(v, i) != 0
      ensures |v.blocks| <= BPB ==> Touched(v, i, bn) <= Near(v, i, bn, bmapstart)
    {
      assert Owns(v, SlotOf(i, bn)) && OwnedOnce(v, Named(v, SlotOf(i, bn)));
      if bn >= NDIRECT {
        TableOwned(v, i);
      }
    }

    /** writei on a file that is not a device: -1 exactly if the range is refused, else every
        byte is written. It panics only if the disk is full. */
    method Writei(i: nat, src: seq<Byte>, off: nat) returns (r: int, panicked: bool)
      requires Ready() && i < |inodes| && |src| < WRAP && off < WRAP
      modifies this`blocks, this`bits, this`inodes, this`dinodes, this`logged, this`img
      ensures panicked ==> Full(img)
      ensures !panicked ==> Ready()
      ensures !panicked ==> r == if Refused(old(img), i, off, |src|) then -1 else |src|
      ensures !panicked ==> (r == |src| <==> off <= old(inodes)[i].size && off + |src| <= 140 * 512)
      ensures !panicked && r == -1 ==> img == old(img) && logged == old(logged)
      ensures !panicked && r >= 0 ==> WroteFile(old(img), img, i, off, src)
      ensures !panicked && r >= 0 && |blocks| <= BPB ==> logged <= old(logged) + Logs(img, i, off, |src|)
    {
      if off > inodes[i].size || (off + |src|) % WRAP < off {
        return -1, false;
      }
      if off + |src| > MAXFILE * BSIZE {
        return -1, false;
      }
      var ok := WriteAll(i, src, off);
      return |src|, !ok;
    }

    /** writei of a range it does not refuse; false stands for the panic of balloc. */
    method WriteAll(i: nat, src: seq<Byte>, off: nat) returns (ok: bool)
      requires Ready() && i < |inodes| && off <= inodes[i].size && off + |src| <= MAXFILE * BSIZE
      modifies this`blocks, this`bits, this`inodes, this`dinodes, this`logged, this`img
      ensures !ok ==> Full(img)
      ensures ok ==> Ready() && WroteFile(old(img), img, i, off, src)
      ensures ok && |blocks| <= BPB ==> logged <= old(logged) + Logs(img, i, off, |src|)
    {
      ghost var v := img;
      ok := WriteBlocks(i, src, off);
      if ok {
        ghost var y := Finished(v, img, i, off, src);
        WriteSize(i, off, |src|, v, y);
      }
    }

    /** What the loop of writei leaves is a successful write once the size is up to date. */
    lemma Finished(v: Image, x: Image, i: nat, off: nat, src: seq<Byte>) returns (y: Image)
      requires Progress(v, x, i, off, src, |src|) && AllSized(v)
      ensures y == Stretched(x, i, off + |src|)
      ensures WroteFile(v, y, i, off, src) && Sound(y) && AllSized(y)
      ensures Region(x, i, off / BSIZE, Reached(off, |src|), bmapstart) <=
              Region(y, i, off / BSIZE, Reached(off, |src|), bmapstart)
    {
      y := Stretched(x, i, off + |src|);
      WriteDone(v, x, i, off, src);
      ResizedRegion(x, i, off + |src|, off / BSIZE, Reached(off, |src|));
    }

    /** What writei does after its loop: if the file has grown, its size and its inode on disk
        are brought up to date. */
    method WriteSize(i: nat, off: nat, n: nat, ghost v: Image, ghost y: Image)
      requires Tied() && i < |inodes| == |v.inodes| && dinodes == v.inodes && OnlyInode(v, img, i)
      requires off <= inodes[i].size && (off + n <= inodes[i].size ==> inodes == v.inodes)
      requires y == Stretched(img, i, off + n)
      modifies this`inodes, this`dinodes, this`logged, this`img
      ensures Tied() && img == y && dinodes == inodes
      ensures logged <= old(logged) + {IBlock(i)}
    {
      if n > 0 && off + n > inodes[i].size {
        inodes := inodes[i := inodes[i].(size := off + n)];
        img := Resized(img, i, off + n);
        Iupdate(i);
      }
    }

    lemma ResizedRegion(x: Image, i: nat, size: nat, lo: nat, hi: nat)
      requires Sound(x) && i < |x.inodes| && lo <= hi <= MAXFILE
      ensures Shaped(Resized(x, i, size))
              && Region(x, i, lo, hi, bmapstart) <= Region(Resized(x, i, size), i, lo, hi, bmapstart)
    {
      var y := Resized(x, i, size);
      assert forall bn :: 0 <= bn < MAXFILE ==> SameNumber(x, y, i, bn);
      RegionStay(x, y, i, lo, hi, MAXFILE, bmapstart);
    }

    /** The first n bytes at `off` have been written; beyond `before` that has logged no block
        but those they reach into, the bitmap and the indirect block. */
    ghost predicate LoggedWithin(before: set<nat>, i: nat, off: nat, n: nat)
      requires Shaped(img) && i < |img.inodes| && off + n <= MAXFILE * BSIZE
      reads this
    {
      |blocks| <= BPB ==> logged <= before + Region(img, i, off / BSIZE, Reached(off, n), bmapstart)
    }

    /** The loop of writei. */
    method WriteBlocks(i: nat, src: seq<Byte>, off: nat) returns (ok: bool)
      requires Ready() && i < |inodes| && off <= inodes[i].size && off + |src| <= MAXFILE * BSIZE
      modifies this`blocks, this`bits, this`inodes, this`logged, this`img
      ensures !ok ==> Full(img)
      ensures ok ==> Valid() && Progress(old(img), img, i, off, src, |src|)
      ensures ok ==> LoggedWithin(old(logged), i, off, |src|)
    {
      hide Stepped, Extent, Overlay, OnlyInode;
      ghost var v, before := img, logged;
      ProgressStart(v, i, off, src);
      var tot := 0;
      while tot < |src|
        invariant tot <= |src| && Valid() && Progress(v, img, i, off, src, tot)
        invariant LoggedWithin(before, i, off, tot)
      {
        var m;
        ok, m := WriteTurn(i, src, off, tot, v, before);
        if !ok {
          return;
        }
        tot := tot + m;
      }
      ok := true;
    }

    /** One turn: as much of the rest of src as the block holds. */
    method WriteTurn(i: nat, src: seq<Byte>, off: nat, tot: nat, ghost v: Image, ghost before: set<nat>)
      returns (ok: bool, m: nat)
      requires Valid() && i < |inodes| && tot < |src| && Progress(v, img, i, off, src, tot)
      requires LoggedWithin(before, i, off, tot)
      modifies this`blocks, this`bits, this`inodes, this`logged, this`img
      ensures !ok ==> Full(img)
      ensures ok ==> Valid() && 0 < m <= |src| - tot && Progress(v, img, i, off, src, tot + m)
      ensures ok ==> LoggedWithin(before, i, off, tot + m)
    {
      hide Consistent;
      ghost var x := img;
      m := if |src| - tot < BSIZE - (off + tot) % BSIZE then |src| - tot else BSIZE - (off + tot) % BSIZE;
      ok := WriteStep(i, off + tot, src[tot..tot + m]);
      if ok {
        ghost var w :| Stepped(x, w, img, i, off + tot, src[tot..tot + m]);
        TurnDone(v, x, w, img, i, off, src, tot, m, bmapstart);
      }
    }

    /** readi on a file that is not a device: the bytes from `off`, as many of the n asked for
        as the file has; None stands for -1. It changes nothing and cannot panic. */
    method Readi(i: nat, off: nat, n: nat) returns (r: Option<seq<Byte>>)
      requires Ready() && i < |inodes| && n < WRAP && off < WRAP
      modifies this`blocks, this`bits, this`inodes, this`logged, this`img
      ensures Ready() && img == old(img) && logged == old(logged)
      ensures r.None? <==> off > inodes[i].size || off + n >= WRAP
      ensures r.Some? ==> r.value == Contents(img, i)[off..if off + n > inodes[i].size then inodes[i].size else off + n]
    {
      if off > inodes[i].size || (off + n) % WRAP < off {
        return None;
      }
      var n' := if off + n > inodes[i].size then inodes[i].size - off else n;
      var dst := ReadAll(i, off, n');
      r := Some(dst);
    }

    /** The loop of readi. */
    method ReadAll(i: nat, off: nat, n: nat) returns (dst: seq<Byte>)
      requires Ready() && i < |inodes| && off + n <= inodes[i].size
      modifies this`blocks, this`bits, this`inodes, this`logged, this`img
      ensures Ready() && img == old(img) && logged == old(logged)
      ensures dst == Contents(img, i)[off..off + n]
    {
      ghost var v := img;
      var tot := 0;
      dst := [];
      while tot < n
        invariant tot <= n && Ready() && img == v && logged == old(logged)
        invariant dst == Contents(v, i)[off..off + tot]
      {
        var part := ReadTurn(i, off + tot, n - tot);
        ReadOn(v, i, off, off + tot, dst, part);
        dst := dst + part;
        tot := tot + |part|;
      }
    }

    /** One turn of readi: the bytes from `at` to the end of their block, at most n. */
    method ReadTurn(i: nat, at: nat, n: nat) returns (part: seq<Byte>)
      requires Ready() && i < |inodes| && 0 < n && at + n <= inodes[i].size
      modifies this`blocks, this`bits, this`inodes, this`logged, this`img
      ensures Ready() && img == old(img) && logged == old(logged)
      ensures 0 < |part| <= n && |part| <= BSIZE - at % BSIZE
      ensures part == Data(img, i, at / BSIZE)[at % BSIZE..at % BSIZE + |part|]
    {
      MappedThere(img, i, at);
      var a := Bmap(i, at / BSIZE);
      var m := if n < BSIZE - at % BSIZE then n else BSIZE - at % BSIZE;
      part := blocks[a.value][at % BSIZE..at % BSIZE + m];
    }

    /** itrunc: every block of file i is freed exactly once (false would stand for the panic
        "freeing free block", which is out of reach), and the inode is written back. */
    method Itrunc(i: nat) returns (ok: bool)
      requires Ready() && i < |inodes|
      modifies this`bits, this`inodes, this`dinodes, this`logged, this`img
      ensures ok && Ready() && Truncated(old(img), img, i)
      ensures |blocks| <= BPB ==> logged <= old(logged) + {bmapstart, IBlock(i)}
    {
      ghost var v := img;
      ok := FreeDirect(i, v);
      if !ok {
        return;
      }
      ok := FreeIndirect(i, v);
      if !ok {
        return;
      }
      AllReleased(v, img, i);
      AllZero(inodes[i].addrs);
      inodes := inodes[i := inodes[i].(size := 0)];
      img := img.(inodes := inodes);
      Iupdate(i);
      TruncatedFiles(v, img, i);
      OthersSized(v, img, i);
    }

    /** The first loop of itrunc. */
    method FreeDirect(i: nat, ghost v: Image) returns (ok: bool)
      requires Valid() && i < |inodes| && v == img
      modifies this`bits, this`inodes, this`logged, this`img
      ensures ok && Valid() && OnlyReleased(v, img, i)
      ensures forall k :: 0 <= k < NDIRECT ==> inodes[i].addrs[k] == 0
      ensures |blocks| <= BPB ==> logged <= old(logged) + {bmapstart}
    {
      var k := 0;
      while k < NDIRECT
        invariant k <= NDIRECT && Valid() && OnlyReleased(v, img, i)
        invariant forall m :: 0 <= m < k ==> inodes[i].addrs[m] == 0
        invariant |blocks| <= BPB ==> logged <= old(logged) + {bmapstart}
      {
        if inodes[i].addrs[k] != 0 {
          ok := FreeSlot(i, k, v);
          if !ok {
            return;
          }
        }
        k := k + 1;
      }
      ok := true;
    }

    /** bfree of a direct slot, which becomes 0. */
    method FreeSlot(i: nat, k: nat, ghost v: Image) returns (ok: bool)
      requires Valid() && i < |inodes| && k < NDIRECT && inodes[i].addrs[k] != 0 && OnlyReleased(v, img, i)
      modifies this`bits, this`inodes, this`logged, this`img
      ensures ok && Valid() && OnlyReleased(v, img, i)
      ensures inodes == old(inodes)[i := old(inodes)[i].(addrs := old(inodes)[i].addrs[k := 0])]
      ensures |blocks| <= BPB ==> logged <= old(logged) + {bmapstart}
    {
      ghost var y := DirectReleased(v, img, i, k);
      ok := Bfree(inodes[i].addrs[k]);
      if ok {
        inodes := inodes[i := inodes[i].(addrs := inodes[i].addrs[k := 0])];
        img := y;
      }
    }

    /** The rest of itrunc: the entries of the indirect block, then the block itself. */
    method FreeIndirect(i: nat, ghost v: Image) returns (ok: bool)
      requires Valid() && i < |inodes| && Sound(v) && OnlyReleased(v, img, i)
      requires forall k :: 0 <= k < NDIRECT ==> inodes[i].addrs[k] == 0
      modifies this`bits, this`inodes, this`logged, this`img
      ensures ok && Valid() && OnlyReleased(v, img, i)
      ensures forall k :: 0 <= k <= NDIRECT ==> inodes[i].addrs[k] == 0
      ensures |blocks| <= BPB ==> logged <= old(logged) + {bmapstart}
    {
      if inodes[i].addrs[NDIRECT] == 0 {
        return true;
      }
      ok := FreeEntries(i, v);
      if ok {
        ok := FreeTable(i, v);
      }
    }

    /** bfree of the indirect block, whose slot becomes 0. */
    method FreeTable(i: nat, ghost v: Image) returns (ok: bool)
      requires Tied() && i < |inodes| && Consistent(img, Entries(i, NINDIRECT)) && OnlyReleased(v, img, i)
               && Table(img, i) != 0
      modifies this`bits, this`inodes, this`logged, this`img
      ensures ok && Valid() && OnlyReleased(v, img, i)
      ensures inodes == old(inodes)[i := old(inodes)[i].(addrs := old(inodes)[i].addrs[NDIRECT := 0])]
      ensures |blocks| <= BPB ==> logged <= old(logged) + {bmapstart}
    {
      ghost var y := TableReleased(v, img, i);
      ok := Bfree(inodes[i].addrs[NDIRECT]);
      if ok {
        inodes := inodes[i := inodes[i].(addrs := inodes[i].addrs[NDIRECT := 0])];
        img := y;
      }
    }

    /** The second loop of itrunc. */
    method FreeEntries(i: nat, ghost v: Image) returns (ok: bool)
      requires Valid() && i < |inodes| && Table(img, i) != 0 && OnlyReleased(v, img, i)
      modifies this`bits, this`logged, this`img
      ensures ok && Tied() && Consistent(img, Entries(i, NINDIRECT)) && OnlyReleased(v, img, i)
      ensures |blocks| <= BPB ==> logged <= old(logged) + {bmapstart}
    {
      TableOwned(img, i);
      var a := blocks[inodes[i].addrs[NDIRECT]];
      var j := 0;
      while j < NINDIRECT
        invariant j <= NINDIRECT && Tied() && Consistent(img, Entries(i, j)) && OnlyReleased(v, img, i)
        invariant |blocks| <= BPB ==> logged <= old(logged) + {bmapstart}
      {
        ok := FreeEntry(i, j, GetWord(a, j), v);
        if !ok {
          return;
        }
        j := j + 1;
      }
      ok := true;
    }

    /** Entry j of the indirect block, which reads aj: its block is freed if it has one. */
    method FreeEntry(i: nat, j: nat, aj: Word, ghost v: Image) returns (ok: bool)
      requires Tied() && Consistent(img, Entries(i, j)) && OnlyReleased(v, img, i) && j < NINDIRECT
      requires i < |inodes| && 0 < Table(img, i) < |blocks| && aj == Named(img, Entry(i, j))
      modifies this`bits, this`logged, this`img
      ensures ok && Tied() && Consistent(img, Entries(i, j + 1)) && OnlyReleased(v, img, i)
      ensures |blocks| <= BPB ==> logged <= old(logged) + {bmapstart}
    {
      ghost var x := img;
      EntryReleased(v, x, i, j);
      if aj == 0 {
        return true;
      }
      ok := Bfree(aj);
      if ok {
        img := Released(x, Entry(i, j));
      }
    }

    /** One chunk of filewrite, between begin_op and end_op: it logs at most seven blocks
        when one bitmap block holds the whole map. */
    method WriteChunk(i: nat, src: seq<Byte>, off: nat) returns (r: int, panicked: bool)
      requires Ready() && i < |inodes| && |src| <= CHUNK && off < WRAP
      modifies this`blocks, this`bits, this`inodes, this`dinodes, this`logged, this`img, this`start
      ensures panicked ==> Full(img)
      ensures !panicked ==> Ready()
      ensures !panicked ==> r == if Refused(old(img), i, off, |src|) then -1 else |src|
      ensures !panicked ==> (r == |src| <==> off <= old(inodes)[i].size && off + |src| <= 140 * 512)
      ensures !panicked && r == -1 ==> img == old(img)
      ensures !panicked && r >= 0 ==> WroteFile(old(img), img, i, off, src)
      ensures !panicked && |blocks| <= BPB ==> |logged| <= 7 < MAXOPBLOCKS
      ensures !panicked ==> Covered(old(img), img, inodestart, bmapstart, logged)
    {
      BeginOp();
      r, panicked := Writei(i, src, off);
      if !panicked && r >= 0 && |blocks| <= BPB {
        ChunkBlocks(off, |src|);
        RegionSize(img, i, off / BSIZE, Reached(off, |src|), bmapstart, IBlock(i));
        SubsetSize(logged, Logs(img, i, off, |src|));
      }
    }

    /** An operation starts: it has logged nothing yet. */
    method BeginOp()
      requires Ready()
      modifies this`logged, this`start
      ensures Ready() && logged == {} && start == Some(img)
    {
      AccountStart(img, inodestart, bmapstart);
      logged := {};
      start := Some(img);
    }

    /** An operation that truncates file i, as iput does for one that is gone. */
    method TruncateOp(i: nat) returns (ok: bool)
      requires Ready() && i < |inodes|
      modifies this`bits, this`inodes, this`dinodes, this`logged, this`img, this`start
      ensures ok && Ready() && Truncated(old(img), img, i)
      ensures Covered(old(img), img, inodestart, bmapstart, logged)
      ensures |blocks| <= BPB ==> logged <= {bmapstart, IBlock(i)}
    {
      BeginOp();
      ok := Itrunc(i);
    }

    /** filewrite to a file on disk: `done` bytes are written and the file offset moves by as
        many. It stops early only where writei refuses the next chunk. */
    method Filewrite(i: nat, src: seq<Byte>, off: nat) returns (r: int, done: nat, panicked: bool, ghost ops: nat)
      requires Ready() && i < |inodes| && off < WRAP && |src| < WRAP
      modifies this`blocks, this`bits, this`inodes, this`dinodes, this`logged, this`img, this`start
      ensures panicked ==> Full(img)
      ensures !panicked ==> Ready() && done <= |src| && r == (if done == |src| then |src| else -1)
      ensures !panicked ==> WroteSome(old(img), img, i, off, src, done)
      ensures !panicked && done < |src| ==> Refused(img, i, off + done, Chunk(|src| - done))
      ensures !panicked && off <= old(inodes)[i].size && off + |src| <= 140 * 512 ==> r == |src|
      ensures !panicked && r == |src| ==> ops == (|src| + 1535) / 1536
    {
      ghost var v := img;
      done, r, panicked, ops := 0, 0, false, 0;
      while done < |src| && r >= 0
        invariant done <= |src| && Ready() && |inodes| == |v.inodes| && off + done < WRAP
        invariant WroteSome(v, img, i, off, src, done)
        invariant r < 0 ==> done < |src| && Refused(img, i, off + done, Chunk(|src| - done))
        invariant r >= 0 ==> done == 1536 * ops || (done == |src| && ops == (|src| + 1535) / 1536)
        decreases r >= 0, |src| - done
      {
        var n1;
        r, n1, panicked := WriteNext(i, src, off, done, v);
        if panicked {
          return;
        }
        ops := ops + 1;
        done := if r < 0 then done else done + n1;
      }
      if off <= v.inodes[i].size {
        WroteSize(v, img, i, off, src, done);
      }
      r := if done == |src| then |src| else -1;
    }

    /** One turn of filewrite: the next n1 bytes. */
    method WriteNext(i: nat, src: seq<Byte>, off: nat, done: nat, ghost v: Image)
        returns (r: int, n1: nat, panicked: bool)
      requires Ready() && i < |inodes| && done < |src| && off + done < WRAP && WroteSome(v, img, i, off, src, done)
      modifies this`blocks, this`bits, this`inodes, this`dinodes, this`logged, this`img, this`start
      ensures panicked ==> Full(img)
      ensures !panicked ==> Ready() && |inodes| == |old(img).inodes| && n1 == Chunk(|src| - done)
      ensures !panicked && r < 0 ==> img == old(img) && Refused(img, i, off + done, n1)
      ensures !panicked && r >= 0 ==> off + done + n1 < WRAP && WroteSome(v, img, i, off, src, done + n1)
    {
      var max := (MAXOPBLOCKS - 1 - 1 - 2) / 2 * 512;
      n1 := |src| - done;
      if n1 > max {
        n1 := max;
      }
      ghost var x := img;
      r, panicked := WriteChunk(i, src[done..done + n1], off + done);
      if !panicked && r >= 0 {
        assert r == n1;   // "short filewrite" is unreachable
        WroteTwice(v, x, img, i, off, src, done, n1);
      }
    }

    /** The blocks a write of n bytes at `off` may log. */
    ghost function Logs(v: Image, i: nat, off: nat, n: nat): set<nat>
      requires Shaped(v) && i < |v.inodes| && off + n <= MAXFILE * BSIZE
    {
      Region(v, i, off / BSIZE, Reached(off, n), bmapstart) + {IBlock(i)}
    }

    /** The blocks bmap may log on its way to the bn-th block. */
    ghost function Touched(v: Image, i: nat, bn: nat): set<nat>
      requires Shaped(v) && i < |v.inodes| && bn < MAXFILE
    {
      var a, t := Named(v, SlotOf(i, bn)), Table(v, i);
      {a, BBlock(a)} + if bn < NDIRECT then {} else {t, BBlock(t)}
    }
  }

  /** Entry j of inode i's indirect block names the block a: it did before, or a has been
      allocated for it. */
  ghost predicate EntryMapped(v: Image, w: Image, i: nat, j: nat, a: Word)
    requires Shaped(v) && i < |v.inodes| && j < NINDIRECT
  {
    var s := Entry(i, j);
    if Named(v, s) != 0 then w == v && Named(v, s) == a
    else CanAllocate(v, s, a) && Table(v, i) < |v.blocks| && w == Allocated(v, s, a) && a != 0
  }

  lemma EntryAllocated(v: Image, i: nat, j: nat, a: Word)
    requires Sound(v) && i < |v.inodes| && j < NINDIRECT && Table(v, i) != 0 && Named(v, Entry(i, j)) == 0
    requires a < |v.used| && !v.used[a]
    ensures Table(v, i) < |v.blocks| && a != Table(v, i) && a != 0
    ensures CanAllocate(v, Entry(i, j), a) && Sound(Allocated(v, Entry(i, j), a))
  {
    TableOwned(v, i);
    AllocatedSound(v, Entry(i, j), a);
  }

  lemma DirectMapped(v: Image, w: Image, i: nat, bn: nat, a: Word)
    requires Sound(v) && i < |v.inodes| && bn < NDIRECT && AddrMapped(v, w, i, bn, a)
    ensures Mapped(v, w, i, bn, a)
  {
    if Named(v, SlotOf(i, bn)) != 0 {
      NoAllocation(v, i, bn);
    } else {
      OneAllocation(v, i, bn, a);
    }
  }

  lemma TableThere(v: Image, w: Image, i: nat, t: Word)
    requires Sound(v) && Shaped(w) && i < |v.inodes| && AddrMapped(v, w, i, NDIRECT, t)
    ensures i < |w.inodes| && Table(w, i) == t != 0
  {
    if Named(v, Indirect(i)) == 0 {
      AllocatedNames(v, Indirect(i), t, Indirect(i));
    }
  }

  lemma IndirectMapped(v: Image, w: Image, x: Image, i: nat, bn: nat, t: Word, a: Word)
    requires Sound(v) && i < |v.inodes| && NDIRECT <= bn < MAXFILE && AddrMapped(v, w, i, NDIRECT, t)
    requires Sound(w) && i < |w.inodes| && Table(w, i) == t != 0 && EntryMapped(w, x, i, bn - NDIRECT, a)
    ensures Mapped(v, x, i, bn, a) && Table(x, i) == t
    ensures x == v ==> w == v
  {
    if Named(w, SlotOf(i, bn)) == 0 {
      AllocatedNames(w, SlotOf(i, bn), a, Indirect(i));
    }
    if Named(v, Indirect(i)) == 0 {
      TwoAllocations(v, i, bn, t, a);
    } else if Named(v, SlotOf(i, bn)) != 0 {
      NoAllocation(v, i, bn);
    } else {
      OneAllocation(v, i, bn, a);
    }
  }

  /** writei refuses a range that starts past the end of the file, wraps around, or reaches
      past the largest file. */
  predicate Refused(v: Image, i: nat, off: nat, n: nat)
    requires i < |v.inodes|
  {
    off > v.inodes[i].size || off + n >= WRAP || off + n > MAXFILE * BSIZE
  }

  /** One past the last block that n bytes at `off` reach into. */
  function Reached(off: nat, n: nat): (hi: nat)
    ensures off / BSIZE <= hi
    ensures off + n <= MAXFILE * BSIZE ==> hi <= MAXFILE
  {
    if n == 0 then off / BSIZE else (off + n - 1) / BSIZE + 1
  }

  lemma OthersSized(v: Image, w: Image, i: nat)
    requires Shaped(v) && Shaped(w) && |w.inodes| == |v.inodes| && Sized(w, i)
    requires AllSized(v)
    requires forall j :: 0 <= j < |v.inodes| && j != i ==> SameFile(v, w, j)
    ensures AllSized(w)
  {
    forall j | 0 <= j < |v.inodes| ensures Sized(w, j) {
      if j != i {
        SameContents(v, w, j);
      }
    }
  }

  /** The blocks logged on the way to the bn-th block when one bitmap block holds the map. */
  ghost function Near(v: Image, i: nat, bn: nat, bitmap: nat): set<nat>
    requires Shaped(v) && i < |v.inodes| && bn < MAXFILE
  {
    {Named(v, SlotOf(i, bn)), bitmap} + if Table(v, i) != 0 then {Table(v, i)} else {}
  }

  lemma WriteDone(v: Image, x: Image, i: nat, off: nat, src: seq<Byte>)
    requires Progress(v, x, i, off, src, |src|) && AllSized(v)
    ensures var y := Stretched(x, i, off + |src|); WroteFile(v, y, i, off, src) && Sound(y) && AllSized(y)
  {
    ProgressEnd(v, x, i, off, src);
    OthersSized(v, Stretched(x, i, off + |src|), i);
  }

  lemma DataBlocksGrow(v: Image, i: nat, lo: nat, hi: nat, bn: nat)
    requires Shaped(v) && i < |v.inodes| && lo <= hi && bn <= hi <= bn + 1 <= MAXFILE && lo <= bn
    ensures DataBlocks(v, i, lo, bn + 1) == DataBlocks(v, i, lo, hi) + {Named(v, SlotOf(i, bn))}
  {
  }

  lemma SetsGrow(d: set<nat>, d': set<nat>, r: set<nat>, a: nat, t: set<nat>, bitmap: nat)
    requires r <= d + {bitmap} + t && d' == d + {a}
    ensures r + ({a, bitmap} + t) <= d' + {bitmap} + t
  {
  }

  lemma RegionGrows(x: Image, y: Image, i: nat, off: nat, tot: nat, m: nat, n: nat, bitmap: nat)
    requires StillNamed(x, y, i, n) && off + tot <= n * BSIZE
    requires 0 < m <= BSIZE - (off + tot) % BSIZE && off + tot + m <= MAXFILE * BSIZE
    ensures Region(x, i, off / BSIZE, Reached(off, tot), bitmap) + Near(y, i, (off + tot) / BSIZE, bitmap)
              <= Region(y, i, off / BSIZE, Reached(off, tot + m), bitmap)
  {
    ReachedNext(off, tot, m);
    var lo, hi, bn := off / BSIZE, Reached(off, tot), (off + tot) / BSIZE;
    var t := if Table(y, i) != 0 then {Table(y, i)} else {};
    RegionStay(x, y, i, lo, hi, n, bitmap);
    DataBlocksGrow(y, i, lo, hi, bn);
    SetsGrow(DataBlocks(y, i, lo, hi), DataBlocks(y, i, lo, bn + 1), Region(x, i, lo, hi, bitmap),
        Named(y, SlotOf(i, bn)), t, bitmap);
  }

  /** One turn of the loop of writei reaches into at most one block more. */
  lemma RegionTurn(v: Image, x: Image, w: Image, y: Image, i: nat, off: nat, src: seq<Byte>, tot: nat, m: nat,
      bitmap: nat)
    requires Progress(v, x, i, off, src, tot) && 0 < m <= BSIZE - (off + tot) % BSIZE && tot + m <= |src|
    requires Stepped(x, w, y, i, off + tot, src[tot..tot + m]) && Sound(y) && i < |y.inodes|
    ensures Region(x, i, off / BSIZE, Reached(off, tot), bitmap) + Near(y, i, (off + tot) / BSIZE, bitmap)
              <= Region(y, i, off / BSIZE, Reached(off, tot + m), bitmap)
  {
    var len := Max(v.inodes[i].size, off + tot);
    CeilCovers(len);
    SteppedNames(x, w, y, i, off + tot, src[tot..tot + m], Ceil(len));
    RegionGrows(x, y, i, off, tot, m, Ceil(len), bitmap);
  }

  lemma TurnDone(v: Image, x: Image, w: Image, y: Image, i: nat, off: nat, src: seq<Byte>, tot: nat, m: nat,
      bitmap: nat)
    requires Progress(v, x, i, off, src, tot) && 0 < m <= BSIZE - (off + tot) % BSIZE && tot + m <= |src|
    requires Stepped(x, w, y, i, off + tot, src[tot..tot + m])
    ensures Progress(v, y, i, off, src, tot + m) && Shaped(x) && Shaped(y)
    ensures Region(x, i, off / BSIZE, Reached(off, tot), bitmap) + Near(y, i, (off + tot) / BSIZE, bitmap)
              <= Region(y, i, off / BSIZE, Reached(off, tot + m), bitmap)
  {
    ProgressStep(v, x, w, y, i, off, src, tot, m);
    RegionTurn(v, x, w, y, i, off, src, tot, m, bitmap);
  }

  lemma ReachedNext(off: nat, tot: nat, m: nat)
    requires 0 < m <= BSIZE - (off + tot) % BSIZE
    ensures Reached(off, tot + m) == (off + tot) / BSIZE + 1
    ensures Reached(off, tot) == (off + tot) / BSIZE || Reached(off, tot) == (off + tot) / BSIZE + 1
    ensures forall n: nat :: off + tot <= n * BSIZE ==> Reached(off, tot) <= n
  {
  }

  lemma MappedThere(v: Image, i: nat, at: nat)
    requires Sound(v) && Sized(v, i) && at < v.inodes[i].size
    ensures at / BSIZE < MAXFILE && Named(v, SlotOf(i, at / BSIZE)) != 0
  {
    assert IsMapped(v, i, at / BSIZE) == (at / BSIZE < Ceil(v.inodes[i].size));
  }

  lemma ReadOn(v: Image, i: nat, off: nat, at: nat, dst: seq<Byte>, part: seq<Byte>)
    requires Shaped(v) && i < |v.inodes| && off <= at && at + |part| <= v.inodes[i].size && |part| <= BSIZE - at % BSIZE
    requires dst == Contents(v, i)[off..at] && part == Data(v, i, at / BSIZE)[at % BSIZE..at % BSIZE + |part|]
    ensures dst + part == Contents(v, i)[off..at + |part|]
  {
    ReadPart(v, i, off, at, |part|);
  }

  lemma ReadPart(v: Image, i: nat, off: nat, at: nat, m: nat)
    requires Shaped(v) && i < |v.inodes| && off <= at && at + m <= v.inodes[i].size && m <= BSIZE - at % BSIZE
    ensures Contents(v, i)[off..at] + Data(v, i, at / BSIZE)[at % BSIZE..at % BSIZE + m] == Contents(v, i)[off..at + m]
  {
    var c, d := Contents(v, i), Data(v, i, at / BSIZE);
    forall p | at <= p < at + m ensures c[p] == d[at % BSIZE + (p - at)] {
      assert p / BSIZE == at / BSIZE && p % BSIZE == at % BSIZE + (p - at);
    }
    assert c[at..at + m] == d[at % BSIZE..at % BSIZE + m];
    assert c[off..at] + c[at..at + m] == c[off..at + m];
  }

  lemma AllZero(a: seq<Word>)
    requires |a| == NDIRECT + 1 && forall k :: 0 <= k <= NDIRECT ==> a[k] == 0
    ensures a == seq(NDIRECT + 1, _ => 0)
  {
  }

  lemma DirectReleased(v: Image, x: Image, i: nat, k: nat) returns (y: Image)
    requires Sound(x) && OnlyReleased(v, x, i) && k < NDIRECT && x.inodes[i].addrs[k] != 0
    ensures var b := x.inodes[i].addrs[k]; b < |x.used| && x.used[b]
    ensures Shaped(Released(x, Direct(i, k)))
    ensures y == Put(Released(x, Direct(i, k)), Direct(i, k), 0) && Sound(y) && OnlyReleased(v, y, i)
  {
    ReleasedConsistent(x, Direct(i, k), {});
    ClearedDirect(Released(x, Direct(i, k)), i, k, {} + {Direct(i, k)});
    assert {} + {Direct(i, k)} - {Direct(i, k)} == {};
    ReleasedOnly(v, x, Direct(i, k));
    y := Put(Released(x, Direct(i, k)), Direct(i, k), 0);
  }

  lemma ReleasedOnly(v: Image, x: Image, s: Slot)
    requires Shaped(x) && IsSlot(x, s) && Named(x, s) < |x.used| && OnlyReleased(v, x, s.i)
    requires Named(x, s) in x.owner && x.owner[Named(x, s)] == s
    ensures OnlyReleased(v, Released(x, s), s.i)
  {
  }

  lemma EntryReleased(v: Image, x: Image, i: nat, j: nat)
    requires Consistent(x, Entries(i, j)) && OnlyReleased(v, x, i) && j < NINDIRECT && 0 < Table(x, i) < |x.blocks|
    ensures Named(x, Entry(i, j)) == 0 ==> Consistent(x, Entries(i, j + 1))
    ensures Named(x, Entry(i, j)) != 0 ==>
              && Named(x, Entry(i, j)) < |x.used| && x.used[Named(x, Entry(i, j))]
              && Consistent(Released(x, Entry(i, j)), Entries(i, j + 1)) && OnlyReleased(v, Released(x, Entry(i, j)), i)
  {
    assert Entries(i, j + 1) == Entries(i, j) + {Entry(i, j)};
    if Named(x, Entry(i, j)) == 0 {
      EmptyGone(x, Entry(i, j), Entries(i, j));
    } else {
      ReleasedConsistent(x, Entry(i, j), Entries(i, j));
      assert Owns(x, Entry(i, j));
      ReleasedOnly(v, x, Entry(i, j));
    }
  }

  lemma TableReleased(v: Image, x: Image, i: nat) returns (y: Image)
    requires Consistent(x, Entries(i, NINDIRECT)) && OnlyReleased(v, x, i) && Table(x, i) != 0
    ensures Table(x, i) < |x.used| && x.used[Table(x, i)] && Shaped(Released(x, Indirect(i)))
    ensures y == Put(Released(x, Indirect(i)), Indirect(i), 0) && Sound(y) && OnlyReleased(v, y, i)
  {
    ReleasedConsistent(x, Indirect(i), Entries(i, NINDIRECT));
    ClearedIndirect(Released(x, Indirect(i)), i);
    assert Owns(x, Indirect(i));
    ReleasedOnly(v, x, Indirect(i));
    y := Put(Released(x, Indirect(i)), Indirect(i), 0);
  }

  const CHUNK := 1536   // ((MAXOPBLOCKS-1-1-2) / 2) * 512

  function Chunk(n: nat): nat {
    if n > CHUNK then CHUNK else n
  }

  /** A chunk reaches into at most four blocks. */
  lemma ChunkBlocks(off: nat, n: nat)
    requires n <= CHUNK
    ensures Reached(off, n) <= off / BSIZE + 4
  {
  }

  lemma SubsetSize(a: set<nat>, b: set<nat>)
    requires a <= b
    ensures |a| <= |b|
  {
    assert b == a + (b - a);
  }

  /** filewrite has written the first `done` bytes of src. */
  ghost predicate WroteSome(v: Image, x: Image, i: nat, off: nat, src: seq<Byte>, done: nat) {
    done <= |src| && if done == 0 then x == v else WroteFile(v, x, i, off, src[..done])
  }

  /** What has been written is in the file. */
  lemma WroteSize(v: Image, x: Image, i: nat, off: nat, src: seq<Byte>, done: nat)
    requires Shaped(x) && i < |v.inodes| == |x.inodes| && WroteSome(v, x, i, off, src, done) && off <= v.inodes[i].size
    ensures x.inodes[i].size >= off + done
  {
    if done > 0 {
      assert |Contents(x, i)| == x.inodes[i].size;
    }
  }

  lemma WroteTwice(v: Image, x: Image, y: Image, i: nat, off: nat, src: seq<Byte>, done: nat, m: nat)
    requires done + m <= |src| && 0 < m && WroteFile(x, y, i, off + done, src[done..done + m])
    requires WroteSome(v, x, i, off, src, done)
    ensures WroteSome(v, y, i, off, src, done + m)
  {
    if done == 0 {
      assert src[0..m] == src[..m];
    } else {
      assert src[..done] + src[done..done + m] == src[..done + m];
      WroteOn(v, x, y, i, off, src[..done], src[done..done + m]);
    }
  }

  lemma WroteOn(v: Image, x: Image, y: Image, i: nat, off: nat, a: seq<Byte>, b: seq<Byte>)
    requires WroteFile(v, x, i, off, a) && WroteFile(x, y, i, off + |a|, b)
    ensures WroteFile(v, y, i, off, a + b)
  {
    OverlayTwice(Contents(v, i), off, a, b);
    forall j | 0 <= j < |v.inodes| && j != i ensures SameFile(v, y, j) {
      SameFileTrans(v, x, y, j);
    }
  }

  function AddrSlot(i: nat, k: nat): Slot {
    if k < NDIRECT then Direct(i, k) else Indirect(i)
  }

  /** addrs[k] of inode i names the block a: it did before, or a has been allocated for it. */
  ghost predicate AddrMapped(v: Image, w: Image, i: nat, k: nat, a: Word)
    requires Shaped(v) && i < |v.inodes| && k <= NDIRECT
  {
    var s := AddrSlot(i, k);
    if Named(v, s) != 0 then w == v && Named(v, s) == a
    else CanAllocate(v, s, a) && w == Allocated(v, s, a) && a != 0
  }

  lemma AddrAllocated(v: Image, i: nat, k: nat, a: Word)
    requires Sound(v) && i < |v.inodes| && k <= NDIRECT && Named(v, AddrSlot(i, k)) == 0
    requires a < |v.used| && !v.used[a]
    ensures CanAllocate(v, AddrSlot(i, k), a) && Sound(Allocated(v, AddrSlot(i, k), a)) && a != 0
  {
    AllocatedSound(v, AddrSlot(i, k), a);
  }
}
