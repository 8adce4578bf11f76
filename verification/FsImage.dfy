/** Which block belongs to which slot of which inode, and what the files hold. */
module FsImage {
  import opened Common
  import opened FsFormat

  /** The part of an inode that allocation and file contents depend on. */
  datatype Inode = Inode(size: nat, addrs: seq<Word>)

  /** A place that can name a block: a direct slot, the indirect slot, an entry of the
      indirect block. */
  datatype Slot = Direct(i: nat, k: nat) | Indirect(i: nat) | Entry(i: nat, j: nat)

  /** The blocks as the operations see them, the free map, the inodes, and the slot that owns
      each allocated block. The first `meta` blocks hold the metadata. */
  datatype Image = Image(meta: nat, blocks: seq<Block>, used: seq<bool>, inodes: seq<Inode>, owner: map<nat, Slot>)

  ghost predicate Shaped(v: Image) {
    && 0 < v.meta <= |v.blocks| == |v.used|
    && forall i :: 0 <= i < |v.inodes| ==> |v.inodes[i].addrs| == NDIRECT + 1
  }

  predicate IsSlot(v: Image, s: Slot) {
    && s.i < |v.inodes|
    && (s.Direct? ==> s.k < NDIRECT) && (s.Entry? ==> s.j < NINDIRECT)
  }

  /** The block number in the indirect slot, if it names a block. */
  ghost function Table(v: Image, i: nat): (t: nat)
    requires Shaped(v) && i < |v.inodes|
  {
    v.inodes[i].addrs[NDIRECT]
  }

  /** The block number a slot holds, 0 if none. */
  ghost function Named(v: Image, s: Slot): (b: nat)
    requires Shaped(v) && IsSlot(v, s)
  {
    match s
    case Direct(i, k) => v.inodes[i].addrs[k]
    case Indirect(i) => Table(v, i)
    case Entry(i, j) => if 0 < Table(v, i) < |v.blocks| then GetWord(v.blocks[Table(v, i)], j) else 0
  }

  /** A slot that names a block owns it. */
  ghost predicate Owns(v: Image, s: Slot)
    requires Shaped(v) && IsSlot(v, s)
  {
    Named(v, s) != 0 ==> Named(v, s) in v.owner && v.owner[Named(v, s)] == s
  }

  /** A block that is owned is named by its owner. */
  ghost predicate OwnedOnce(v: Image, b: nat)
    requires Shaped(v) && b in v.owner
  {
    v.meta <= b < |v.blocks| && IsSlot(v, v.owner[b]) && Named(v, v.owner[b]) == b
  }

  /** Outside the slots `gone`, whose blocks are being freed: every block named by a slot is
      owned by that slot alone, and the free map marks the metadata and the owned blocks. */
  ghost predicate Consistent(v: Image, gone: set<Slot>) {
    && Shaped(v)
    && (forall s :: IsSlot(v, s) && s !in gone ==> Owns(v, s))
    && (forall b :: b in v.owner ==> OwnedOnce(v, b) && v.owner[b] !in gone)
    && (forall b :: 0 <= b < |v.used| ==> (v.used[b] <==> b < v.meta || b in v.owner))
  }

  ghost predicate Sound(v: Image) {
    Consistent(v, {})
  }

  ghost predicate NamesBlock(v: Image, s: Slot, b: nat)
    requires Shaped(v)
  {
    IsSlot(v, s) && Named(v, s) == b
  }

  /** A bit of the free map is set if and only if the block is metadata or some slot names it ... */
  lemma MarkedIffNamed(v: Image, b: nat)
    requires Sound(v) && 0 < b < |v.used|
    ensures v.used[b] <==> b < v.meta || exists s :: NamesBlock(v, s, b)
    ensures b < v.meta ==> forall s :: !NamesBlock(v, s, b)
  {
    if b in v.owner {
      assert OwnedOnce(v, b);
      assert NamesBlock(v, v.owner[b], b);
    }
    forall s ensures NamesBlock(v, s, b) ==> b in v.owner {
      assert IsSlot(v, s) ==> Owns(v, s);
    }
    assert b in v.owner ==> OwnedOnce(v, b);
  }

  /** ... and then exactly one slot does. */
  lemma NamedOnce(v: Image, s: Slot, t: Slot, b: nat)
    requires Sound(v) && b != 0 && NamesBlock(v, s, b) && NamesBlock(v, t, b)
    ensures s == t
  {
    assert Owns(v, s) && Owns(v, t);
  }

  // ---- allocation ----

  /** The slot s comes to hold b. */
  ghost function Put(v: Image, s: Slot, b: Word): (w: Image)
    requires Shaped(v) && IsSlot(v, s) && (s.Entry? ==> Table(v, s.i) < |v.blocks|)
  {
    match s
    case Direct(i, k) => v.(inodes := v.inodes[i := v.inodes[i].(addrs := v.inodes[i].addrs[k := b])])
    case Indirect(i) => v.(inodes := v.inodes[i := v.inodes[i].(addrs := v.inodes[i].addrs[NDIRECT := b])])
    case Entry(i, j) => v.(blocks := v.blocks[Table(v, i) := SetWord(v.blocks[Table(v, i)], j, b)])
  }

  /** Block b is marked, zeroed and put into slot s. */
  ghost function Allocated(v: Image, s: Slot, b: Word): (w: Image)
    requires Shaped(v) && IsSlot(v, s) && b < |v.blocks| && (s.Entry? ==> Table(v, s.i) < |v.blocks|)
  {
    Put(v.(used := v.used[b := true], blocks := v.blocks[b := Zeros()], owner := v.owner[b := s]), s, b)
  }

  /** s is empty and, if it is an entry, lies in a block; b is free. */
  ghost predicate CanAllocate(v: Image, s: Slot, b: Word) {
    && Sound(v) && IsSlot(v, s) && Named(v, s) == 0 && b < |v.used| && !v.used[b]
    && (s.Entry? ==> Table(v, s.i) != 0)
  }

  lemma TableOwned(v: Image, i: nat)
    requires Sound(v) && i < |v.inodes| && Table(v, i) != 0
    ensures Table(v, i) in v.owner && v.owner[Table(v, i)] == Indirect(i) && v.meta <= Table(v, i) < |v.blocks|
  {
    assert Owns(v, Indirect(i));
    assert OwnedOnce(v, Table(v, i));
  }

  /** Allocation changes what its own slot names, and nothing else. */
  lemma AllocatedNames(v: Image, s: Slot, b: Word, t: Slot)
    requires CanAllocate(v, s, b) && IsSlot(v, t)
    ensures s.Entry? ==> Table(v, s.i) < |v.blocks|
    ensures Shaped(Allocated(v, s, b)) && IsSlot(Allocated(v, s, b), t)
    ensures Named(Allocated(v, s, b), t) == if t == s then b else Named(v, t)
  {
    if s.Entry? {
      TableOwned(v, s.i);
    }
    if t.Entry? {
      ZeroWords(t.j);
      if Table(v, t.i) != 0 {
        TableOwned(v, t.i);
        if s.Entry? {
          GetSet(v.blocks[Table(v, s.i)], s.j, b, t.j);
        }
      }
    }
  }

  lemma AllocatedSound(v: Image, s: Slot, b: Word)
    requires CanAllocate(v, s, b)
    ensures s.Entry? ==> Table(v, s.i) < |v.blocks|
    ensures Sound(Allocated(v, s, b))
  {
    AllocatedNames(v, s, b, s);
    var w := Allocated(v, s, b);
    forall t | IsSlot(w, t) ensures Owns(w, t) {
      AllocatedNames(v, s, b, t);
      assert Owns(v, t);
    }
    forall c | c in w.owner ensures OwnedOnce(w, c) {
      if c != b {
        assert OwnedOnce(v, c);
        AllocatedNames(v, s, b, v.owner[c]);
      }
    }
  }

  // ---- file contents ----

  /** The slot of the bn-th block of inode i. */
  function SlotOf(i: nat, bn: nat): (s: Slot)
    requires bn < MAXFILE
    ensures s.i == i && !s.Indirect?
  {
    if bn < NDIRECT then Direct(i, bn) else Entry(i, bn - NDIRECT)
  }

  /** The two images differ in no size, and every block named in v is still named by the same
      slot in w, with the same data. */
  ghost predicate Keeps(v: Image, w: Image) {
    && Shaped(v) && Shaped(w) && w.meta == v.meta && |w.blocks| == |v.blocks| && |w.inodes| == |v.inodes|
    && (forall i :: 0 <= i < |v.inodes| ==> w.inodes[i].size == v.inodes[i].size)
    && (forall t :: IsSlot(v, t) ==> KeepsSlot(v, w, t))
  }

  ghost predicate KeepsSlot(v: Image, w: Image, t: Slot)
    requires Shaped(v) && Shaped(w) && IsSlot(v, t) && IsSlot(w, t)
  {
    Named(v, t) != 0 ==>
      && Named(w, t) == Named(v, t) && Named(v, t) < |v.blocks|
      && (!t.Indirect? ==> Named(w, t) < |w.blocks| && w.blocks[Named(w, t)] == v.blocks[Named(v, t)])
  }

  /** Slots other than the bn-th of inode i, and its indirect slot if that leads there, name
      what they named. */
  ghost predicate OnlySlot(v: Image, w: Image, i: nat, bn: nat)
    requires Shaped(v) && Shaped(w) && bn < MAXFILE
  {
    forall t :: IsSlot(v, t) && IsSlot(w, t) && t != SlotOf(i, bn) && !(bn >= NDIRECT && t == Indirect(i)) ==>
      SameName(v, w, t)
  }

  ghost predicate OnlyInode(v: Image, w: Image, i: nat) {
    |w.inodes| == |v.inodes| && forall j :: 0 <= j < |v.inodes| && j != i ==> w.inodes[j] == v.inodes[j]
  }

  ghost predicate SameName(v: Image, w: Image, t: Slot)
    requires Shaped(v) && Shaped(w) && IsSlot(v, t) && IsSlot(w, t)
  {
    Named(w, t) == Named(v, t)
  }

  lemma AllocatedKeeps(v: Image, s: Slot, b: Word)
    requires CanAllocate(v, s, b)
    ensures s.Entry? ==> Table(v, s.i) < |v.blocks|
    ensures Keeps(v, Allocated(v, s, b)) && (!s.Indirect? ==> Allocated(v, s, b).blocks[b] == Zeros())
  {
    AllocatedNames(v, s, b, s);
    var w := Allocated(v, s, b);
    if s.Entry? {
      TableOwned(v, s.i);
    }
    forall t | IsSlot(v, t) ensures IsSlot(w, t) && KeepsSlot(v, w, t) {
      AllocatedNames(v, s, b, t);
      assert Owns(v, t);
      if Named(v, t) != 0 {
        assert OwnedOnce(v, Named(v, t));
      }
    }
  }

  lemma KeepsTrans(v: Image, w: Image, x: Image)
    requires Keeps(v, w) && Keeps(w, x)
    ensures Keeps(v, x)
  {
    forall t | IsSlot(v, t) ensures KeepsSlot(v, x, t) {
      assert KeepsSlot(v, w, t);
      assert KeepsSlot(w, x, t);
    }
  }

  /** The effect of bmap: the bn-th slot of inode i names the block a. A block that was there
      is left alone; a new one is zero. */
  ghost predicate Mapped(v: Image, w: Image, i: nat, bn: nat, a: nat)
    requires Shaped(v) && i < |v.inodes| && bn < MAXFILE
  {
    && Sound(w) && Keeps(v, w) && OnlySlot(v, w, i, bn) && OnlyInode(v, w, i)
    && Named(w, SlotOf(i, bn)) == a && v.meta <= a < |w.blocks| && (bn >= NDIRECT ==> Table(w, i) != 0)
    && (if Named(v, SlotOf(i, bn)) != 0 then w == v else w.blocks[a] == Zeros())
  }

  /** A block is written through a slot that is not an indirect one. */
  ghost function Written(v: Image, s: Slot, data: Block): Image
    requires Shaped(v) && IsSlot(v, s) && Named(v, s) < |v.blocks|
  {
    v.(blocks := v.blocks[Named(v, s) := data])
  }

  lemma WrittenNames(v: Image, s: Slot, data: Block, t: Slot)
    requires Sound(v) && IsSlot(v, s) && !s.Indirect? && Named(v, s) != 0 && IsSlot(v, t)
    ensures Named(v, s) < |v.blocks| && Shaped(Written(v, s, data)) && IsSlot(Written(v, s, data), t)
    ensures Named(Written(v, s, data), t) == Named(v, t)
    ensures t != s && Named(v, t) != 0 ==>
              Named(v, t) < |v.blocks| && Written(v, s, data).blocks[Named(v, t)] == v.blocks[Named(v, t)]
  {
    assert Owns(v, s) && OwnedOnce(v, Named(v, s));
    if t.Entry? && Table(v, t.i) != 0 {
      TableOwned(v, t.i);
    }
    assert Owns(v, t);
    if Named(v, t) != 0 {
      assert OwnedOnce(v, Named(v, t));
    }
  }

  lemma WrittenSound(v: Image, s: Slot, data: Block)
    requires Sound(v) && IsSlot(v, s) && !s.Indirect? && Named(v, s) != 0
    ensures Named(v, s) < |v.blocks| && Sound(Written(v, s, data))
  {
    WrittenNames(v, s, data, s);
    var w := Written(v, s, data);
    forall t | IsSlot(w, t) ensures Owns(w, t) {
      WrittenNames(v, s, data, t);
      assert Owns(v, t);
    }
    forall c | c in w.owner ensures OwnedOnce(w, c) {
      assert OwnedOnce(v, c);
      WrittenNames(v, s, data, v.owner[c]);
    }
  }

  // ---- sizes ----

  /** The first n blocks of inode i are mapped and no others, with a table if they need one. */
  ghost predicate Extent(v: Image, i: nat, n: nat)
    requires Shaped(v)
  {
    && i < |v.inodes| && (Table(v, i) != 0 <==> n > NDIRECT)
    && forall bn :: 0 <= bn < MAXFILE ==> IsMapped(v, i, bn) == (bn < n)
  }

  ghost predicate IsMapped(v: Image, i: nat, bn: nat)
    requires Shaped(v) && i < |v.inodes| && bn < MAXFILE
  {
    Named(v, SlotOf(i, bn)) != 0
  }

  /** Slot bn is mapped if and only if bn < ceil(size/BSIZE). */
  ghost predicate Sized(v: Image, i: nat) {
    && Shaped(v) && i < |v.inodes| && v.inodes[i].size <= MAXFILE * BSIZE
    && Extent(v, i, Ceil(v.inodes[i].size))
  }

  /** bmap of the next block extends the file by one block. */
  lemma MappedExtent(v: Image, w: Image, i: nat, bn: nat, a: nat, n: nat)
    requires Shaped(v) && i < |v.inodes| && bn < MAXFILE && Mapped(v, w, i, bn, a)
    requires Extent(v, i, n) && bn <= n
    ensures Extent(w, i, if bn == n then n + 1 else n)
  {
    assert IsMapped(v, i, bn) == (bn < n);
    forall m | 0 <= m < MAXFILE ensures IsMapped(w, i, m) == (m < if bn == n then n + 1 else n) {
      assert IsMapped(v, i, m) == (m < n);
      assert m != bn ==> SameName(v, w, SlotOf(i, m));
    }
    assert KeepsSlot(v, w, Indirect(i));
    assert bn < NDIRECT ==> SameName(v, w, Indirect(i));
  }

  /** The bn-th block of file i. */
  ghost function Data(v: Image, i: nat, bn: nat): Block
    requires Shaped(v) && i < |v.inodes|
  {
    if bn < MAXFILE && Named(v, SlotOf(i, bn)) < |v.blocks| then v.blocks[Named(v, SlotOf(i, bn))] else Zeros()
  }

  /** The first `len` bytes in the blocks of file i ... */
  ghost function Bytes(v: Image, i: nat, len: nat): (s: seq<Byte>)
    requires Shaped(v) && i < |v.inodes|
    ensures |s| == len && forall p :: 0 <= p < len ==> s[p] == Data(v, i, p / BSIZE)[p % BSIZE]
  {
    seq(len, p requires 0 <= p < len => Data(v, i, p / BSIZE)[p % BSIZE])
  }

  /** ... and what the file holds. */
  ghost function Contents(v: Image, i: nat): seq<Byte>
    requires Shaped(v) && i < |v.inodes|
  {
    Bytes(v, i, v.inodes[i].size)
  }

  /** Where the bytes of a file are: byte p in block p / 512 of the file, the first twelve of
      which are named by the inode and the others by the words of the block its last entry
      names. */
  lemma FileLayout(v: Image, i: nat, p: nat)
    requires Sound(v) && i < |v.inodes| && Sized(v, i) && p < v.inodes[i].size
    ensures p / 512 < 140
    ensures var addrs, bn := v.inodes[i].addrs, p / 512;
            && |addrs| == 13 && (bn >= 12 ==> v.meta <= addrs[12] < |v.blocks|)
            && var b := if bn < 12 then addrs[bn] else GetWord(v.blocks[addrs[12]], bn - 12);
               v.meta <= b < |v.blocks| && Contents(v, i)[p] == v.blocks[b][p % 512]
  {
    var s := SlotOf(i, p / 512);
    assert IsMapped(v, i, p / 512) && Owns(v, s) && OwnedOnce(v, Named(v, s));
    if p / 512 >= 12 {
      assert Owns(v, Indirect(i)) && OwnedOnce(v, Table(v, i));
    }
  }

  /** File j has the same size, the same blocks and the same bytes. */
  ghost predicate SameFile(v: Image, w: Image, j: nat) {
    && Shaped(v) && Shaped(w) && j < |v.inodes| && j < |w.inodes| && w.inodes[j].size == v.inodes[j].size
    && (forall bn :: 0 <= bn < MAXFILE ==> SameBlock(v, w, j, bn)) && Table(w, j) == Table(v, j)
  }

  ghost predicate SameBlock(v: Image, w: Image, j: nat, bn: nat)
    requires Shaped(v) && Shaped(w) && j < |v.inodes| && j < |w.inodes| && bn < MAXFILE
  {
    Named(w, SlotOf(j, bn)) == Named(v, SlotOf(j, bn))
        && (Named(v, SlotOf(j, bn)) != 0 ==> Data(w, j, bn) == Data(v, j, bn))
  }

  lemma SameFileTrans(v: Image, w: Image, x: Image, j: nat)
    requires SameFile(v, w, j) && SameFile(w, x, j)
    ensures SameFile(v, x, j)
  {
    forall bn | 0 <= bn < MAXFILE ensures SameBlock(v, x, j, bn) {
      assert SameBlock(v, w, j, bn) && SameBlock(w, x, j, bn);
    }
  }

  lemma SameContents(v: Image, w: Image, j: nat)
    requires SameFile(v, w, j) && Sized(v, j)
    ensures Sized(w, j) && Contents(w, j) == Contents(v, j)
  {
    forall bn | 0 <= bn < MAXFILE ensures IsMapped(w, j, bn) == IsMapped(v, j, bn) {
      assert SameBlock(v, w, j, bn);
    }
    forall bn | 0 <= bn < MAXFILE ensures IsMapped(w, j, bn) == (bn < Ceil(v.inodes[j].size)) {
      assert IsMapped(v, j, bn) == (bn < Ceil(v.inodes[j].size));
    }
    forall p | 0 <= p < v.inodes[j].size ensures Contents(w, j)[p] == Contents(v, j)[p] {
      var bn := p / BSIZE;
      assert bn < MAXFILE && SameBlock(v, w, j, bn) && IsMapped(v, j, bn) == (bn < Ceil(v.inodes[j].size));
    }
  }

  lemma MappedSameFile(v: Image, w: Image, i: nat, bn: nat, a: nat, j: nat)
    requires Shaped(v) && i < |v.inodes| && bn < MAXFILE && Mapped(v, w, i, bn, a)
    requires j != i && j < |v.inodes|
    ensures SameFile(v, w, j)
  {
    forall m | 0 <= m < MAXFILE ensures SameBlock(v, w, j, m) {
      assert SameName(v, w, SlotOf(j, m));
      assert KeepsSlot(v, w, SlotOf(j, m));
    }
    assert SameName(v, w, Indirect(j));
  }

  lemma WrittenSameFile(v: Image, s: Slot, data: Block, j: nat)
    requires Sound(v) && IsSlot(v, s) && !s.Indirect? && Named(v, s) != 0
    requires j != s.i && j < |v.inodes|
    ensures Named(v, s) < |v.blocks| && SameFile(v, Written(v, s, data), j)
  {
    WrittenNames(v, s, data, s);
    forall m | 0 <= m < MAXFILE ensures SameBlock(v, Written(v, s, data), j, m) {
      WrittenNames(v, s, data, SlotOf(j, m));
    }
    WrittenNames(v, s, data, Indirect(j));
  }

  lemma WrittenExtent(v: Image, s: Slot, data: Block, i: nat, n: nat)
    requires Sound(v) && IsSlot(v, s) && !s.Indirect? && Named(v, s) != 0 && Extent(v, i, n)
    ensures Named(v, s) < |v.blocks| && Extent(Written(v, s, data), i, n)
  {
    WrittenNames(v, s, data, s);
    forall m | 0 <= m < MAXFILE ensures IsMapped(Written(v, s, data), i, m) == (m < n) {
      assert IsMapped(v, i, m) == (m < n);
      WrittenNames(v, s, data, SlotOf(i, m));
    }
    WrittenNames(v, s, data, Indirect(i));
  }

  /** One step of writei: map the block of `off`, then patch m bytes into it. */
  ghost predicate Stepped(v: Image, w: Image, x: Image, i: nat, off: nat, src: seq<Byte>) {
    && Shaped(v) && i < |v.inodes| && off / BSIZE < MAXFILE && 0 < |src| <= BSIZE - off % BSIZE
    && (exists a :: Mapped(v, w, i, off / BSIZE, a)) && Named(w, SlotOf(i, off / BSIZE)) < |w.blocks|
    && Sound(w) && Named(w, SlotOf(i, off / BSIZE)) != 0
    && x == Written(w, SlotOf(i, off / BSIZE), Patch(Data(w, i, off / BSIZE), off % BSIZE, src))
  }

  lemma SteppedBlock(v: Image, w: Image, x: Image, i: nat, off: nat, src: seq<Byte>, n: nat, pn: nat)
    requires Stepped(v, w, x, i, off, src) && Extent(v, i, n) && pn < MAXFILE
    ensures Shaped(x) && i < |x.inodes|
    ensures pn == off / BSIZE ==> Data(x, i, pn) == Patch(Data(w, i, pn), off % BSIZE, src)
    ensures pn != off / BSIZE && pn < n ==> Data(x, i, pn) == Data(w, i, pn)
    ensures pn < n ==> Data(w, i, pn) == Data(v, i, pn)
  {
    var s := SlotOf(i, off / BSIZE);
    WrittenNames(w, s, x.blocks[Named(w, s)], SlotOf(i, pn));
    assert IsMapped(v, i, pn) == (pn < n);
    assert KeepsSlot(v, w, SlotOf(i, pn));
  }

  lemma SameBlockNumber(p: nat, off: nat, m: nat, len: nat)
    requires 0 < m <= BSIZE - off % BSIZE && p < Max(len, off + m) && off <= len
    ensures off <= p < off + m <==> p / BSIZE == off / BSIZE && off % BSIZE <= p % BSIZE < off % BSIZE + m
    ensures off <= p < off + m ==> p % BSIZE - off % BSIZE == p - off
    ensures !(off <= p < off + m) ==> p < len && p / BSIZE < Ceil(len)
  {
    assert off == off / BSIZE * BSIZE + off % BSIZE && p == p / BSIZE * BSIZE + p % BSIZE;
  }

  lemma SteppedByte(v: Image, w: Image, x: Image, i: nat, off: nat, src: seq<Byte>, len: nat, p: nat)
    requires Stepped(v, w, x, i, off, src) && Extent(v, i, Ceil(len)) && off <= len <= MAXFILE * BSIZE
    requires p < Max(len, off + |src|)
    ensures Shaped(x) && i < |x.inodes|
    ensures Data(x, i, p / BSIZE)[p % BSIZE] ==
              if off <= p < off + |src| then src[p - off] else Data(v, i, p / BSIZE)[p % BSIZE]
  {
    SameBlockNumber(p, off, |src|, len);
    SteppedBlock(v, w, x, i, off, src, Ceil(len), p / BSIZE);
  }

  /** So the file comes to hold what it held, overlaid with the bytes written. */
  lemma SteppedBytes(v: Image, w: Image, x: Image, i: nat, off: nat, src: seq<Byte>, len: nat)
    requires Stepped(v, w, x, i, off, src) && Extent(v, i, Ceil(len)) && off <= len <= MAXFILE * BSIZE
    ensures Sound(x) && i < |x.inodes| == |v.inodes| && Extent(x, i, Ceil(Max(len, off + |src|)))
    ensures Bytes(x, i, Max(len, off + |src|)) == Overlay(Bytes(v, i, len), off, src)
    ensures forall j :: 0 <= j < |v.inodes| && j != i ==> SameFile(v, x, j)
  {
    var bn, s := off / BSIZE, SlotOf(i, off / BSIZE);
    var a :| Mapped(v, w, i, bn, a);
    var data := Patch(Data(w, i, bn), off % BSIZE, src);
    WrittenSound(w, s, data);
    StepBlock(len, off, |src|);
    MappedExtent(v, w, i, bn, a, Ceil(len));
    WrittenExtent(w, s, data, i, Ceil(Max(len, off + |src|)));
    forall p | 0 <= p < Max(len, off + |src|)
      ensures Bytes(x, i, Max(len, off + |src|))[p] == Overlay(Bytes(v, i, len), off, src)[p]
    {
      SteppedByte(v, w, x, i, off, src, len, p);
    }
    forall j | 0 <= j < |v.inodes| && j != i ensures SameFile(v, x, j) {
      MappedSameFile(v, w, i, bn, a, j);
      WrittenSameFile(w, s, data, j);
      SameFileTrans(v, w, x, j);
    }
  }

  // ---- truncation ----

  /** bfree of the block slot s names. */
  ghost function Released(v: Image, s: Slot): Image
    requires Shaped(v) && IsSlot(v, s) && Named(v, s) < |v.used|
  {
    v.(used := v.used[Named(v, s) := false], owner := v.owner - {Named(v, s)})
  }

  /** The block is marked, so bfree does not panic; afterwards s is among the slots gone. */
  lemma ReleasedConsistent(v: Image, s: Slot, gone: set<Slot>)
    requires Consistent(v, gone) && IsSlot(v, s) && s !in gone && Named(v, s) != 0
    ensures v.meta <= Named(v, s) < |v.used| && v.used[Named(v, s)]
    ensures Consistent(Released(v, s), gone + {s})
  {
    var b := Named(v, s);
    assert Owns(v, s) && OwnedOnce(v, b);
    var w := Released(v, s);
    forall t | IsSlot(w, t) && t !in gone + {s} ensures Owns(w, t) {
      assert Owns(v, t);
    }
    forall c | c in w.owner ensures OwnedOnce(w, c) && w.owner[c] !in gone + {s} {
      assert OwnedOnce(v, c);
    }
  }

  /** A slot that names nothing may be counted among those gone. */
  lemma EmptyGone(v: Image, s: Slot, gone: set<Slot>)
    requires Consistent(v, gone) && IsSlot(v, s) && Named(v, s) == 0
    ensures Consistent(v, gone + {s})
  {
    forall c | c in v.owner ensures v.owner[c] !in gone + {s} {
      assert OwnedOnce(v, c);
    }
  }

  /** A direct slot whose block is gone is set to 0. */
  lemma ClearedDirect(v: Image, i: nat, k: nat, gone: set<Slot>)
    requires Consistent(v, gone) && IsSlot(v, Direct(i, k)) && Direct(i, k) in gone
    ensures Consistent(Put(v, Direct(i, k), 0), gone - {Direct(i, k)})
  {
    var s := Direct(i, k);
    var w := Put(v, s, 0);
    forall t | IsSlot(w, t) && t !in gone - {s} ensures Owns(w, t) {
      assert t != s ==> Owns(v, t) && Named(w, t) == Named(v, t);
    }
    forall c | c in w.owner ensures OwnedOnce(w, c) && w.owner[c] !in gone - {s} {
      assert OwnedOnce(v, c);
      assert Named(w, v.owner[c]) == Named(v, v.owner[c]);
    }
  }

  ghost function Entries(i: nat, n: nat): (s: set<Slot>)
    ensures forall t :: t in s <==> t.Entry? && t.i == i && t.j < n
  {
    if n == 0 then {} else Entries(i, n - 1) + {Entry(i, n - 1)}
  }

  /** The indirect slot is set to 0 when it and all its entries are gone. */
  lemma ClearedIndirect(v: Image, i: nat)
    requires i < |v.inodes| && Consistent(v, Entries(i, NINDIRECT) + {Indirect(i)})
    ensures Sound(Put(v, Indirect(i), 0))
  {
    var w := Put(v, Indirect(i), 0);
    var gone := Entries(i, NINDIRECT) + {Indirect(i)};
    forall t | IsSlot(w, t) ensures Owns(w, t) {
      assert t !in gone ==> Owns(v, t) && Named(w, t) == Named(v, t);
      assert t in gone ==> Named(w, t) == 0;
    }
    forall c | c in w.owner ensures OwnedOnce(w, c) {
      assert OwnedOnce(v, c);
      assert Named(w, v.owner[c]) == Named(v, v.owner[c]);
    }
  }

  /** What is left of v when file i has been truncated: its blocks are free, and nothing else
      has changed. */
  ghost predicate Truncated(v: Image, w: Image, i: nat) {
    && Sound(w) && i < |v.inodes| && w.blocks == v.blocks && w.meta == v.meta && |w.used| == |v.used|
    && w.inodes == v.inodes[i := Inode(0, seq(NDIRECT + 1, _ => 0))]
    && (forall b :: 0 <= b < |v.used| ==> (w.used[b] <==> v.used[b] && !(b in v.owner && v.owner[b].i == i)))
    && (forall b :: b in w.owner <==> b in v.owner && v.owner[b].i != i)
  }

  /** Only blocks of file i have left the map of owners. */
  ghost predicate OnlyReleased(v: Image, w: Image, i: nat) {
    && |w.used| == |v.used| && w.blocks == v.blocks && w.meta == v.meta && |w.inodes| == |v.inodes| && i < |v.inodes|
    && (forall j :: 0 <= j < |v.inodes| && j != i ==> w.inodes[j] == v.inodes[j])
    && (forall b :: b in w.owner ==> b in v.owner && w.owner[b] == v.owner[b])
    && (forall b :: b in v.owner && v.owner[b].i != i ==> b in w.owner)
  }

  lemma AllReleased(v: Image, w: Image, i: nat)
    requires Sound(v) && OnlyReleased(v, w, i) && Sound(w)
    requires forall k :: 0 <= k <= NDIRECT ==> w.inodes[i].addrs[k] == 0
    ensures Truncated(v, w.(inodes := w.inodes[i := Inode(0, seq(NDIRECT + 1, _ => 0))]), i)
  {
    var x := w.(inodes := w.inodes[i := Inode(0, seq(NDIRECT + 1, _ => 0))]);
    assert x.inodes[i].addrs == w.inodes[i].addrs;
    forall t | IsSlot(x, t) ensures Owns(x, t) && Named(x, t) == Named(w, t) {
      assert Owns(w, t);
    }
    forall b | b in w.owner ensures OwnedOnce(x, b) && w.owner[b].i != i {
      assert OwnedOnce(w, b);
    }
    assert x.inodes == v.inodes[i := Inode(0, seq(NDIRECT + 1, _ => 0))];
    forall b | 0 <= b < |v.used|
      ensures x.used[b] <==> v.used[b] && !(b in v.owner && v.owner[b].i == i)
    {
      assert b in v.owner ==> OwnedOnce(v, b);
    }
  }

  /** A truncated file is empty, and every other file is what it was. */
  lemma TruncatedFiles(v: Image, w: Image, i: nat)
    requires Sound(v) && Truncated(v, w, i)
    ensures Sized(w, i) && Contents(w, i) == []
    ensures forall j :: 0 <= j < |v.inodes| && j != i ==> SameFile(v, w, j)
  {
    forall bn | 0 <= bn < MAXFILE ensures IsMapped(w, i, bn) == (bn < 0) {
      if bn >= NDIRECT { assert Table(w, i) == 0; }
    }
    forall j | 0 <= j < |v.inodes| && j != i ensures SameFile(v, w, j) {
      forall bn | 0 <= bn < MAXFILE ensures SameBlock(v, w, j, bn) {
      }
    }
  }

  // ---- bmap ----

  lemma OneAllocation(v: Image, i: nat, bn: nat, b: Word)
    requires bn < MAXFILE && CanAllocate(v, SlotOf(i, bn), b)
    ensures bn >= NDIRECT ==> Table(v, i) < |v.blocks|
    ensures Mapped(v, Allocated(v, SlotOf(i, bn), b), i, bn, b)
  {
    var s := SlotOf(i, bn);
    AllocatedSound(v, s, b);
    AllocatedKeeps(v, s, b);
    AllocatedNames(v, s, b, s);
    var w := Allocated(v, s, b);
    forall t | IsSlot(v, t) && IsSlot(w, t) && t != s ensures SameName(v, w, t) {
      AllocatedNames(v, s, b, t);
    }
    if bn >= NDIRECT {
      AllocatedNames(v, s, b, Indirect(i));
    }
  }

  /** bmap may have to allocate the indirect block first. */
  lemma TwoAllocations(v: Image, i: nat, bn: nat, t: Word, b: Word)
    requires NDIRECT <= bn < MAXFILE && CanAllocate(v, Indirect(i), t) && t != 0
    ensures Sound(Allocated(v, Indirect(i), t)) && Named(Allocated(v, Indirect(i), t), SlotOf(i, bn)) == 0
    ensures Table(Allocated(v, Indirect(i), t), i) == t
    ensures var w := Allocated(v, Indirect(i), t);
            CanAllocate(w, SlotOf(i, bn), b) ==>
              t < |w.blocks| && Mapped(v, Allocated(w, SlotOf(i, bn), b), i, bn, b)
  {
    var w := Allocated(v, Indirect(i), t);
    AllocatedSound(v, Indirect(i), t);
    AllocatedKeeps(v, Indirect(i), t);
    AllocatedNames(v, Indirect(i), t, Indirect(i));
    AllocatedNames(v, Indirect(i), t, SlotOf(i, bn));
    if CanAllocate(w, SlotOf(i, bn), b) {
      var x := Allocated(w, SlotOf(i, bn), b);
      OneAllocation(w, i, bn, b);
      KeepsTrans(v, w, x);
      forall s | IsSlot(v, s) && IsSlot(x, s) && s != SlotOf(i, bn) && s != Indirect(i) ensures SameName(v, x, s) {
        AllocatedNames(v, Indirect(i), t, s);
        assert SameName(w, x, s);
      }
    }
  }

  lemma NoAllocation(v: Image, i: nat, bn: nat)
    requires Sound(v) && i < |v.inodes| && bn < MAXFILE && Named(v, SlotOf(i, bn)) != 0
    ensures Mapped(v, v, i, bn, Named(v, SlotOf(i, bn)))
  {
    var a := Named(v, SlotOf(i, bn));
    assert Owns(v, SlotOf(i, bn)) && OwnedOnce(v, a);
    forall t | IsSlot(v, t) ensures KeepsSlot(v, v, t) {
      assert Owns(v, t);
      if Named(v, t) != 0 {
        assert OwnedOnce(v, Named(v, t));
      }
    }
  }

  // ---- writei ----

  /** The first n blocks of file i, and its indirect block, are where they were. */
  ghost predicate StillNamed(v: Image, w: Image, i: nat, n: nat) {
    && Shaped(v) && Shaped(w) && i < |v.inodes| && i < |w.inodes|
    && (forall bn :: 0 <= bn < n && bn < MAXFILE ==> SameNumber(v, w, i, bn))
    && (Table(v, i) != 0 ==> Table(w, i) == Table(v, i))
  }

  ghost predicate SameNumber(v: Image, w: Image, i: nat, bn: nat)
    requires Shaped(v) && Shaped(w) && i < |v.inodes| && i < |w.inodes| && bn < MAXFILE
  {
    Named(w, SlotOf(i, bn)) == Named(v, SlotOf(i, bn))
  }

  lemma SteppedNames(v: Image, w: Image, x: Image, i: nat, off: nat, src: seq<Byte>, n: nat)
    requires Stepped(v, w, x, i, off, src) && Extent(v, i, n)
    ensures StillNamed(v, x, i, n) && Named(x, SlotOf(i, off / BSIZE)) == Named(w, SlotOf(i, off / BSIZE))
    ensures Table(x, i) == Table(w, i)
    ensures off / BSIZE < n ==> x.inodes == v.inodes
    ensures x.inodes[i].size == v.inodes[i].size && OnlyInode(v, x, i)
  {
    var s, bn := SlotOf(i, off / BSIZE), off / BSIZE;
    var a :| Mapped(v, w, i, bn, a);
    var data := x.blocks[Named(w, s)];
    assert IsMapped(v, i, bn) == (bn < n);
    forall m | 0 <= m < n && m < MAXFILE ensures SameNumber(v, x, i, m) {
      assert IsMapped(v, i, m) == (m < n);
      assert KeepsSlot(v, w, SlotOf(i, m));
      WrittenNames(w, s, data, SlotOf(i, m));
    }
    WrittenNames(w, s, data, Indirect(i));
    WrittenNames(w, s, data, s);
    assert KeepsSlot(v, w, Indirect(i));
  }

  /** File i gets the given size. */
  ghost function Resized(v: Image, i: nat, size: nat): Image
    requires i < |v.inodes|
  {
    v.(inodes := v.inodes[i := v.inodes[i].(size := size)])
  }

  lemma ResizedFiles(v: Image, i: nat, size: nat)
    requires Sound(v) && i < |v.inodes| && Extent(v, i, Ceil(size)) && size <= MAXFILE * BSIZE
    ensures Sound(Resized(v, i, size)) && Sized(Resized(v, i, size), i)
    ensures Contents(Resized(v, i, size), i) == Bytes(v, i, size)
    ensures forall j :: 0 <= j < |v.inodes| && j != i ==> SameFile(v, Resized(v, i, size), j)
  {
    var w := Resized(v, i, size);
    forall t | IsSlot(w, t) ensures Owns(w, t) && Named(w, t) == Named(v, t) {
      assert Owns(v, t);
    }
    forall c | c in w.owner ensures OwnedOnce(w, c) {
      assert OwnedOnce(v, c);
    }
    forall bn | 0 <= bn < MAXFILE ensures IsMapped(w, i, bn) == (bn < Ceil(size)) {
      assert IsMapped(v, i, bn) == (bn < Ceil(size));
    }
    forall j, bn | 0 <= j < |v.inodes| && 0 <= bn < MAXFILE ensures SameBlock(v, w, j, bn) {
    }
  }

  /** A successful writei: file i is overlaid with src at off, every other file is as it was. */
  ghost predicate WroteFile(v: Image, w: Image, i: nat, off: nat, src: seq<Byte>) {
    && Shaped(v) && Shaped(w) && i < |v.inodes| == |w.inodes| && off <= v.inodes[i].size
    && Contents(w, i) == Overlay(Contents(v, i), off, src)
    && forall j :: 0 <= j < |v.inodes| && j != i ==> SameFile(v, w, j)
  }

  /** writei has written the first `tot` bytes of src into file i, starting from v. */
  ghost predicate Progress(v: Image, x: Image, i: nat, off: nat, src: seq<Byte>, tot: nat) {
    && Sound(v) && Sound(x) && i < |v.inodes| == |x.inodes| && tot <= |src|
    && off <= v.inodes[i].size <= MAXFILE * BSIZE && off + |src| <= MAXFILE * BSIZE
    && x.inodes[i].size == v.inodes[i].size && OnlyInode(v, x, i)
    && (off + tot <= v.inodes[i].size ==> x.inodes == v.inodes)
    && Extent(x, i, Ceil(Max(v.inodes[i].size, off + tot)))
    && Bytes(x, i, Max(v.inodes[i].size, off + tot)) == Overlay(Contents(v, i), off, src[..tot])
    && forall j :: 0 <= j < |v.inodes| && j != i ==> SameFile(v, x, j)
  }

  lemma ProgressStart(v: Image, i: nat, off: nat, src: seq<Byte>)
    requires Sound(v) && Sized(v, i) && off <= v.inodes[i].size && off + |src| <= MAXFILE * BSIZE
    ensures Progress(v, v, i, off, src, 0)
  {
    forall j | 0 <= j < |v.inodes| && j != i ensures SameFile(v, v, j) {
      forall bn | 0 <= bn < MAXFILE ensures SameBlock(v, v, j, bn) {
      }
    }
  }

  lemma InsideBlocks(off: nat, m: nat, size: nat)
    requires m > 0
    ensures off + m <= size ==> off / BSIZE < Ceil(size)
  {
  }

  lemma ProgressBytes(v: Image, x: Image, w: Image, y: Image, i: nat, off: nat, src: seq<Byte>, tot: nat, m: nat)
    requires Progress(v, x, i, off, src, tot) && 0 < m && tot + m <= |src|
    requires Stepped(x, w, y, i, off + tot, src[tot..tot + m])
    ensures Sound(y) && |y.inodes| == |v.inodes|
    ensures var len := Max(v.inodes[i].size, off + tot + m);
            Extent(y, i, Ceil(len)) && Bytes(y, i, len) == Overlay(Contents(v, i), off, src[..tot + m])
    ensures forall j :: 0 <= j < |v.inodes| && j != i ==> SameFile(x, y, j)
  {
    assert Shaped(v);
    hide Overlay, OnlyInode, Stepped, Consistent, Extent;
    var len := Max(v.inodes[i].size, off + tot);
    SteppedBytes(x, w, y, i, off + tot, src[tot..tot + m], len);
    OverlayPart(Contents(v, i), off, src, tot, m);
    assert Max(len, off + tot + m) == Max(v.inodes[i].size, off + tot + m);
  }

  /** The next m bytes of src go on top of the first tot. */
  lemma OverlayPart(c: seq<Byte>, off: nat, src: seq<Byte>, tot: nat, m: nat)
    requires off <= |c| && tot + m <= |src|
    ensures off + tot <= |Overlay(c, off, src[..tot])|
    ensures Overlay(Overlay(c, off, src[..tot]), off + tot, src[tot..tot + m]) == Overlay(c, off, src[..tot + m])
  {
    OverlayTwice(c, off, src[..tot], src[tot..tot + m]);
    assert src[..tot] + src[tot..tot + m] == src[..tot + m];
  }

  lemma ProgressStep(v: Image, x: Image, w: Image, y: Image, i: nat, off: nat, src: seq<Byte>, tot: nat, m: nat)
    requires Progress(v, x, i, off, src, tot) && 0 < m && tot + m <= |src|
    requires Stepped(x, w, y, i, off + tot, src[tot..tot + m])
    ensures Progress(v, y, i, off, src, tot + m)
  {
    var size := v.inodes[i].size;
    ProgressBytes(v, x, w, y, i, off, src, tot, m);
    SteppedNames(x, w, y, i, off + tot, src[tot..tot + m], Ceil(Max(size, off + tot)));
    InsideBlocks(off + tot, m, size);
    forall j | 0 <= j < |v.inodes| && j != i ensures SameFile(v, y, j) {
      SameFileTrans(v, x, y, j);
    }
  }

  /** After the loop the size is brought up to date if the file has grown. */
  lemma ProgressEnd(v: Image, x: Image, i: nat, off: nat, src: seq<Byte>)
    requires Progress(v, x, i, off, src, |src|)
    ensures var y := if off + |src| > v.inodes[i].size then Resized(x, i, off + |src|) else x;
            WroteFile(v, y, i, off, src) && Sound(y) && Sized(y, i)
  {
    assert src[..|src|] == src;
    if off + |src| > v.inodes[i].size {
      ResizedFiles(x, i, off + |src|);
      var y := Resized(x, i, off + |src|);
      forall j | 0 <= j < |v.inodes| && j != i ensures SameFile(v, y, j) {
        SameFileTrans(v, x, y, j);
      }
    }
  }

  // ---- what writei logs ----

  /** The blocks lo to hi-1 of file i. */
  ghost function DataBlocks(v: Image, i: nat, lo: nat, hi: nat): (s: set<nat>)
    requires Shaped(v) && i < |v.inodes| && lo <= hi <= MAXFILE
    decreases hi
  {
    if lo == hi then {} else DataBlocks(v, i, lo, hi - 1) + {Named(v, SlotOf(i, hi - 1))}
  }

  /** They, the bitmap block, and the indirect block if there is one. */
  ghost function Region(v: Image, i: nat, lo: nat, hi: nat, bitmap: nat): set<nat>
    requires Shaped(v) && i < |v.inodes| && lo <= hi <= MAXFILE
  {
    DataBlocks(v, i, lo, hi) + {bitmap} + if Table(v, i) != 0 then {Table(v, i)} else {}
  }

  lemma {:induction false} DataBlocksStay(v: Image, w: Image, i: nat, lo: nat, hi: nat, n: nat)
    requires StillNamed(v, w, i, n) && lo <= hi <= MAXFILE && hi <= n
    ensures DataBlocks(v, i, lo, hi) == DataBlocks(w, i, lo, hi)
    decreases hi
  {
    if lo < hi {
      DataBlocksStay(v, w, i, lo, hi - 1, n);
      assert SameNumber(v, w, i, hi - 1);
    }
  }

  lemma RegionStay(v: Image, w: Image, i: nat, lo: nat, hi: nat, n: nat, bitmap: nat)
    requires StillNamed(v, w, i, n) && lo <= hi <= MAXFILE && hi <= n
    ensures Region(v, i, lo, hi, bitmap) <= Region(w, i, lo, hi, bitmap)
  {
    DataBlocksStay(v, w, i, lo, hi, n);
  }

  /** Four data blocks, the bitmap, the indirect block and one more: at most seven. */
  lemma RegionSize(v: Image, i: nat, lo: nat, hi: nat, bitmap: nat, inode: nat)
    requires Shaped(v) && i < |v.inodes| && lo <= hi <= MAXFILE && hi <= lo + 4
    ensures |Region(v, i, lo, hi, bitmap) + {inode}| <= 7
  {
    DataBlocksSize(v, i, lo, hi);
    var d, t := DataBlocks(v, i, lo, hi), if Table(v, i) != 0 then {Table(v, i)} else {};
    UnionSize(d, {bitmap});
    UnionSize(d + {bitmap}, t);
    UnionSize(d + {bitmap} + t, {inode});
  }

  lemma UnionSize(a: set<nat>, b: set<nat>)
    ensures |a + b| <= |a| + |b|
  {
  }

  lemma {:induction false} DataBlocksSize(v: Image, i: nat, lo: nat, hi: nat)
    requires Shaped(v) && i < |v.inodes| && lo <= hi <= MAXFILE
    ensures |DataBlocks(v, i, lo, hi)| <= hi - lo
    decreases hi
  {
    if lo < hi {
      DataBlocksSize(v, i, lo, hi - 1);
      UnionSize(DataBlocks(v, i, lo, hi - 1), {Named(v, SlotOf(i, hi - 1))});
    }
  }
}
