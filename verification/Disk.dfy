/** The disk under the log: the synchronous block store of memide.c, seen through the
    buffer cache of bio.c. */
module Disk {
  import opened Common

  const BLOCK_WORDS := 128   // BSIZE / sizeof(uint)
  const MAXOPBLOCKS := 10
  const LOGSIZE := 30

  type Block = b: seq<Word> | |b| == BLOCK_WORDS witness seq(BLOCK_WORDS, _ => 0)
  type Platter = seq<Block>

  /** `platter` is what survives a power failure. `view` is what `bread` returns: the
      cached contents where a buffer holds the block, the platter elsewhere. A block in
      `dirty` is pinned in the cache (B_DIRTY) and may differ from the platter; every other
      block agrees with it, which is what module BufferCache proves of the real cache.
      `crashPoints` records the platter after each write: a crash can expose any of them. */
  class BlockStore {
    var platter: Platter
    var view: Platter
    var dirty: set<nat>
    ghost var crashPoints: seq<Platter>

    ghost predicate Valid()
      reads this
    {
      && |view| == |platter|
      && (forall b :: b in dirty ==> b < |platter|)
      && forall b: nat :: b < |platter| && b !in dirty ==> view[b] == platter[b]
    }

    method Bread(b: nat) returns (data: Block)
      requires Valid() && b < |platter|
      ensures data == view[b]
    {
      data := view[b];
    }

    /** Set B_DIRTY and call iderw: one atomic platter write. */
    method Bwrite(b: nat, data: Block)
      requires Valid() && b < |platter|
      modifies this
      ensures Valid()
      ensures platter == old(platter)[b := data] && view == old(view)[b := data]
      ensures dirty == old(dirty) - {b}
      ensures crashPoints == old(crashPoints) + [platter]
    {
      platter := platter[b := data];
      view := view[b := data];
      dirty := dirty - {b};
      crashPoints := crashPoints + [platter];
    }

    /** The caller changed the buffer and pinned it; the platter is untouched. */
    method Pin(b: nat, data: Block)
      requires Valid() && b < |platter|
      modifies this
      ensures Valid() && platter == old(platter) && crashPoints == old(crashPoints)
      ensures view == old(view)[b := data] && dirty == old(dirty) + {b}
    {
      view := view[b := data];
      dirty := dirty + {b};
    }
  }
}
