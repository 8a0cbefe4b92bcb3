/**
 What the loops of writei and itrunc keep: how far a write has got, and which blocks of a file that is
 being truncated are free already.
 */
module FsWrite {
  import opened Common
  import opened FsModel
  import opened FsOwnership

  const MAXBYTES: nat := 71680  // MAXFILE * BSIZE
  const IPB: nat := 8           // BSIZE / sizeof(struct dinode)

  // ---- writing into a data block ----

  /** memmove into the buffer of block b, at byte `at`. */
  function Splice(b: Block, at: nat, data: seq<byte>): (r: Block)
    requires at + |data| <= BSIZE
    ensures forall q :: 0 <= q < BSIZE ==> r[q] == if at <= q < at + |data| then data[q - at] else b[q]
  {
    b[..at] + data + b[at + |data|..]
  }

  function PutBlock(fs: Fs, b: nat, data: Block): Fs
    requires b < |fs.blocks|
  {
    fs.(blocks := fs.blocks[b := data])
  }

  ghost predicate IsData(fs: Fs, i: nat, k: nat)
  {
    Owned(fs) && i < |fs.inodes| && k < SLOTS && k != NDIRECT && Slot(fs, i, k) != 0
  }

  lemma PutSlots(fs: Fs, i: nat, k: nat, data: Block, j: nat, l: nat)
    requires IsData(fs, i, k) && SlotOk(fs, i, k) && j < |fs.inodes| && l < SLOTS
    ensures Slot(PutBlock(fs, Slot(fs, i, k), data), j, l) == Slot(fs, j, l)
  {
    assert Slot(fs, j, NDIRECT) == Slot(fs, i, k) ==> j == i && k == NDIRECT;
  }

  /** Writing data into a file's block changes no slot, so it keeps ownership. */
  lemma PutOwned(fs: Fs, i: nat, k: nat, data: Block)
    requires IsData(fs, i, k) && SlotOk(fs, i, k)
    ensures Owned(PutBlock(fs, Slot(fs, i, k), data))
  {
    var gs := PutBlock(fs, Slot(fs, i, k), data);
    assert Shape(gs) by {
      forall j | 0 <= j < |gs.inodes|
        ensures AddrsOk(gs, gs.inodes[j])
      {
        assert AddrsOk(fs, fs.inodes[j]);
      }
    }
    forall j, l | 0 <= j < |fs.inodes| && 0 <= l < SLOTS
      ensures Slot(gs, j, l) == Slot(fs, j, l) && SlotOk(gs, j, l)
    {
      PutSlots(fs, i, k, data, j, l);
      assert SlotOk(fs, j, l);
    }
    assert Unshared(gs);
    forall c | gs.nmeta <= c < gs.size && Bit(gs.bitmap, c)
      ensures HasOwner(gs, c)
    {
      assert HasOwner(fs, c);
      var j, l :| 0 <= j < |fs.inodes| && 0 <= l < SLOTS && Slot(fs, j, l) == c;
      assert Slot(gs, j, l) == c;
    }
  }

  /** ... and no other file's bytes. */
  lemma PutElsewhere(fs: Fs, i: nat, k: nat, data: Block, j: nat)
    requires IsData(fs, i, k) && SlotOk(fs, i, k) && j < |fs.inodes| && j != i
    ensures Owned(PutBlock(fs, Slot(fs, i, k), data))
    ensures SameData(fs, PutBlock(fs, Slot(fs, i, k), data), j)
  {
    var gs := PutBlock(fs, Slot(fs, i, k), data);
    PutOwned(fs, i, k, data);
    forall l | 0 <= l < SLOTS && Slot(fs, j, l) != 0
      ensures Slot(gs, j, l) == Slot(fs, j, l)
      ensures l != NDIRECT ==> BlockAt(gs, Slot(gs, j, l)) == BlockAt(fs, Slot(fs, j, l))
    {
      PutSlots(fs, i, k, data, j, l);
      assert Slot(fs, j, l) != Slot(fs, i, k);
    }
  }

  // ---- writei ----

  /** Bytes [off0, off) of file i hold the start of src; everything else is as it was in fs0. */
  ghost predicate Written(fs0: Fs, fs: Fs, i: nat, src: seq<byte>, off0: nat, off: nat) {
    && Owned(fs0) && Owned(fs) && i < |fs0.inodes| == |fs.inodes|
    && fs.size == fs0.size && fs.nmeta == fs0.nmeta && |fs.bitmap| == |fs0.bitmap|
    && fs.inodes[i].size == fs0.inodes[i].size && fs.inodes[i].kind == fs0.inodes[i].kind
    && off0 <= off <= off0 + |src| && off <= MAXBYTES && fs0.inodes[i].size <= MAXBYTES
    && (forall j :: 0 <= j < |fs.inodes| && j != i ==> SameData(fs0, fs, j))
    && (forall p :: 0 <= p < fs0.inodes[i].size || off0 <= p < off ==> Slot(fs, i, Place(p / BSIZE)) != 0)
    && (forall p :: 0 <= p < fs0.inodes[i].size && !(off0 <= p < off) ==> Byte(fs, i, p) == Byte(fs0, i, p))
    && (forall p :: off0 <= p < off ==> Byte(fs, i, p) == src[p - off0])
  }

  lemma WrittenStart(fs: Fs, i: nat, src: seq<byte>, off: nat)
    requires Owned(fs) && i < |fs.inodes| && NoHoles(fs, i) && off <= MAXBYTES
    ensures Written(fs, fs, i, src, off, off)
  {
  }

  lemma WrittenGrown(fs0: Fs, fs: Fs, gs: Fs, i: nat, src: seq<byte>, off0: nat, off: nat)
    requires Written(fs0, fs, i, src, off0, off) && Grown(fs, gs)
    ensures Written(fs0, gs, i, src, off0, off)
  {
    assert SameData(fs, gs, i);
    forall p | 0 <= p < fs0.inodes[i].size || off0 <= p < off
      ensures Slot(gs, i, Place(p / BSIZE)) != 0 && Byte(gs, i, p) == Byte(fs, i, p)
    {
      assert Slot(fs, i, Place(p / BSIZE)) != 0;
    }
    forall j | 0 <= j < |fs.inodes| && j != i
      ensures SameData(fs0, gs, j)
    {
      assert SameData(fs0, fs, j) && SameData(fs, gs, j);
    }
  }

  lemma SameByte(fs: Fs, i: nat, k: nat, at: nat, data: seq<byte>, p: nat)
    requires IsData(fs, i, k) && SlotOk(fs, i, k) && at + |data| <= BSIZE && p < MAXBYTES
    requires Slot(fs, i, Place(p / BSIZE)) != 0
    ensures var gs := PutBlock(fs, Slot(fs, i, k), Splice(fs.blocks[Slot(fs, i, k)], at, data));
      && Slot(gs, i, Place(p / BSIZE)) == Slot(fs, i, Place(p / BSIZE))
      && Byte(gs, i, p) ==
         if Place(p / BSIZE) == k && at <= p % BSIZE < at + |data| then data[p % BSIZE - at] else Byte(fs, i, p)
  {
    var spliced := Splice(fs.blocks[Slot(fs, i, k)], at, data);
    PutSlots(fs, i, k, spliced, i, Place(p / BSIZE));
    assert SlotOk(fs, i, Place(p / BSIZE));
  }

  /** One round of writei's loop, after bmap: min(n - tot, BSIZE - off % BSIZE) bytes into one block. */
  lemma WrittenNext(fs0: Fs, fs: Fs, i: nat, src: seq<byte>, off0: nat, off: nat, m: nat)
    requires Written(fs0, fs, i, src, off0, off) && off < MAXBYTES && off + m <= MAXBYTES
    requires IsData(fs, i, Place(off / BSIZE)) && SlotOk(fs, i, Place(off / BSIZE))
    requires off + m <= off0 + |src| && off % BSIZE + m <= BSIZE
    ensures var b := Slot(fs, i, Place(off / BSIZE));
      Written(fs0, PutBlock(fs, b, Splice(fs.blocks[b], off % BSIZE, src[off - off0..off - off0 + m])),
              i, src, off0, off + m)
  {
    var k := Place(off / BSIZE);
    var b := Slot(fs, i, k);
    var data := src[off - off0..off - off0 + m];
    var gs := PutBlock(fs, b, Splice(fs.blocks[b], off % BSIZE, data));
    PutOwned(fs, i, k, Splice(fs.blocks[b], off % BSIZE, data));
    forall j | 0 <= j < |fs.inodes| && j != i
      ensures SameData(fs0, gs, j)
    {
      PutElsewhere(fs, i, k, Splice(fs.blocks[b], off % BSIZE, data), j);
      assert SameData(fs0, fs, j);
    }
    forall p | 0 <= p < fs0.inodes[i].size || off0 <= p < off + m
      ensures Slot(gs, i, Place(p / BSIZE)) != 0
      ensures Byte(gs, i, p) == if off0 <= p < off + m then src[p - off0] else Byte(fs0, i, p)
    {
      WrittenByte(off, m, p);
      SameByte(fs, i, k, off % BSIZE, data, p);
    }
  }

  /** A position falls into the piece that starts at off iff it lies in off's block, at the right offset. */
  lemma WrittenByte(off: nat, m: nat, p: nat)
    requires off % BSIZE + m <= BSIZE && off < MAXBYTES && p < MAXBYTES
    ensures off <= p < off + m ==> p / BSIZE == off / BSIZE && p % BSIZE == off % BSIZE + (p - off)
    ensures !(off <= p < off + m) ==> !(Place(p / BSIZE) == Place(off / BSIZE)
                                        && off % BSIZE <= p % BSIZE < off % BSIZE + m)
  {
  }

  /** The size update at the end of writei. */
  function SetSize(fs: Fs, i: nat, size: nat): Fs
    requires i < |fs.inodes|
  {
    fs.(inodes := fs.inodes[i := fs.inodes[i].(size := size)])
  }

  lemma SetSizeOwned(fs: Fs, i: nat, size: nat)
    requires Owned(fs) && i < |fs.inodes|
    ensures Owned(SetSize(fs, i, size))
    ensures forall j, l :: 0 <= j < |fs.inodes| && 0 <= l < SLOTS ==> Slot(SetSize(fs, i, size), j, l) == Slot(fs, j, l)
  {
    var gs := SetSize(fs, i, size);
    assert Shape(gs) by {
      forall j | 0 <= j < |gs.inodes|
        ensures AddrsOk(gs, gs.inodes[j])
      {
        assert AddrsOk(fs, fs.inodes[j]);
      }
    }
    forall j, l | 0 <= j < |fs.inodes| && 0 <= l < SLOTS
      ensures Slot(gs, j, l) == Slot(fs, j, l) && SlotOk(gs, j, l)
    {
      assert SlotOk(fs, j, l);
    }
    forall c | gs.nmeta <= c < gs.size && Bit(gs.bitmap, c)
      ensures HasOwner(gs, c)
    {
      assert HasOwner(fs, c);
      var j, l :| 0 <= j < |fs.inodes| && 0 <= l < SLOTS && Slot(fs, j, l) == c;
      assert Slot(gs, j, l) == c;
    }
  }

  /** The content of a file after n bytes of src have been written at off. */
  function Overwrite(c: seq<byte>, off: nat, src: seq<byte>): (r: seq<byte>)
    requires off <= |c|
    ensures |r| == if off + |src| > |c| then off + |src| else |c|
  {
    c[..off] + src + if off + |src| < |c| then c[off + |src|..] else []
  }

  /** Files other than i keep their content and stay without holes. */
  ghost predicate OthersKept(fs0: Fs, fs: Fs, i: nat)
    requires Owned(fs0) && Owned(fs) && |fs.inodes| == |fs0.inodes|
  {
    forall j :: 0 <= j < |fs0.inodes| && j != i && NoHoles(fs0, j) ==>
      NoHoles(fs, j) && Content(fs, j) == Content(fs0, j)
  }

  lemma SameDataContent(fs: Fs, gs: Fs, j: nat)
    requires Owned(fs) && Owned(gs) && |fs.inodes| == |gs.inodes| && j < |fs.inodes|
    requires SameData(fs, gs, j) && NoHoles(fs, j)
    ensures NoHoles(gs, j) && Content(gs, j) == Content(fs, j)
  {
  }

  /** A finished write: only file i changed, and its content is the overwritten one. */
  ghost predicate WriteDone(fs0: Fs, fs: Fs, i: nat, src: seq<byte>, off: nat) {
    && Owned(fs0) && Owned(fs) && i < |fs0.inodes| == |fs.inodes|
    && NoHoles(fs0, i) && NoHoles(fs, i) && off <= fs0.inodes[i].size
    && fs.inodes[i].kind == fs0.inodes[i].kind
    && Content(fs, i) == Overwrite(Content(fs0, i), off, src)
    && OthersKept(fs0, fs, i)
  }

  function EndSize(fs: Fs, i: nat, end: nat): nat
    requires i < |fs.inodes|
  {
    if end > fs.inodes[i].size then end else fs.inodes[i].size
  }

  lemma WrittenOthers(fs0: Fs, fs: Fs, i: nat, src: seq<byte>, off: nat, size: nat, j: nat)
    requires Written(fs0, fs, i, src, off, off + |src|) && j < |fs0.inodes| && j != i && NoHoles(fs0, j)
    requires Owned(SetSize(fs, i, size))
    requires forall l :: 0 <= l < SLOTS ==> Slot(SetSize(fs, i, size), j, l) == Slot(fs, j, l)
    ensures var gs := SetSize(fs, i, size);
      NoHoles(gs, j) && Content(gs, j) == Content(fs0, j)
  {
    assert SameData(fs0, fs, j);
    assert SameData(fs0, SetSize(fs, i, size), j);
    SameDataContent(fs0, SetSize(fs, i, size), j);
  }

  lemma WrittenContent(fs0: Fs, fs: Fs, gs: Fs, i: nat, src: seq<byte>, off: nat)
    requires Written(fs0, fs, i, src, off, off + |src|) && NoHoles(fs0, i) && off <= fs0.inodes[i].size
    requires gs == SetSize(fs, i, EndSize(fs, i, off + |src|)) && Owned(gs)
    requires forall l :: 0 <= l < SLOTS ==> Slot(gs, i, l) == Slot(fs, i, l)
    ensures NoHoles(gs, i) && Content(gs, i) == Overwrite(Content(fs0, i), off, src)
  {
    var c := Content(gs, i);
    var d := Overwrite(Content(fs0, i), off, src);
    forall p | 0 <= p < gs.inodes[i].size
      ensures c[p] == d[p]
    {
      assert Byte(gs, i, p) == Byte(fs, i, p);
    }
  }

  /** When the loop of writei has written all of src, the size update finishes the write. */
  lemma WrittenAll(fs0: Fs, fs: Fs, i: nat, src: seq<byte>, off: nat)
    requires Written(fs0, fs, i, src, off, off + |src|) && NoHoles(fs0, i) && off <= fs0.inodes[i].size
    ensures WriteDone(fs0, SetSize(fs, i, EndSize(fs, i, off + |src|)), i, src, off)
  {
    var size := EndSize(fs, i, off + |src|);
    var gs := SetSize(fs, i, size);
    SetSizeOwned(fs, i, size);
    WrittenContent(fs0, fs, gs, i, src, off);
    forall j | 0 <= j < |fs0.inodes| && j != i && NoHoles(fs0, j)
      ensures NoHoles(gs, j) && Content(gs, j) == Content(fs0, j)
    {
      WrittenOthers(fs0, fs, i, src, off, size, j);
    }
  }

  // ---- a write in pieces ----

  lemma OverwriteNone(c: seq<byte>, off: nat)
    requires off <= |c|
    ensures Overwrite(c, off, []) == c
  {
  }

  lemma OverwriteTwice(c: seq<byte>, off: nat, a: seq<byte>, b: seq<byte>)
    requires off <= |c|
    ensures off + |a| <= |Overwrite(c, off, a)|
    ensures Overwrite(Overwrite(c, off, a), off + |a|, b) == Overwrite(c, off, a + b)
  {
  }

  lemma NothingWritten(fs: Fs, i: nat, off: nat)
    requires Owned(fs) && i < |fs.inodes| && NoHoles(fs, i) && off <= fs.inodes[i].size
    ensures WriteDone(fs, fs, i, [], off)
  {
    OverwriteNone(Content(fs, i), off);
  }

  /** Two writes one after the other are one write of both pieces. */
  lemma WriteDoneTwice(fs0: Fs, fs: Fs, gs: Fs, i: nat, a: seq<byte>, b: seq<byte>, off: nat)
    requires WriteDone(fs0, fs, i, a, off) && WriteDone(fs, gs, i, b, off + |a|)
    ensures WriteDone(fs0, gs, i, a + b, off)
  {
    OverwriteTwice(Content(fs0, i), off, a, b);
    assert OthersKept(fs0, gs, i) by {
      forall j | 0 <= j < |fs0.inodes| && j != i && NoHoles(fs0, j)
        ensures NoHoles(gs, j) && Content(gs, j) == Content(fs0, j)
      {
        assert NoHoles(fs, j) && Content(fs, j) == Content(fs0, j);
      }
    }
  }

  // ---- what a change logs ----

  /** sb.bmapstart and sb.inodestart. */
  datatype Layout = Layout(bmapstart: nat, inodestart: nat) {
    /** The block of the free map that holds bits 8 * k onwards. */
    function MapBlock(k: nat): nat {
      k / BSIZE + bmapstart
    }

    /** IBLOCK(i, sb) */
    function InodeBlock(i: nat): nat {
      i / IPB + inodestart
    }
  }

  /** All that differs between fs and gs is inode i and what lies in the blocks l. */
  ghost predicate Tracked(fs: Fs, gs: Fs, i: nat, lay: Layout, l: set<nat>) {
    && gs.size == fs.size && gs.nmeta == fs.nmeta
    && |gs.blocks| == |fs.blocks| && |gs.inodes| == |fs.inodes|
    && MapLogged(fs.bitmap, gs.bitmap, lay, l)
    && (forall b :: 0 <= b < |fs.blocks| && gs.blocks[b] != fs.blocks[b] ==> b in l)
    && forall j :: 0 <= j < |fs.inodes| && j != i ==> gs.inodes[j] == fs.inodes[j]
  }

  /** Every block of the disk whose contents a change of fs to gs affects is in l. */
  ghost predicate ChangesLogged(fs: Fs, gs: Fs, i: nat, lay: Layout, l: set<nat>) {
    && Tracked(fs, gs, i, lay, l)
    && (i < |fs.inodes| && gs.inodes[i] != fs.inodes[i] ==> lay.InodeBlock(i) in l)
  }

  /** The blocks of the free map that differ are in l. */
  ghost predicate MapLogged(was: seq<bv8>, now: seq<bv8>, lay: Layout, l: set<nat>) {
    |now| == |was| && forall k :: 0 <= k < |was| && now[k] != was[k] ==> lay.MapBlock(k) in l
  }

  lemma ClearLogged(was: seq<bv8>, now: seq<bv8>, b: nat, lay: Layout, l: set<nat>, m: set<nat>)
    requires MapLogged(was, now, lay, l) && b / 8 < |now| && l <= m && b / BPB + lay.bmapstart in m
    ensures MapLogged(was, ClearBit(now, b), lay, m)
  {
    assert b / 8 / BSIZE == b / BPB;
  }

  lemma TrackedNone(fs: Fs, i: nat, lay: Layout, l: set<nat>)
    ensures Tracked(fs, fs, i, lay, l)
  {
  }

  lemma TrackedTrans(fs: Fs, gs: Fs, hs: Fs, i: nat, lay: Layout, l: set<nat>, m: set<nat>)
    requires Tracked(fs, gs, i, lay, l) && Tracked(gs, hs, i, lay, m) && l <= m
    ensures Tracked(fs, hs, i, lay, m)
  {
  }

  /** balloc and the address in slot k log the block of the free map, the new block, and, for a word of the
      indirect block, that block. */
  lemma AllocTracked(fs: Fs, i: nat, k: nat, b: nat, lay: Layout, l: set<nat>)
    requires CanAlloc(fs, i, k, b) && b / BPB + lay.bmapstart in l && b in l
    requires k > NDIRECT ==> fs.inodes[i].addrs[NDIRECT] in l
    ensures Tracked(fs, Alloc(fs, i, k, b), i, lay, l)
  {
    assert b / 8 / BSIZE == b / BPB;
  }

  lemma PutTracked(fs: Fs, i: nat, b: nat, data: Block, lay: Layout, l: set<nat>)
    requires b < |fs.blocks| && b in l
    ensures Tracked(fs, PutBlock(fs, b, data), i, lay, l)
  {
  }

  /** The write has not come past the old end of the file, and then the inode is what it was; or it has. */
  ghost predicate Settled(fs0: Fs, fs: Fs, i: nat, end: nat) {
    i < |fs0.inodes| == |fs.inodes| && (fs.inodes[i] == fs0.inodes[i] || end > fs0.inodes[i].size)
  }

  /** The size update, and with it iupdate, comes if the inode has changed. */
  lemma SizeLogged(fs0: Fs, fs: Fs, i: nat, end: nat, lay: Layout, l: set<nat>, m: set<nat>)
    requires Tracked(fs0, fs, i, lay, l) && l <= m && Settled(fs0, fs, i, end)
    requires fs.inodes[i].size == fs0.inodes[i].size && (end > fs.inodes[i].size ==> lay.InodeBlock(i) in m)
    ensures ChangesLogged(fs0, SetSize(fs, i, EndSize(fs, i, end)), i, lay, m)
  {
  }

  // ---- readi ----

  /** The bytes readi copies out of one block are the next piece of the content. */
  lemma ReadPiece(fs: Fs, i: nat, at: nat, m: nat)
    requires Owned(fs) && i < |fs.inodes| && NoHoles(fs, i)
    requires at < at + m <= fs.inodes[i].size && at % BSIZE + m <= BSIZE
    ensures var b := Slot(fs, i, Place(at / BSIZE));
      b != 0 && b < |fs.blocks| && Content(fs, i)[at..at + m] == fs.blocks[b][at % BSIZE..at % BSIZE + m]
  {
    assert SlotOk(fs, i, Place(at / BSIZE));
    var b := Slot(fs, i, Place(at / BSIZE));
    forall q | at <= q < at + m
      ensures Content(fs, i)[q] == fs.blocks[b][at % BSIZE + (q - at)]
    {
      WrittenByte(at, m, q);
    }
  }

  // ---- itrunc ----

  /** The order in which itrunc frees the slots: direct ones, the words of the indirect block, the
      indirect block itself. */
  function Rank(k: nat): (r: nat)
    requires k < SLOTS
    ensures r < SLOTS
  {
    if k < NDIRECT then k else if k == NDIRECT then SLOTS - 1 else k - 1
  }

  /** Block c belongs to one of the slots of file i that itrunc has handled so far. */
  ghost predicate Handled(fs: Fs, i: nat, m: nat, c: nat)
    requires Shape(fs) && i < |fs.inodes|
  {
    exists k :: 0 <= k < SLOTS && Rank(k) < m && Slot(fs, i, k) == c
  }

  /** The free map while itrunc runs: exactly the handled blocks have been freed. */
  ghost predicate Freed(fs0: Fs, bitmap: seq<bv8>, i: nat, m: nat)
    requires Owned(fs0) && i < |fs0.inodes|
  {
    && |bitmap| == |fs0.bitmap|
    && forall c :: 0 <= c < fs0.size ==>
         (Bit(bitmap, c) <==> Bit(fs0.bitmap, c) && !(c != 0 && Handled(fs0, i, m, c)))
  }

  /** The next slot is empty, or its block is still marked in use: "freeing free block" cannot happen. */
  lemma StillInUse(fs0: Fs, bitmap: seq<bv8>, i: nat, k: nat)
    requires Owned(fs0) && i < |fs0.inodes| && k < SLOTS && Freed(fs0, bitmap, i, Rank(k))
    ensures var b := Slot(fs0, i, k);
      b != 0 ==> b < fs0.size && Bit(bitmap, b)
  {
    assert SlotOk(fs0, i, k);
  }

  lemma FreedNext(fs0: Fs, bitmap: seq<bv8>, i: nat, k: nat)
    requires Owned(fs0) && i < |fs0.inodes| && k < SLOTS && Freed(fs0, bitmap, i, Rank(k))
    ensures var b := Slot(fs0, i, k);
      b < fs0.size && Freed(fs0, if b == 0 then bitmap else ClearBit(bitmap, b), i, Rank(k) + 1)
  {
    var b := Slot(fs0, i, k);
    assert SlotOk(fs0, i, k);
    var next := if b == 0 then bitmap else ClearBit(bitmap, b);
    forall c | 0 <= c < fs0.size
      ensures Bit(next, c) <==> Bit(fs0.bitmap, c) && !(c != 0 && Handled(fs0, i, Rank(k) + 1, c))
    {
      if b != 0 {
        BitClear(bitmap, b, c);
      }
      if c != 0 {
        HandledNext(fs0, i, k, c);
      }
    }
  }

  lemma HandledNext(fs0: Fs, i: nat, k: nat, c: nat)
    requires Owned(fs0) && i < |fs0.inodes| && k < SLOTS && c != 0
    ensures Handled(fs0, i, Rank(k) + 1, c) <==> Handled(fs0, i, Rank(k), c) || Slot(fs0, i, k) == c
  {
    if Handled(fs0, i, Rank(k) + 1, c) {
      var l :| 0 <= l < SLOTS && Rank(l) < Rank(k) + 1 && Slot(fs0, i, l) == c;
      if Rank(l) == Rank(k) {
        assert l == k;
      }
    }
    if Slot(fs0, i, k) == c {
      assert Rank(k) < Rank(k) + 1;
    }
  }

  /** Without an indirect block the remaining slots are empty. */
  lemma FreedSkip(fs0: Fs, bitmap: seq<bv8>, i: nat)
    requires Owned(fs0) && i < |fs0.inodes| && fs0.inodes[i].addrs[NDIRECT] == 0 && Freed(fs0, bitmap, i, NDIRECT)
    ensures Freed(fs0, bitmap, i, SLOTS)
  {
    forall c | 0 < c < fs0.size
      ensures Handled(fs0, i, SLOTS, c) <==> Handled(fs0, i, NDIRECT, c)
    {
      if Handled(fs0, i, SLOTS, c) {
        var k :| 0 <= k < SLOTS && Rank(k) < SLOTS && Slot(fs0, i, k) == c;
        assert Rank(k) < NDIRECT;
      }
    }
  }

  lemma FreedMeta(fs0: Fs, bitmap: seq<bv8>, i: nat, b: nat)
    requires Owned(fs0) && i < |fs0.inodes| && Freed(fs0, bitmap, i, SLOTS) && b < fs0.nmeta
    ensures Bit(bitmap, b)
  {
    forall k | 0 <= k < SLOTS && b != 0
      ensures Slot(fs0, i, k) != b
    {
      assert SlotOk(fs0, i, k);
    }
  }

  function NoAddrs(): (a: seq<nat>)
    ensures |a| == NDIRECT + 1 && forall k :: 0 <= k < |a| ==> a[k] == 0
  {
    seq(NDIRECT + 1, k => 0)
  }

  /** The state itrunc leaves: the inode empty, and this free map. */
  function Truncated(fs0: Fs, bitmap: seq<bv8>, i: nat): Fs
    requires i < |fs0.inodes|
  {
    fs0.(bitmap := bitmap, inodes := fs0.inodes[i := fs0.inodes[i].(addrs := NoAddrs(), size := 0)])
  }

  lemma TruncSlots(fs0: Fs, bitmap: seq<bv8>, i: nat)
    requires Owned(fs0) && i < |fs0.inodes| && Freed(fs0, bitmap, i, SLOTS)
    ensures var gs := Truncated(fs0, bitmap, i);
      && Shape(gs)
      && forall j, l :: 0 <= j < |fs0.inodes| && 0 <= l < SLOTS ==>
           Slot(gs, j, l) == (if j == i then 0 else Slot(fs0, j, l)) && SlotOk(gs, j, l)
  {
    var gs := Truncated(fs0, bitmap, i);
    assert Shape(gs) by {
      forall j | 0 <= j < |gs.inodes|
        ensures AddrsOk(gs, gs.inodes[j])
      {
        assert AddrsOk(fs0, fs0.inodes[j]);
      }
    }
    forall j, l | 0 <= j < |fs0.inodes| && 0 <= l < SLOTS
      ensures Slot(gs, j, l) == (if j == i then 0 else Slot(fs0, j, l)) && SlotOk(gs, j, l)
    {
      assert SlotOk(fs0, j, l);
      if j != i && Slot(fs0, j, l) != 0 {
        assert !Handled(fs0, i, SLOTS, Slot(fs0, j, l));
      }
    }
  }

  /** Truncation frees exactly the blocks of that inode: ownership holds again, and other files are untouched. */
  lemma TruncOwned(fs0: Fs, bitmap: seq<bv8>, i: nat)
    requires Owned(fs0) && i < |fs0.inodes| && Freed(fs0, bitmap, i, SLOTS)
    ensures var gs := Truncated(fs0, bitmap, i);
      && Owned(gs) && NoHoles(gs, i) && Content(gs, i) == [] && OthersKept(fs0, gs, i)
  {
    var gs := Truncated(fs0, bitmap, i);
    TruncSlots(fs0, bitmap, i);
    assert Unshared(gs);
    forall b | 0 <= b < gs.nmeta
      ensures Bit(gs.bitmap, b)
    {
      FreedMeta(fs0, bitmap, i, b);
    }
    forall c | gs.nmeta <= c < gs.size && Bit(gs.bitmap, c)
      ensures HasOwner(gs, c)
    {
      assert HasOwner(fs0, c);
      var j, l :| 0 <= j < |fs0.inodes| && 0 <= l < SLOTS && Slot(fs0, j, l) == c;
      assert Slot(gs, j, l) == c;
    }
    forall j | 0 <= j < |fs0.inodes| && j != i && NoHoles(fs0, j)
      ensures NoHoles(gs, j) && Content(gs, j) == Content(fs0, j)
    {
      assert SameData(fs0, gs, j);
      SameDataContent(fs0, gs, j);
    }
  }
}
