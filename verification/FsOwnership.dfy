/**
 Who owns which block.  Slot k of an inode is its k-th direct address for k < 12, the address of its
 indirect block for k == 12, and word k - 13 of the indirect block above that.
 */
module FsOwnership {
  import opened Common
  import opened FsModel

  const SLOTS: nat := 141

  ghost predicate Shape(fs: Fs) {
    && 0 < fs.nmeta <= fs.size < 0x8000_0000
    && |fs.blocks| == fs.size <= 8 * |fs.bitmap|
    && forall i :: 0 <= i < |fs.inodes| ==> AddrsOk(fs, fs.inodes[i])
  }

  ghost predicate AddrsOk(fs: Fs, ip: Inode) {
    |ip.addrs| == NDIRECT + 1 && forall k :: 0 <= k < |ip.addrs| ==> ip.addrs[k] < fs.size
  }

  function Slot(fs: Fs, i: nat, k: nat): nat
    requires i < |fs.inodes| && k < SLOTS
    requires |fs.inodes[i].addrs| == NDIRECT + 1 && fs.inodes[i].addrs[NDIRECT] < |fs.blocks|
  {
    var addrs := fs.inodes[i].addrs;
    if k <= NDIRECT then addrs[k]
    else if addrs[NDIRECT] == 0 then 0
    else WordAt(fs.blocks[addrs[NDIRECT]], k - NDIRECT - 1)
  }

  /** b may be handed out: a data block whose bit is clear. */
  ghost predicate Free(fs: Fs, b: nat)
    requires Shape(fs)
  {
    fs.nmeta <= b < fs.size && !Bit(fs.bitmap, b)
  }

  ghost predicate SlotOk(fs: Fs, i: nat, k: nat)
    requires Shape(fs) && i < |fs.inodes| && k < SLOTS
  {
    var b := Slot(fs, i, k);
    b == 0 || (fs.nmeta <= b < fs.size && Bit(fs.bitmap, b))
  }

  ghost predicate HasOwner(fs: Fs, b: nat)
    requires Shape(fs)
  {
    exists i, k :: 0 <= i < |fs.inodes| && 0 <= k < SLOTS && Slot(fs, i, k) == b
  }

  ghost predicate Unshared(fs: Fs)
    requires Shape(fs)
  {
    forall i, k, j, l {:trigger Slot(fs, i, k), Slot(fs, j, l)} ::
      0 <= i < |fs.inodes| && 0 <= k < SLOTS && 0 <= j < |fs.inodes| && 0 <= l < SLOTS ==>
      Slot(fs, i, k) == Slot(fs, j, l) != 0 ==> i == j && k == l
  }

  /**
   Block ownership: a bit of the free map is set iff the block is metadata or occurs in a slot of some
   inode, and then it occurs in exactly one.
   */
  ghost predicate Owned(fs: Fs) {
    && Shape(fs)
    && (forall i, k :: 0 <= i < |fs.inodes| && 0 <= k < SLOTS ==> SlotOk(fs, i, k))
    && Unshared(fs)
    && (forall b :: fs.nmeta <= b < fs.size && Bit(fs.bitmap, b) ==> HasOwner(fs, b))
    && forall b :: 0 <= b < fs.nmeta ==> Bit(fs.bitmap, b)
  }

  // ---- balloc + storing the address in a slot ----

  /** balloc: the bit is set and the block zeroed. */
  function Take(fs: Fs, b: nat): Fs
    requires b / 8 < |fs.bitmap| && b < |fs.blocks|
  {
    fs.(bitmap := SetBit(fs.bitmap, b), blocks := fs.blocks[b := Zero()])
  }

  function PutSlot(fs: Fs, i: nat, k: nat, b: nat): Fs
    requires i < |fs.inodes| && k < SLOTS && |fs.inodes[i].addrs| == NDIRECT + 1
    requires fs.inodes[i].addrs[NDIRECT] < |fs.blocks| && b < 0x1_0000_0000
  {
    var ip := fs.inodes[i];
    if k <= NDIRECT then fs.(inodes := fs.inodes[i := ip.(addrs := ip.addrs[k := b])])
    else
      var t := ip.addrs[NDIRECT];
      fs.(blocks := fs.blocks[t := SetWord(fs.blocks[t], k - NDIRECT - 1, b)])
  }

  /** What bmap does for one missing slot: take b from the free map and store it in slot k of inode i. */
  function Alloc(fs: Fs, i: nat, k: nat, b: nat): Fs
    requires b / 8 < |fs.bitmap| && b < |fs.blocks|
    requires i < |fs.inodes| && k < SLOTS && |fs.inodes[i].addrs| == NDIRECT + 1
    requires fs.inodes[i].addrs[NDIRECT] < |fs.blocks| && b < 0x1_0000_0000
  {
    PutSlot(Take(fs, b), i, k, b)
  }

  ghost predicate CanAlloc(fs: Fs, i: nat, k: nat, b: nat) {
    && Owned(fs) && i < |fs.inodes| && k < SLOTS
    && Free(fs, b) && Slot(fs, i, k) == 0
    && (k > NDIRECT ==> fs.inodes[i].addrs[NDIRECT] != 0)
  }

  lemma FreeInNoSlot(fs: Fs, b: nat, j: nat, l: nat)
    requires Owned(fs) && Free(fs, b) && j < |fs.inodes| && l < SLOTS
    ensures Slot(fs, j, l) != b
  {
    assert SlotOk(fs, j, l);
  }

  lemma AllocShape(fs: Fs, i: nat, k: nat, b: nat)
    requires CanAlloc(fs, i, k, b)
    ensures Shape(Alloc(fs, i, k, b))
  {
    var gs := Alloc(fs, i, k, b);
    forall j | 0 <= j < |gs.inodes|
      ensures AddrsOk(gs, gs.inodes[j])
    {
      assert AddrsOk(fs, fs.inodes[j]);
    }
  }

  /** Alloc sets slot (i, k) to b and changes no other slot of any inode. */
  lemma AllocSlot(fs: Fs, i: nat, k: nat, b: nat, j: nat, l: nat)
    requires CanAlloc(fs, i, k, b) && Shape(Alloc(fs, i, k, b)) && j < |fs.inodes| && l < SLOTS
    ensures Slot(Alloc(fs, i, k, b), j, l) == if j == i && l == k then b else Slot(fs, j, l)
  {
    FreeInNoSlot(fs, b, j, NDIRECT);
    if l > NDIRECT {
      var t := fs.inodes[j].addrs[NDIRECT];
      if k > NDIRECT {
        var u := fs.inodes[i].addrs[NDIRECT];
        FreeInNoSlot(fs, b, i, NDIRECT);
        WordSet(fs.blocks[u], k - NDIRECT - 1, b, l - NDIRECT - 1);
        assert t == u != 0 ==> Slot(fs, i, NDIRECT) == Slot(fs, j, NDIRECT);
      } else if j == i && k == NDIRECT {
        WordOfZero(l - NDIRECT - 1);
      }
    }
  }

  lemma AllocBit(fs: Fs, i: nat, k: nat, b: nat, c: nat)
    requires CanAlloc(fs, i, k, b) && c < fs.size
    ensures Bit(Alloc(fs, i, k, b).bitmap, c) <==> b == c || Bit(fs.bitmap, c)
  {
    BitSet(fs.bitmap, b, c);
  }

  lemma AllocUnshared(fs: Fs, gs: Fs, i: nat, k: nat, b: nat)
    requires CanAlloc(fs, i, k, b) && Shape(gs) && |gs.inodes| == |fs.inodes|
    requires forall j, l :: 0 <= j < |fs.inodes| && 0 <= l < SLOTS ==>
               Slot(gs, j, l) == if j == i && l == k then b else Slot(fs, j, l)
    ensures Unshared(gs)
  {
    forall j, l, m, n | 0 <= j < |fs.inodes| && 0 <= l < SLOTS && 0 <= m < |fs.inodes| && 0 <= n < SLOTS
                        && Slot(gs, j, l) == Slot(gs, m, n) != 0
      ensures j == m && l == n
    {
      FreeInNoSlot(fs, b, j, l);
      FreeInNoSlot(fs, b, m, n);
    }
  }

  lemma AllocOwned(fs: Fs, i: nat, k: nat, b: nat)
    requires CanAlloc(fs, i, k, b)
    ensures Owned(Alloc(fs, i, k, b))
  {
    var gs := Alloc(fs, i, k, b);
    AllocShape(fs, i, k, b);
    forall j, l | 0 <= j < |fs.inodes| && 0 <= l < SLOTS
      ensures Slot(gs, j, l) == if j == i && l == k then b else Slot(fs, j, l)
    {
      AllocSlot(fs, i, k, b, j, l);
    }
    AllocUnshared(fs, gs, i, k, b);
    forall c | 0 <= c < fs.size
      ensures Bit(gs.bitmap, c) <==> b == c || Bit(fs.bitmap, c)
    {
      AllocBit(fs, i, k, b, c);
    }
    forall j, l | 0 <= j < |gs.inodes| && 0 <= l < SLOTS
      ensures SlotOk(gs, j, l)
    {
      assert SlotOk(fs, j, l);
    }
    forall c | gs.nmeta <= c < gs.size && Bit(gs.bitmap, c)
      ensures HasOwner(gs, c)
    {
      if c == b {
        assert Slot(gs, i, k) == b;
      } else {
        assert HasOwner(fs, c);
        var j, l :| 0 <= j < |fs.inodes| && 0 <= l < SLOTS && Slot(fs, j, l) == c;
        assert Slot(gs, j, l) == c;
      }
    }
  }

  // ---- data blocks ----

  /** The slot of the bn-th block of a file. */
  function Place(bn: nat): (k: nat)
    requires bn < MAXFILE
    ensures k < SLOTS && k != NDIRECT
  {
    if bn < NDIRECT then bn else bn + 1
  }

  /** Every block below the size is there. */
  ghost predicate NoHoles(fs: Fs, i: nat)
    requires Shape(fs) && i < |fs.inodes|
  {
    && fs.inodes[i].size <= MAXFILE * BSIZE
    && forall p :: 0 <= p < fs.inodes[i].size ==> Slot(fs, i, Place(p / BSIZE)) != 0
  }

  /** The contents of block b; addresses a file system in order holds are never out of range. */
  function BlockAt(fs: Fs, b: nat): Block {
    if b < |fs.blocks| then fs.blocks[b] else Zero()
  }

  /** Byte p of file i. */
  function Byte(fs: Fs, i: nat, p: nat): byte
    requires i < |fs.inodes| && p < MAXFILE * BSIZE
    requires |fs.inodes[i].addrs| == NDIRECT + 1 && fs.inodes[i].addrs[NDIRECT] < |fs.blocks|
  {
    BlockAt(fs, Slot(fs, i, Place(p / BSIZE)))[p % BSIZE]
  }

  ghost function Content(fs: Fs, i: nat): (c: seq<byte>)
    requires Owned(fs) && i < |fs.inodes| && fs.inodes[i].size <= MAXFILE * BSIZE
    ensures |c| == fs.inodes[i].size
  {
    seq(fs.inodes[i].size, p requires 0 <= p < fs.inodes[i].size => Byte(fs, i, p))
  }

  /** Nothing but allocation happened between fs and gs, for the data of inode j. */
  ghost predicate SameData(fs: Fs, gs: Fs, j: nat)
    requires Owned(fs) && Owned(gs) && |fs.inodes| == |gs.inodes| && j < |fs.inodes|
  {
    && gs.inodes[j].size == fs.inodes[j].size && gs.inodes[j].kind == fs.inodes[j].kind
    && forall k :: 0 <= k < SLOTS && Slot(fs, j, k) != 0 ==>
         Slot(gs, j, k) == Slot(fs, j, k)
         && (k != NDIRECT ==> BlockAt(gs, Slot(gs, j, k)) == BlockAt(fs, Slot(fs, j, k)))
  }

  /** The state only grew by allocation: every file keeps its blocks and their bytes. */
  ghost predicate Grown(fs: Fs, gs: Fs) {
    && Owned(fs) && Owned(gs)
    && fs.size == gs.size && fs.nmeta == gs.nmeta && |fs.inodes| == |gs.inodes|
    && |fs.bitmap| == |gs.bitmap|
    && forall j :: 0 <= j < |fs.inodes| ==> SameData(fs, gs, j)
  }

  lemma AllocGrown(fs: Fs, i: nat, k: nat, b: nat)
    requires CanAlloc(fs, i, k, b)
    ensures Grown(fs, Alloc(fs, i, k, b))
  {
    var gs := Alloc(fs, i, k, b);
    AllocOwned(fs, i, k, b);
    forall j | 0 <= j < |fs.inodes|
      ensures SameData(fs, gs, j)
    {
      forall l | 0 <= l < SLOTS && Slot(fs, j, l) != 0
        ensures Slot(gs, j, l) == Slot(fs, j, l)
        ensures l != NDIRECT ==> BlockAt(gs, Slot(gs, j, l)) == BlockAt(fs, Slot(fs, j, l))
      {
        AllocSlot(fs, i, k, b, j, l);
        FreeInNoSlot(fs, b, j, l);
        if k > NDIRECT && l != NDIRECT {
          assert Slot(fs, i, NDIRECT) != Slot(fs, j, l);
        }
      }
    }
  }

  lemma GrownTrans(fs: Fs, gs: Fs, hs: Fs)
    requires Grown(fs, gs) && Grown(gs, hs)
    ensures Grown(fs, hs)
  {
    forall j | 0 <= j < |fs.inodes|
      ensures SameData(fs, hs, j)
    {
      assert SameData(fs, gs, j) && SameData(gs, hs, j);
    }
  }

  /** Allocation changes no file's content. */
  lemma GrownContent(fs: Fs, gs: Fs, j: nat)
    requires Grown(fs, gs) && j < |fs.inodes| && NoHoles(fs, j)
    ensures NoHoles(gs, j) && Content(gs, j) == Content(fs, j)
  {
    assert SameData(fs, gs, j);
  }
}
