/**
 fs.c and file.c as the source writes them: the block allocator, bmap, itrunc, readi, writei and
 filewrite change the free map, the blocks and the inodes step by step.  A panic is an out-parameter.
 `logged` holds the block numbers passed to log_write since begin_op.
 */
module FileSystem {
  import opened Common
  import opened Params
  import opened FsModel
  import opened FsOwnership
  import opened FsWrite

  const WRITEMAX: nat := 1536     // ((MAXOPBLOCKS-1-1-2) / 2) * 512

  // ---- log blocks of one write ----

  /** The data blocks of file i for block positions lo to hi. */
  ghost function DataBlocks(fs: Fs, i: nat, lo: nat, hi: nat): (s: set<nat>)
    requires Owned(fs) && i < |fs.inodes| && lo <= hi <= MAXFILE
    ensures |s| <= hi - lo
    decreases hi
  {
    if lo == hi then {} else DataBlocks(fs, i, lo, hi - 1) + {Slot(fs, i, Place(hi - 1))}
  }

  ghost function Indirect(fs: Fs, i: nat): (s: set<nat>)
    requires Owned(fs) && i < |fs.inodes|
    ensures |s| <= 1
  {
    if Slot(fs, i, NDIRECT) == 0 then {} else {Slot(fs, i, NDIRECT)}
  }

  /** Slots in use between positions lo and hi, and an indirect block in use, stay what they are. */
  lemma {:induction false} LoggedStays(fs: Fs, gs: Fs, i: nat, lo: nat, hi: nat)
    requires Owned(fs) && Owned(gs) && i < |fs.inodes| == |gs.inodes| && lo <= hi <= MAXFILE
    requires forall l :: 0 <= l < SLOTS && Slot(fs, i, l) != 0 ==> Slot(gs, i, l) == Slot(fs, i, l)
    requires forall bn :: lo <= bn < hi ==> Slot(fs, i, Place(bn)) != 0
    ensures DataBlocks(gs, i, lo, hi) == DataBlocks(fs, i, lo, hi)
    ensures Indirect(fs, i) <= Indirect(gs, i)
    decreases hi
  {
    if lo < hi {
      LoggedStays(fs, gs, i, lo, hi - 1);
    }
  }

  /** First block position not touched by bytes [off, off + n). */
  function Above(off: nat, n: nat): nat
    requires off + n <= MAXBYTES
  {
    if n == 0 then off / BSIZE else (off + n - 1) / BSIZE + 1
  }

  /** Block numbers a write of bytes [off, off + n) may log, when one block (bmap) holds the free map. */
  ghost function WriteSet(fs: Fs, bmap: nat, i: nat, off: nat, n: nat): (s: set<nat>)
    requires Owned(fs) && i < |fs.inodes| && off + n <= MAXBYTES
    ensures |s| <= Above(off, n) - off / BSIZE + 2
  {
    DataBlocks(fs, i, off / BSIZE, Above(off, n)) + Indirect(fs, i) + {bmap}
  }

  lemma AboveNext(off: nat, tot: nat, m: nat)
    requires 0 < m && (off + tot) % BSIZE + m <= BSIZE && off + tot + m <= MAXBYTES
    ensures Above(off, tot + m) == (off + tot) / BSIZE + 1
    ensures Above(off, tot) == Above(off, tot + m) || Above(off, tot) + 1 == Above(off, tot + m)
    ensures off / BSIZE <= Above(off, tot)
  {
  }

  lemma AllThere(fs0: Fs, fs: Fs, i: nat, src: seq<byte>, off0: nat, off: nat)
    requires Written(fs0, fs, i, src, off0, off)
    ensures forall bn :: off0 / BSIZE <= bn < Above(off0, off - off0) ==> Slot(fs, i, Place(bn)) != 0
  {
    forall bn | off0 / BSIZE <= bn < Above(off0, off - off0)
      ensures Slot(fs, i, Place(bn)) != 0
    {
      var p := if bn == off0 / BSIZE then off0 else bn * BSIZE;
      assert off0 <= p < off && p / BSIZE == bn;
    }
  }

  /** What has been logged so far stays within the bound as the next block is written. */
  lemma WriteSetNext(fs0: Fs, fs: Fs, gs: Fs, bmap: nat, i: nat, src: seq<byte>, off: nat, tot: nat, m: nat)
    requires Written(fs0, fs, i, src, off, off + tot) && Owned(gs) && |fs.inodes| == |gs.inodes|
    requires forall l :: 0 <= l < SLOTS && Slot(fs, i, l) != 0 ==> Slot(gs, i, l) == Slot(fs, i, l)
    requires 0 < m && (off + tot) % BSIZE + m <= BSIZE && off + tot + m <= MAXBYTES
    ensures WriteSet(fs, bmap, i, off, tot) + {Slot(gs, i, Place((off + tot) / BSIZE)), bmap} + Indirect(gs, i)
            <= WriteSet(gs, bmap, i, off, tot + m)
  {
    AboveNext(off, tot, m);
    AllThere(fs0, fs, i, src, off, off + tot);
    LoggedStays(fs, gs, i, off / BSIZE, Above(off, tot));
    OneMore(gs, i, off / BSIZE, Above(off, tot), (off + tot) / BSIZE);
  }

  lemma OneMore(fs: Fs, i: nat, lo: nat, hi: nat, bn: nat)
    requires Owned(fs) && i < |fs.inodes| && lo <= hi && lo <= bn < MAXFILE && (hi == bn || hi == bn + 1)
    ensures DataBlocks(fs, i, lo, hi) + {Slot(fs, i, Place(bn))} <= DataBlocks(fs, i, lo, bn + 1)
  {
  }

  lemma WriteSetSize(fs0: Fs, fs: Fs, bmap: nat, i: nat, src: seq<byte>, off: nat)
    requires Written(fs0, fs, i, src, off, off + |src|)
    ensures var gs := SetSize(fs, i, EndSize(fs, i, off + |src|));
      Owned(gs) && WriteSet(fs, bmap, i, off, |src|) <= WriteSet(gs, bmap, i, off, |src|)
  {
    var size := EndSize(fs, i, off + |src|);
    SetSizeOwned(fs, i, size);
    AllThere(fs0, fs, i, src, off, off + |src|);
    LoggedStays(fs, SetSize(fs, i, size), i, off / BSIZE, Above(off, |src|));
  }

  lemma FinishWrite(fs0: Fs, fs: Fs, bmap: nat, i: nat, src: seq<byte>, off: nat)
    requires NoHoles0(fs0, i) && off <= fs0.inodes[i].size && Written(fs0, fs, i, src, off, off + |src|)
    ensures var gs := SetSize(fs, i, EndSize(fs, i, off + |src|));
      && WriteDone(fs0, gs, i, src, off)
      && WriteSet(fs, bmap, i, off, |src|) <= WriteSet(gs, bmap, i, off, |src|)
  {
    WriteSetSize(fs0, fs, bmap, i, src, off);
    WrittenAll(fs0, fs, i, src, off);
  }

  /** What one call of filewrite gets onto the disk before a chunk does not fit the largest file. */
  function Fit(off: nat, n: nat): (w: nat)
    ensures w <= n
    decreases n
  {
    if n == 0 then 0
    else
      var n1 := Min(n, WRITEMAX);
      if off + n1 > MAXBYTES then 0 else n1 + Fit(off + n1, n - n1)
  }

  /** filewrite writes everything iff everything fits the largest file. */
  lemma {:induction false} FitAll(off: nat, n: nat)
    ensures Fit(off, n) == n <==> n == 0 || off + n <= MAXBYTES
    decreases n
  {
    if n > 0 {
      var n1 := Min(n, WRITEMAX);
      FitAll(off + n1, n - n1);
    }
  }

  /** Bit bi of the bitmap block for blocks b onwards, b a multiple of BPB, is bit b + bi of the whole map. */
  lemma ByteOf(b: nat, bi: nat)
    requires b % BPB == 0
    ensures (b + bi) / 8 == b / 8 + bi / 8 == b / BPB * (BPB / 8) + bi / 8
    ensures (b + bi) % 8 == bi % 8
  {
  }

  ghost predicate NoHoles0(fs: Fs, i: nat) {
    Owned(fs) && i < |fs.inodes| && NoHoles(fs, i)
  }

  /** At most 1536 bytes, wherever they start, touch at most four blocks. */
  lemma ChunkBlocks(off: nat, n: nat)
    requires n <= WRITEMAX && off + n <= MAXBYTES
    ensures off / BSIZE <= Above(off, n) <= off / BSIZE + 4
  {
  }

  lemma SmallSet(a: set<nat>, b: set<nat>)
    requires a <= b
    ensures |a| <= |b|
  {
    assert b == a + (b - a);
  }

  lemma AtMostSeven(fs: Fs, bmap: nat, i: nat, off: nat, n: nat, iblock: nat, logged: set<nat>)
    requires Owned(fs) && i < |fs.inodes| && n <= WRITEMAX && off + n <= MAXBYTES
    requires logged <= WriteSet(fs, bmap, i, off, n) + {iblock}
    ensures |logged| <= 7
  {
    ChunkBlocks(off, n);
    SmallSet(logged, WriteSet(fs, bmap, i, off, n) + {iblock});
  }

  class FileSystem {
    // superblock
    const size: nat
    const nmeta: nat
    const bmapstart: nat
    const inodestart: nat
    // free map, block contents, inodes (write-through cache)
    var bitmap: seq<bv8>
    var blocks: seq<Block>
    var inodes: seq<Inode>
    ghost var logged: set<nat>
    // what each finished operation has logged
    ghost var ops: seq<set<nat>>

    function State(): Fs
      reads this
    {
      Fs(size, nmeta, bitmap, blocks, inodes)
    }

    /** BBLOCK(b, sb) */
    function BBlock(b: nat): nat {
      b / BPB + bmapstart
    }

    /** IBLOCK(i, sb) */
    function IBlock(i: nat): nat {
      Lay().InodeBlock(i)
    }

    function Lay(): Layout {
      Layout(bmapstart, inodestart)
    }

    /** The layout of mkfs: inodes and free map lie before the data. */
    ghost predicate Mapped(ninodes: nat) {
      inodestart <= bmapstart && bmapstart + size / BPB < nmeta <= size && inodestart + ninodes / IPB < size
    }

    /** Only blocks of the file system's own part of the disk are in l. */
    ghost predicate Inside(l: set<nat>) {
      forall b :: b in l ==> inodestart <= b < size
    }

    lemma InsideData(l: set<nat>, b: nat, n: nat)
      requires nmeta <= b < size
      ensures Mapped(n) && Inside(l) ==> Inside(l + {b}) && Inside(l + {BBlock(b), b})
    {
    }

    lemma InsideInode(l: set<nat>, m: set<nat>, i: nat, n: nat)
      requires i < n && m <= l + {IBlock(i)}
      ensures Mapped(n) && Inside(l) ==> Inside(m)
    {
    }

    /** readi, writei, itrunc on a file system put together elsewhere. */
    constructor (fs: Fs, bmapstart: nat, inodestart: nat)
      ensures State() == fs && this.bmapstart == bmapstart && this.inodestart == inodestart && logged == {}
    {
      size, nmeta, bitmap, blocks, inodes := fs.size, fs.nmeta, fs.bitmap, fs.blocks, fs.inodes;
      this.bmapstart, this.inodestart := bmapstart, inodestart;
      logged, ops := {}, [];
    }

    /** balloc: the first free block, marked in use and zeroed; panics iff there is none. */
    method Balloc() returns (r: nat, panic: bool)
      requires Owned(State())
      modifies this`bitmap, this`blocks, this`logged
      ensures panic ==> State() == old(State()) && logged == old(logged) && forall c :: !Free(State(), c)
      ensures !panic ==> Free(old(State()), r) && forall c :: 0 <= c < r ==> !Free(old(State()), c)
      ensures !panic ==> State() == Take(old(State()), r) && logged == old(logged) + {BBlock(r), r}
    {
      hide Unshared, SlotOk, HasOwner, Slot, AddrsOk, Zero;
      var b := 0;
      while b < size
        invariant b % BPB == 0
        invariant State() == old(State()) && logged == old(logged)
        invariant forall c :: 0 <= c < Min(b, size) ==> Bit(bitmap, c)
      {
        var bi := 0;
        while bi < BPB && b + bi < size
          invariant 0 <= bi <= BPB
          invariant State() == old(State()) && logged == old(logged)
          invariant forall c :: 0 <= c < Min(b + bi, size) ==> Bit(bitmap, c)
        {
          ByteOf(b, bi);
          if !HasBit(bitmap[b / 8 + bi / 8], bi % 8) {
            assert !Bit(State().bitmap, b + bi);
            assert Free(State(), b + bi);
            bitmap := bitmap[b / 8 + bi / 8 := With(bitmap[b / 8 + bi / 8], bi % 8)];
            blocks := blocks[b + bi := Zero()];
            logged := logged + {BBlock(b + bi), b + bi};
            return b + bi, false;
          }
          bi := bi + 1;
        }
        b := b + BPB;
      }
      r, panic := 0, true;
    }

    /** bfree of a block in use: its bit is cleared. */
    method Bfree(b: nat) returns (panic: bool)
      requires b < size <= 8 * |bitmap|
      modifies this`bitmap, this`logged
      ensures panic <==> !Bit(old(bitmap), b)
      ensures panic ==> bitmap == old(bitmap)
      ensures !panic ==> bitmap == ClearBit(old(bitmap), b) && logged == old(logged) + {BBlock(b)}
    {
      var bi := b % BPB;
      ByteOf(b / BPB * BPB, bi);
      var at := b / BPB * (BPB / 8) + bi / 8;
      if !HasBit(bitmap[at], bi % 8) {
        return true;
      }
      bitmap := bitmap[at := Without(bitmap[at], bi % 8)];
      logged := logged + {BBlock(b)};
      panic := false;
    }

    /** balloc for slot k of inode i, with the address stored there. */
    method AllocFor(i: nat, k: nat) returns (addr: nat, panic: bool)
      requires Owned(State()) && i < |inodes| && k < SLOTS && Slot(State(), i, k) == 0
      requires k > NDIRECT ==> inodes[i].addrs[NDIRECT] != 0
      modifies this`bitmap, this`blocks, this`inodes, this`logged
      ensures Owned(State()) && Grown(old(State()), State())
      ensures panic ==> State() == old(State()) && logged == old(logged) && forall c :: !Free(State(), c)
      ensures !panic ==> 0 < addr < size && Slot(State(), i, k) == addr
      ensures !panic ==> forall l :: 0 <= l < SLOTS && l != k ==> Slot(State(), i, l) == Slot(old(State()), i, l)
      ensures !panic ==> logged == old(logged) + {BBlock(addr), addr}
      ensures !panic && Mapped(|inodes|) && Inside(old(logged)) ==> Inside(logged)
      ensures Tracked(old(State()), State(), i, Lay(),
                      logged + if k > NDIRECT then {old(inodes[i].addrs[NDIRECT])} else {})
    {
      hide Tracked, Inside, Mapped;
      ghost var fs := State();
      ghost var extra := if k > NDIRECT then {inodes[i].addrs[NDIRECT]} else {};
      addr, panic := Balloc();
      if !panic {
        var ip := inodes[i];
        if k <= NDIRECT {
          inodes := inodes[i := ip.(addrs := ip.addrs[k := addr])];
        } else {
          var t := ip.addrs[NDIRECT];
          blocks := blocks[t := SetWord(blocks[t], k - NDIRECT - 1, addr)];
        }
        assert CanAlloc(fs, i, k, addr) && State() == Alloc(fs, i, k, addr);
        AllocTracked(fs, i, k, addr, Lay(), logged + extra);
        InsideData(old(logged), addr, |inodes|);
        AllocOwned(fs, i, k, addr);
        AllocGrown(fs, i, k, addr);
        forall l | 0 <= l < SLOTS
          ensures Slot(State(), i, l) == if l == k then addr else Slot(fs, i, l)
        {
          AllocSlot(fs, i, k, addr, i, l);
        }
      } else {
        GrownRefl(fs);
        TrackedNone(fs, i, Lay(), logged + extra);
      }
    }

    lemma GrownRefl(fs: Fs)
      requires Owned(fs)
      ensures Grown(fs, fs)
    {
    }

    /** The indirect block of file i, allocated if it is missing. */
    method Table(i: nat) returns (table: nat, panic: bool)
      requires Owned(State()) && i < |inodes|
      modifies this`bitmap, this`blocks, this`inodes, this`logged
      ensures Owned(State()) && Grown(old(State()), State())
      ensures panic ==> forall c :: !Free(State(), c)
      ensures |inodes| == old(|inodes|) && (!panic ==> 0 < table < size && inodes[i].addrs[NDIRECT] == table)
      ensures old(inodes[i].addrs[NDIRECT]) != 0 ==> !panic && State() == old(State()) && logged == old(logged)
      ensures !panic && size <= BPB ==> logged <= old(logged) + {table, bmapstart}
      ensures !panic ==> old(logged) <= logged && Tracked(old(State()), State(), i, Lay(), logged)
      ensures !panic && Mapped(|inodes|) && Inside(old(logged)) ==> Inside(logged)
    {
      hide Tracked;
      ghost var fs := State();
      GrownRefl(fs);
      TrackedNone(fs, i, Lay(), logged);
      table, panic := inodes[i].addrs[NDIRECT], false;
      assert table == Slot(fs, i, NDIRECT) < size;
      if table == 0 {
        table, panic := AllocFor(i, NDIRECT);
        assert logged + {} == logged;
      }
    }

    /** A word of the indirect block, and the block it names, allocated if it is missing. */
    method Word(i: nat, bn: nat, table: nat) returns (addr: nat, panic: bool)
      requires Owned(State()) && i < |inodes| && NDIRECT <= bn < MAXFILE && inodes[i].addrs[NDIRECT] == table != 0
      modifies this`bitmap, this`blocks, this`inodes, this`logged
      ensures Owned(State()) && Grown(old(State()), State())
      ensures panic ==> forall c :: !Free(State(), c)
      ensures !panic ==> addr != 0 && addr == Slot(State(), i, Place(bn)) && table == Slot(State(), i, NDIRECT)
      ensures Slot(old(State()), i, Place(bn)) != 0 ==> !panic && State() == old(State()) && logged == old(logged)
      ensures !panic && size <= BPB ==> logged <= old(logged) + {addr, bmapstart, table}
      ensures !panic ==> old(logged) <= logged && Tracked(old(State()), State(), i, Lay(), logged)
      ensures !panic && Mapped(|inodes|) && Inside(old(logged)) ==> Inside(logged)
    {
      hide Tracked, Inside, Mapped, Grown;
      ghost var fs := State();
      GrownRefl(fs);
      TrackedNone(fs, i, Lay(), logged);
      assert table == Slot(fs, i, NDIRECT);
      addr := WordAt(blocks[table], bn - NDIRECT);
      assert addr == Slot(fs, i, bn + 1);
      assert SlotOk(fs, i, NDIRECT);
      panic := false;
      if addr == 0 {
        addr, panic := AllocFor(i, bn + 1);
        if !panic {
          InsideData(logged, table, |inodes|);
          logged := logged + {table};
        }
      }
    }

    /** bmap's second half: the indirect block, allocated if it is missing, then its word. */
    method BmapIndirect(i: nat, bn: nat) returns (addr: nat, panic: bool)
      requires Owned(State()) && i < |inodes| && NDIRECT <= bn < MAXFILE
      modifies this`bitmap, this`blocks, this`inodes, this`logged
      ensures Owned(State()) && Grown(old(State()), State())
      ensures panic ==> forall c :: !Free(State(), c)
      ensures !panic ==> addr != 0 && addr == Slot(State(), i, Place(bn))
      ensures Slot(old(State()), i, Place(bn)) != 0 ==> !panic && State() == old(State()) && logged == old(logged)
      ensures !panic && size <= BPB ==> logged <= old(logged) + {addr, bmapstart} + Indirect(State(), i)
      ensures !panic ==> old(logged) <= logged && Tracked(old(State()), State(), i, Lay(), logged)
      ensures !panic && Mapped(|inodes|) && Inside(old(logged)) ==> Inside(logged)
    {
      hide Tracked, Inside, Mapped, Grown;
      ghost var fs := State();
      var table;
      table, panic := Table(i);
      if panic {
        return 0, true;
      }
      ghost var gs, l := State(), logged;
      addr, panic := Word(i, bn, table);
      GrownTrans(fs, gs, State());
      if !panic {
        TrackedTrans(fs, gs, State(), i, Lay(), l, logged);
      }
    }

    /** bmap: the block for position bn of file i, allocated if it is missing. */
    method Bmap(i: nat, bn: nat) returns (addr: nat, panic: bool)
      requires Owned(State()) && i < |inodes|
      modifies this`bitmap, this`blocks, this`inodes, this`logged
      ensures Owned(State()) && Grown(old(State()), State())
      ensures panic ==> bn >= MAXFILE || forall c :: !Free(State(), c)
      ensures !panic ==> bn < MAXFILE && addr != 0 && addr == Slot(State(), i, Place(bn))
      ensures bn < MAXFILE && Slot(old(State()), i, Place(bn)) != 0 ==>
                !panic && State() == old(State()) && logged == old(logged)
      ensures !panic && size <= BPB ==> logged <= old(logged) + {addr, bmapstart} + Indirect(State(), i)
      ensures !panic ==> old(logged) <= logged && Tracked(old(State()), State(), i, Lay(), logged)
      ensures !panic && Mapped(|inodes|) && Inside(old(logged)) ==> Inside(logged)
    {
      hide Tracked;
      ghost var fs := State();
      GrownRefl(fs);
      TrackedNone(fs, i, Lay(), logged);
      if bn < NDIRECT {
        addr := inodes[i].addrs[bn];
        panic := false;
        if addr == 0 {
          addr, panic := AllocFor(i, bn);
          assert logged + {} == logged;
        }
        return;
      }
      if bn - NDIRECT < NINDIRECT {
        addr, panic := BmapIndirect(i, bn);
        return;
      }
      addr, panic := 0, true;
    }

    /** itrunc: frees every block of file i, exactly once each, and leaves it empty. */
    method Itrunc(i: nat)
      requires Owned(State()) && i < |inodes|
      modifies this`bitmap, this`inodes, this`logged
      ensures Owned(State()) && |inodes| == old(|inodes|)
      ensures NoHoles(State(), i) && Content(State(), i) == []
      ensures OthersKept(old(State()), State(), i)
      ensures State() == Truncated(old(State()), bitmap, i) && Freed(old(State()), bitmap, i, SLOTS)
      ensures old(logged) <= logged && ChangesLogged(old(State()), State(), i, Lay(), logged)
    {
      ghost var fs := State();
      FreeDirect(i);
      if inodes[i].addrs[NDIRECT] != 0 {
        var table := inodes[i].addrs[NDIRECT];
        FreeTable(fs, i, table);
        var ip := inodes[i];
        inodes := inodes[i := ip.(addrs := ip.addrs[NDIRECT := 0])];
      } else {
        FreedSkip(fs, bitmap, i);
      }
      assert inodes[i].addrs == NoAddrs();
      inodes := inodes[i := inodes[i].(size := 0)];
      logged := logged + {IBlock(i)};
      assert State() == Truncated(fs, bitmap, i);
      TruncOwned(fs, bitmap, i);
    }

    /** The first loop of itrunc. */
    method FreeDirect(i: nat)
      requires Owned(State()) && i < |inodes|
      modifies this`bitmap, this`inodes, this`logged
      ensures Freeing(old(State()), i, NDIRECT) && old(logged) <= logged
      ensures |inodes| == old(|inodes|) && |inodes[i].addrs| == NDIRECT + 1
      ensures inodes == old(inodes)[i := old(inodes)[i].(addrs := inodes[i].addrs)]
      ensures forall l :: 0 <= l <= NDIRECT ==> inodes[i].addrs[l] == if l < NDIRECT then 0 else old(inodes)[i].addrs[l]
    {
      hide Freed, MapLogged;
      ghost var fs := State();
      FreedStart(fs, i);
      var k := 0;
      while k < NDIRECT
        invariant 0 <= k <= NDIRECT && old(logged) <= logged && Freeing(fs, i, k)
        invariant |inodes| == |fs.inodes| && inodes == fs.inodes[i := fs.inodes[i].(addrs := inodes[i].addrs)]
        invariant |inodes[i].addrs| == NDIRECT + 1
        invariant forall l :: 0 <= l <= NDIRECT ==> inodes[i].addrs[l] == if l < k then 0 else fs.inodes[i].addrs[l]
      {
        var ip := inodes[i];
        FreeSlot(fs, i, k, ip.addrs[k]);
        if ip.addrs[k] != 0 {
          inodes := inodes[i := ip.(addrs := ip.addrs[k := 0])];
        }
        k := k + 1;
      }
    }

    lemma FreedStart(fs: Fs, i: nat)
      requires Owned(fs) && i < |fs.inodes|
      ensures Freed(fs, fs.bitmap, i, 0) && MapLogged(fs.bitmap, fs.bitmap, Lay(), logged)
    {
    }

    /** itrunc has freed what the first m ranks of slots of file i name, and logged that. */
    ghost predicate Freeing(fs: Fs, i: nat, m: nat)
      requires Owned(fs) && i < |fs.inodes|
      reads this
    {
      && size == fs.size && blocks == fs.blocks && |bitmap| == |fs.bitmap|
      && Freed(fs, bitmap, i, m) && MapLogged(fs.bitmap, bitmap, Lay(), logged)
    }

    /** bfree of the block in slot k, if there is one. */
    method FreeSlot(ghost fs: Fs, i: nat, ghost k: nat, b: nat)
      requires Owned(fs) && i < |fs.inodes| && k < SLOTS && Freeing(fs, i, Rank(k)) && b == Slot(fs, i, k)
      modifies this`bitmap, this`logged
      ensures Freeing(fs, i, Rank(k) + 1) && old(logged) <= logged
    {
      hide Freed, MapLogged, Slot;
      StillInUse(fs, bitmap, i, k);
      FreedNext(fs, bitmap, i, k);
      if b != 0 {
        ClearLogged(fs.bitmap, bitmap, b, Lay(), logged, logged + {BBlock(b)});
        var panic := Bfree(b);
        assert !panic;
      }
    }

    /** The part of itrunc that frees the indirect block's words and then the indirect block. */
    method FreeTable(ghost fs: Fs, i: nat, table: nat)
      requires Owned(fs) && i < |fs.inodes| && table == fs.inodes[i].addrs[NDIRECT] != 0
      requires Freeing(fs, i, NDIRECT)
      modifies this`bitmap, this`logged
      ensures Freeing(fs, i, SLOTS) && old(logged) <= logged
    {
      hide Freed, MapLogged;
      assert table == Slot(fs, i, NDIRECT);
      InUseInRange(fs, i, NDIRECT);
      var j := 0;
      while j < NINDIRECT
        invariant 0 <= j <= NINDIRECT && old(logged) <= logged && Freeing(fs, i, NDIRECT + j)
      {
        assert Rank(NDIRECT + 1 + j) == NDIRECT + j;
        FreeSlot(fs, i, NDIRECT + 1 + j, WordAt(blocks[table], j));
        j := j + 1;
      }
      assert Rank(NDIRECT) == SLOTS - 1;
      FreeSlot(fs, i, NDIRECT, table);
    }

    lemma InUseInRange(fs: Fs, i: nat, k: nat)
      requires Owned(fs) && i < |fs.inodes| && k < SLOTS
      ensures Slot(fs, i, k) < fs.size
    {
      assert SlotOk(fs, i, k);
    }

    /** One round of readi's loop: bmap, which allocates nothing here, bread, memmove out of the block. */
    method ReadBlock(i: nat, at: nat, m: nat, ghost c: seq<byte>) returns (piece: seq<byte>)
      requires NoHoles0(State(), i) && c == Content(State(), i)
      requires 0 < m && at % BSIZE + m <= BSIZE && at + m <= |c|
      modifies this`bitmap, this`blocks, this`inodes, this`logged
      ensures State() == old(State()) && logged == old(logged)
      ensures piece == c[at..at + m]
    {
      ReadPiece(State(), i, at, m);
      var b, panic := Bmap(i, at / BSIZE);
      assert !panic;
      piece := blocks[b][at % BSIZE..at % BSIZE + m];
    }

    /** readi's loop. */
    method ReadLoop(i: nat, off: nat, n: nat, ghost c: seq<byte>) returns (dst: seq<byte>)
      requires NoHoles0(State(), i) && c == Content(State(), i) && off + n <= |c|
      modifies this`bitmap, this`blocks, this`inodes, this`logged
      ensures State() == old(State()) && logged == old(logged)
      ensures dst == c[off..off + n]
    {
      dst := [];
      var tot := 0;
      while tot < n
        invariant 0 <= tot <= n
        invariant State() == old(State()) && logged == old(logged) && dst == c[off..off + tot]
        decreases n - tot
      {
        var m := Min(n - tot, BSIZE - (off + tot) % BSIZE);
        var piece := ReadBlock(i, off + tot, m, c);
        Adjacent(c, off, off + tot, off + tot + m);
        dst, tot := dst + piece, tot + m;
      }
    }

    /**
     readi of a file that is not a device; off and n are unsigned 32-bit numbers.  It returns the slice of
     the content that starts at off, and it never allocates a block, logs one or panics.
     */
    method Readi(i: nat, off: nat, n: nat) returns (r: int, dst: seq<byte>)
      requires NoHoles0(State(), i) && inodes[i].kind != T_DEV
      requires off < 0x1_0000_0000 && n < 0x1_0000_0000
      modifies this`bitmap, this`blocks, this`inodes, this`logged
      ensures State() == old(State()) && logged == old(logged)
      ensures r == -1 <==> off > inodes[i].size || off + n >= 0x1_0000_0000
      ensures r == -1 ==> dst == []
      ensures r != -1 ==> r == |dst| && dst == Content(State(), i)[off..Min(off + n, inodes[i].size)]
    {
      r, dst := -1, [];
      if off > inodes[i].size || (off + n) % 0x1_0000_0000 < off {
        return;
      }
      var n' := n;
      if off + n > inodes[i].size {
        n' := inodes[i].size - off;
      }
      dst := ReadLoop(i, off, n', Content(State(), i));
      r := n';
    }

    lemma Adjacent(c: seq<byte>, lo: nat, mid: nat, hi: nat)
      requires lo <= mid <= hi <= |c|
      ensures c[lo..mid] + c[mid..hi] == c[lo..hi]
    {
    }

    /** bmap, bread, memmove of m bytes into the block, log_write. */
    method PutBytes(i: nat, off: nat, m: nat, src: seq<byte>, off0: nat, ghost fs0: Fs) returns (panic: bool)
      requires Written(fs0, State(), i, src, off0, off) && off < MAXBYTES
      requires 0 < m && off + m <= off0 + |src| && off + m <= MAXBYTES && off % BSIZE + m <= BSIZE
      modifies this`bitmap, this`blocks, this`inodes, this`logged
      ensures Owned(State()) && |inodes| == |fs0.inodes|
      ensures panic ==> forall c :: !Free(State(), c)
      ensures !panic ==> Written(fs0, State(), i, src, off0, off + m)
      ensures !panic ==> forall l :: 0 <= l < SLOTS && Slot(old(State()), i, l) != 0 ==>
                Slot(State(), i, l) == Slot(old(State()), i, l)
      ensures !panic && size <= BPB ==>
                logged <= old(logged) + {Slot(State(), i, Place(off / BSIZE)), bmapstart} + Indirect(State(), i)
      ensures !panic ==> old(logged) <= logged && Tracked(old(State()), State(), i, Lay(), logged)
      ensures !panic && Mapped(|inodes|) && Inside(old(logged)) ==> Inside(logged)
      ensures !panic ==> inodes[i] == old(inodes[i]) || off >= fs0.inodes[i].size
    {
      hide Tracked, Inside, Mapped;
      ghost var fs := State();
      var b;
      b, panic := Bmap(i, off / BSIZE);
      if !panic {
        ghost var gs, l := State(), logged;
        assert off < fs0.inodes[i].size ==> inodes == old(inodes);
        WrittenGrown(fs0, fs, gs, i, src, off0, off);
        ghost var k := Place(off / BSIZE);
        assert SlotOk(gs, i, k) && SameData(fs, gs, i);
        WrittenNext(fs0, gs, i, src, off0, off, m);
        var data := Splice(blocks[b], off % BSIZE, src[off - off0..off - off0 + m]);
        forall l | 0 <= l < SLOTS
          ensures Slot(PutBlock(gs, b, data), i, l) == Slot(gs, i, l)
        {
          PutSlots(gs, i, k, data, i, l);
        }
        InsideData(logged, b, |inodes|);
        blocks := blocks[b := data];
        logged := logged + {b};
        assert State() == PutBlock(gs, b, data);
        PutTracked(gs, i, b, data, Lay(), logged);
        TrackedTrans(fs, gs, State(), i, Lay(), l, logged);
      }
    }

    /** Only what a write of n bytes at off may log has been logged since l0. */
    ghost predicate LoggedWithin(l0: set<nat>, i: nat, off: nat, n: nat)
      requires Owned(State()) && i < |inodes| && off + n <= MAXBYTES
      reads this
    {
      size <= BPB ==> logged <= l0 + WriteSet(State(), bmapstart, i, off, n)
    }

    /** Everything changed since fs0 and l0 has been logged, but for the inode of a file that will grow. */
    ghost predicate AllLogged(fs0: Fs, l0: set<nat>, i: nat, end: nat)
      reads this
    {
      l0 <= logged && Tracked(fs0, State(), i, Lay(), logged) && Settled(fs0, State(), i, end)
    }

    /** One round of writei's loop. */
    method WriteBlock(i: nat, off: nat, tot: nat, src: seq<byte>, ghost fs0: Fs, ghost l0: set<nat>)
      returns (m: nat, panic: bool)
      requires Written(fs0, State(), i, src, off, off + tot) && LoggedWithin(l0, i, off, tot)
      requires tot < |src| && off + |src| <= MAXBYTES && AllLogged(fs0, l0, i, off + tot)
      modifies this`bitmap, this`blocks, this`inodes, this`logged
      ensures 0 < m <= |src| - tot && Owned(State()) && |inodes| == |fs0.inodes|
      ensures panic ==> forall c :: !Free(State(), c)
      ensures !panic ==> Written(fs0, State(), i, src, off, off + tot + m) && LoggedWithin(l0, i, off, tot + m)
      ensures !panic ==> AllLogged(fs0, l0, i, off + tot + m)
      ensures !panic && Mapped(|inodes|) && Inside(old(logged)) ==> Inside(logged)
    {
      hide Tracked, Inside, Mapped, Written, WriteSet, SameData, Byte, Slot;
      ghost var fs, l := State(), logged;
      m := Min(|src| - tot, BSIZE - (off + tot) % BSIZE);
      panic := PutBytes(i, off + tot, m, src, off, fs0);
      if !panic {
        WriteSetNext(fs0, fs, State(), bmapstart, i, src, off, tot, m);
        TrackedTrans(fs0, fs, State(), i, Lay(), l, logged);
      }
    }

    /** writei's loop: on return without a panic all of src is in place. */
    method WriteLoop(i: nat, off: nat, src: seq<byte>) returns (panic: bool)
      requires Owned(State()) && i < |inodes| && NoHoles(State(), i) && off + |src| <= MAXBYTES
      modifies this`bitmap, this`blocks, this`inodes, this`logged
      ensures Owned(State()) && |inodes| == old(|inodes|)
      ensures panic ==> forall c :: !Free(State(), c)
      ensures !panic ==> Written(old(State()), State(), i, src, off, off + |src|)
      ensures !panic ==> LoggedWithin(old(logged), i, off, |src|)
      ensures !panic ==> AllLogged(old(State()), old(logged), i, off + |src|)
      ensures !panic && Mapped(|inodes|) && Inside(old(logged)) ==> Inside(logged)
    {
      hide Owned, WriteSet, SameData, NoHoles, Byte, Tracked;
      ghost var fs0, l0 := State(), logged;
      TrackedNone(fs0, i, Lay(), logged);
      WrittenStart(fs0, i, src, off);
      var tot := 0;
      panic := false;
      while tot < |src|
        invariant 0 <= tot <= |src|
        invariant Written(fs0, State(), i, src, off, off + tot) && LoggedWithin(l0, i, off, tot)
        invariant AllLogged(fs0, l0, i, off + tot)
        invariant Mapped(|inodes|) && Inside(l0) ==> Inside(logged)
        decreases |src| - tot
      {
        var m, p := WriteBlock(i, off, tot, src, fs0, l0);
        if p {
          return true;
        }
        tot := tot + m;
      }
    }

    /** The end of writei: the size grows if the write went past it. */
    method GrowSize(i: nat, n: nat, end: nat, ghost gs: Fs)
      requires i < |inodes| && gs == SetSize(State(), i, EndSize(State(), i, end)) && (n == 0 ==> end <= inodes[i].size)
      modifies this`inodes, this`logged
      ensures State() == gs && old(logged) <= logged <= old(logged) + {IBlock(i)}
      ensures n > 0 && end > old(inodes[i].size) ==> IBlock(i) in logged
    {
      if n > 0 && end > inodes[i].size {
        inodes := inodes[i := inodes[i].(size := end)];
        logged := logged + {IBlock(i)};
      }
      assert inodes == gs.inodes;
    }

    /** writei of a file that is not a device; off is an unsigned 32-bit number, and so is n == |src|. */
    method Writei(i: nat, src: seq<byte>, off: nat) returns (r: int, panic: bool)
      requires Owned(State()) && i < |inodes| && inodes[i].kind != T_DEV && NoHoles(State(), i)
      requires off < 0x1_0000_0000 && |src| < 0x1_0000_0000
      modifies this`bitmap, this`blocks, this`inodes, this`logged
      ensures Owned(State()) && |inodes| == old(|inodes|)
      ensures panic ==> forall c :: !Free(State(), c)
      ensures !panic ==> r == -1 || r == |src|
      ensures !panic ==> (r == -1 <==> off > old(inodes[i].size) || off + |src| > MAXBYTES)
      ensures !panic && r == -1 ==> State() == old(State()) && logged == old(logged)
      ensures !panic && r != -1 ==> WriteDone(old(State()), State(), i, src, off)
      ensures !panic && r != -1 && size <= BPB ==>
        logged <= old(logged) + WriteSet(State(), bmapstart, i, off, |src|) + {IBlock(i)}
      ensures !panic ==> old(logged) <= logged && ChangesLogged(old(State()), State(), i, Lay(), logged)
      ensures !panic && Mapped(|inodes|) && Inside(old(logged)) ==> Inside(logged)
    {
      hide Owned, WriteDone, NoHoles, WriteSet, Tracked, Inside, Mapped;
      ghost var fs0 := State();
      var n := |src|;
      r, panic := -1, false;
      TrackedNone(fs0, i, Lay(), logged);
      if off > inodes[i].size || (off + n) % 0x1_0000_0000 < off {
        return;
      }
      if off + n > MAXFILE * BSIZE {
        return;
      }
      panic := WriteLoop(i, off, src);
      if panic {
        return;
      }
      ghost var fs, l := State(), logged;
      ghost var gs := SetSize(fs, i, EndSize(fs, i, off + n));
      FinishWrite(fs0, fs, bmapstart, i, src, off);
      GrowSize(i, n, off + n, gs);
      SizeLogged(fs0, fs, i, off + n, Lay(), l, logged);
      InsideInode(l, logged, i, |inodes|);
      r := n;
    }

    /** One operation of filewrite: begin_op, writei, end_op.  It logs at most 7 distinct blocks. */
    method WriteOp(i: nat, src: seq<byte>, off: nat) returns (r: int, panic: bool)
      requires Owned(State()) && i < |inodes| && inodes[i].kind != T_DEV && NoHoles(State(), i)
      requires off < 0x1_0000_0000 && |src| <= WRITEMAX
      modifies this
      ensures Owned(State()) && |inodes| == old(|inodes|)
      ensures panic ==> forall c :: !Free(State(), c)
      ensures !panic ==> r == if off > old(inodes[i]).size || off + |src| > MAXBYTES then -1 else |src|
      ensures !panic && r == -1 ==> State() == old(State())
      ensures !panic && r != -1 ==> WriteDone(old(State()), State(), i, src, off)
      ensures panic ==> ops == old(ops)
      ensures !panic ==> old(ops) <= ops && |ops| == |old(ops)| + 1
      ensures !panic && size <= BPB ==> |ops[|ops| - 1]| <= 7 <= MAXOPBLOCKS
      ensures !panic ==> ChangesLogged(old(State()), State(), i, Lay(), ops[|ops| - 1])
      ensures !panic && Mapped(|inodes|) ==> Inside(ops[|ops| - 1])
    {
      hide Owned, WriteDone, NoHoles, WriteSet, ChangesLogged, Mapped;
      logged := {};
      r, panic := Writei(i, src, off);
      if !panic {
        if r != -1 && size <= BPB {
          AtMostSeven(State(), bmapstart, i, off, |src|, IBlock(i), logged);
        }
        ops := ops + [logged];
      }
    }
  }

  /** The operations finished since `was` logged at most 7 distinct blocks each. */
  ghost predicate SmallOps(was: seq<set<nat>>, ops: seq<set<nat>>) {
    was <= ops && forall k :: |was| <= k < |ops| ==> |ops[k]| <= 7
  }

  lemma SmallOpsNext(was: seq<set<nat>>, ops: seq<set<nat>>, ops': seq<set<nat>>)
    requires SmallOps(was, ops) && ops <= ops' && |ops'| == |ops| + 1 && |ops'[|ops|]| <= 7
    ensures SmallOps(was, ops')
  {
  }

  /** struct file, for a file opened on an inode. */
  class File {
    const ip: nat
    const writable: bool
    var off: nat

    constructor (ip: nat, writable: bool)
      ensures this.ip == ip && this.writable == writable && off == 0
    {
      this.ip, this.writable, off := ip, writable, 0;
    }

    /** How far filewrite has got: the first i bytes of addr are in the file, or its offset is past the end. */
    ghost predicate Progress(fs0: Fs, fs: Fs, addr: seq<byte>, i: nat, off0: nat) {
      && i <= |addr| && NoHoles0(fs, ip) && NoHoles0(fs0, ip) && fs.inodes[ip].kind != T_DEV
      && if off0 > fs0.inodes[ip].size then i == 0 && fs == fs0 else WriteDone(fs0, fs, ip, addr[..i], off0)
    }

    lemma ProgressStart(fs: Fs, addr: seq<byte>, off: nat)
      requires NoHoles0(fs, ip) && fs.inodes[ip].kind != T_DEV
      ensures Progress(fs, fs, addr, 0, off)
    {
      if off <= fs.inodes[ip].size {
        NothingWritten(fs, ip, off);
      }
    }

    lemma ProgressNext(fs0: Fs, fs: Fs, gs: Fs, addr: seq<byte>, i: nat, n1: nat, off0: nat)
      requires Progress(fs0, fs, addr, i, off0) && i + n1 <= |addr| && off0 <= fs0.inodes[ip].size
      requires WriteDone(fs, gs, ip, addr[i..i + n1], off0 + i)
      ensures Progress(fs0, gs, addr, i + n1, off0)
    {
      hide NoHoles, Content, OthersKept;
      WriteDoneTwice(fs0, fs, gs, ip, addr[..i], addr[i..i + n1], off0);
      assert addr[..i + n1] == addr[..i] + addr[i..i + n1];
    }

    /** One round of filewrite's loop. */
    method WriteChunk(fs: FileSystem, addr: seq<byte>, i: nat, n1: nat, ghost fs0: Fs, ghost off0: nat)
      returns (r: int, panic: bool)
      requires Progress(fs0, fs.State(), addr, i, off0) && off == off0 + i < 0x1_0000_0000
      requires 0 < n1 <= WRITEMAX && i + n1 <= |addr|
      modifies this`off, fs
      ensures Owned(fs.State())
      ensures panic ==> forall c :: !Free(fs.State(), c)
      ensures panic ==> fs.ops == old(fs.ops)
      ensures !panic ==> r == if off0 > fs0.inodes[ip].size || off0 + i + n1 > MAXBYTES then -1 else n1
      ensures !panic ==> off == old(off) + if r == -1 then 0 else n1
      ensures !panic ==> Progress(fs0, fs.State(), addr, if r == -1 then i else i + n1, off0)
      ensures !panic && r == -1 ==> fs.State() == old(fs.State())
      ensures !panic && fs.size <= BPB ==> forall w :: SmallOps(w, old(fs.ops)) ==> SmallOps(w, fs.ops)
    {
      ghost var was := fs.State();
      r, panic := fs.WriteOp(ip, addr[i..i + n1], off);
      if !panic && fs.size <= BPB {
        forall w | SmallOps(w, old(fs.ops))
          ensures SmallOps(w, fs.ops)
        {
          SmallOpsNext(w, old(fs.ops), fs.ops);
        }
      }
      if !panic && r > 0 {
        off := off + r;
        ProgressNext(fs0, was, fs.State(), addr, i, n1, off0);
      }
    }

    /**
     filewrite: writes in chunks of at most 1536 bytes, one log operation each.  It writes the first
     Fit(off, n) bytes, all of them iff they fit the largest file, and returns n or -1 accordingly.
     */
    method FileWrite(fs: FileSystem, addr: seq<byte>, n: int) returns (r: int, panic: bool)
      requires n <= |addr| && off < 0x1_0000_0000
      requires NoHoles0(fs.State(), ip) && fs.inodes[ip].kind != T_DEV
      modifies this`off, fs
      ensures Owned(fs.State())
      ensures panic ==> forall c :: !Free(fs.State(), c)
      ensures !panic && !writable ==> r == -1 && off == old(off) && fs.State() == old(fs.State())
      ensures !panic && writable ==>
                var w := if n < 0 || old(off) > old(fs.inodes[ip]).size then 0 else Fit(old(off), n);
                r == (if w == n then n else -1) && off == old(off) + w
                && Progress(old(fs.State()), fs.State(), addr, w, old(off))
      ensures fs.size <= BPB ==> SmallOps(old(fs.ops), fs.ops)
    {
      hide Owned, WriteDone, NoHoles, Content;
      panic := false;
      if !writable {
        return -1, false;
      }
      ghost var fs0, off0 := fs.State(), off;
      ProgressStart(fs0, addr, off0);
      var i := 0;
      while i < n
        invariant 0 <= i && (0 <= n ==> i <= n) && (n < 0 ==> i == 0)
        invariant !panic && Progress(fs0, fs.State(), addr, i, off0)
        invariant off == off0 + i < 0x1_0000_0000
        invariant 0 <= n && off0 <= fs0.inodes[ip].size ==> Fit(off0, n) == i + Fit(off0 + i, n - i)
        invariant fs.size <= BPB ==> SmallOps(old(fs.ops), fs.ops)
        decreases n - i
      {
        var n1 := n - i;
        if n1 > WRITEMAX {
          n1 := WRITEMAX;
        }
        r, panic := WriteChunk(fs, addr, i, n1, fs0, off0);
        if panic {
          return;
        }
        if r < 0 {
          break;
        }
        assert r == n1;
        i := i + r;
      }
      r := if i == n then n else -1;
    }
  }
}
