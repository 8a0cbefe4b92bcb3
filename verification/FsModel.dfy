/**
 File content and block ownership of fs.c as values: inodes with direct and indirect block addresses,
 the free bitmap, and block contents.  An indirect block is 512 bytes read as 128 little-endian words.
 */
module FsModel {
  import opened Common

  // fs.h
  const BSIZE: nat := 512
  const NDIRECT: nat := 12
  const NINDIRECT: nat := 128
  const MAXFILE: nat := 140
  const BPB: nat := 4096
  const T_DEV: int := 3

  type Block = s: seq<byte> | |s| == 512 witness seq(512, _ => 0)

  /** What bzero leaves. */
  function Zero(): (b: Block)
    ensures forall i :: 0 <= i < 512 ==> b[i] == 0
  {
    seq(512, _ => 0)
  }

  /** What a block of the disk outside the log may hold. */
  datatype Contents = Bytes(bytes: Block) | Bits(bits: seq<bv8>) | Inodes(inodes: seq<Inode>)

  datatype Inode = Inode(kind: int, size: nat, addrs: seq<nat>)

  /** The file system: sb.size and the number of metadata blocks, bitmap bytes, blocks, inodes. */
  datatype Fs = Fs(size: nat, nmeta: nat, bitmap: seq<bv8>, blocks: seq<Block>, inodes: seq<Inode>)

  // ---- words of an indirect block ----

  function WordAt(b: Block, j: nat): nat
    requires j < NINDIRECT
  {
    b[4 * j] as int + 0x100 * b[4 * j + 1] as int
    + 0x1_0000 * b[4 * j + 2] as int + 0x100_0000 * b[4 * j + 3] as int
  }

  function SetWord(b: Block, j: nat, v: nat): Block
    requires j < NINDIRECT && v < 0x1_0000_0000
  {
    b[4 * j := v % 0x100][4 * j + 1 := v / 0x100 % 0x100]
     [4 * j + 2 := v / 0x1_0000 % 0x100][4 * j + 3 := v / 0x100_0000]
  }

  lemma FourBytes(v: nat)
    requires v < 0x1_0000_0000
    ensures v == v % 0x100 + 0x100 * (v / 0x100 % 0x100)
                 + 0x1_0000 * (v / 0x1_0000 % 0x100) + 0x100_0000 * (v / 0x100_0000)
  {
    assert v / 0x1_0000 == v / 0x100 / 0x100 && v / 0x100_0000 == v / 0x1_0000 / 0x100;
  }

  lemma WordSet(b: Block, j: nat, v: nat, l: nat)
    requires j < NINDIRECT && v < 0x1_0000_0000 && l < NINDIRECT
    ensures WordAt(SetWord(b, j, v), l) == if l == j then v else WordAt(b, l)
  {
    FourBytes(v);
    if l != j {
      var c := SetWord(b, j, v);
      assert c[4 * l] == b[4 * l] && c[4 * l + 1] == b[4 * l + 1];
      assert c[4 * l + 2] == b[4 * l + 2] && c[4 * l + 3] == b[4 * l + 3];
    }
  }

  lemma WordOfZero(l: nat)
    requires l < NINDIRECT
    ensures WordAt(Zero(), l) == 0
  {
  }

  // ---- bits of the free map ----

  /** 1 << i */
  function Mask(i: nat): bv8
    requires i < 8
  {
    if i == 0 then 1 else if i == 1 then 2 else if i == 2 then 4 else if i == 3 then 8
    else if i == 4 then 16 else if i == 5 then 32 else if i == 6 then 64 else 128
  }

  predicate HasBit(x: bv8, i: nat)
    requires i < 8
  {
    x & Mask(i) != 0
  }

  function With(x: bv8, i: nat): bv8
    requires i < 8
  {
    x | Mask(i)
  }

  function Without(x: bv8, i: nat): bv8
    requires i < 8
  {
    x & !Mask(i)
  }

  lemma MaskSet(x: bv8, i: nat, j: nat)
    requires i < 8 && j < 8
    ensures HasBit(With(x, i), j) <==> i == j || HasBit(x, j)
  {
  }

  lemma MaskClear(x: bv8, i: nat, j: nat)
    requires i < 8 && j < 8
    ensures HasBit(Without(x, i), j) <==> i != j && HasBit(x, j)
  {
  }

  predicate Bit(bitmap: seq<bv8>, b: nat)
    requires b / 8 < |bitmap|
  {
    HasBit(bitmap[b / 8], b % 8)
  }

  function SetBit(bitmap: seq<bv8>, b: nat): seq<bv8>
    requires b / 8 < |bitmap|
  {
    bitmap[b / 8 := With(bitmap[b / 8], b % 8)]
  }

  function ClearBit(bitmap: seq<bv8>, b: nat): seq<bv8>
    requires b / 8 < |bitmap|
  {
    bitmap[b / 8 := Without(bitmap[b / 8], b % 8)]
  }

  lemma BitSet(bitmap: seq<bv8>, b: nat, c: nat)
    requires b / 8 < |bitmap| && c / 8 < |bitmap|
    ensures Bit(SetBit(bitmap, b), c) <==> b == c || Bit(bitmap, c)
  {
    if b / 8 == c / 8 {
      MaskSet(bitmap[b / 8], b % 8, c % 8);
    } else {
      assert SetBit(bitmap, b)[c / 8] == bitmap[c / 8];
    }
  }

  lemma BitClear(bitmap: seq<bv8>, b: nat, c: nat)
    requires b / 8 < |bitmap| && c / 8 < |bitmap|
    ensures Bit(ClearBit(bitmap, b), c) <==> b != c && Bit(bitmap, c)
  {
    if b / 8 == c / 8 {
      var was := bitmap[b / 8];
      var now := ClearBit(bitmap, b)[c / 8];
      assert now == Without(was, b % 8);
      ClearOne(was, now, b, c);
    } else {
      assert ClearBit(bitmap, b)[c / 8] == bitmap[c / 8];
    }
  }

  lemma ClearOne(was: bv8, now: bv8, b: nat, c: nat)
    requires b / 8 == c / 8 && now == Without(was, b % 8)
    ensures HasBit(now, c % 8) <==> b != c && HasBit(was, c % 8)
  {
    MaskClear(was, b % 8, c % 8);
  }
}
