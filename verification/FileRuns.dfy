/**
 Several processes that write to files at the same time.  filewrite gives up the inode's lock between its chunks,
 so what the others see, and may mix with theirs, are the single chunks; FileSystem.WriteOp writes one.
 */
module FileRuns {
  import opened Common
  import opened FsModel
  import opened FsOwnership
  import opened FsWrite

  /** A chunk: `data` at byte `off` of the file of inode `ip`. */
  datatype Chunk = Chunk(ip: nat, off: nat, data: seq<byte>) {
    predicate Covers(i: nat, p: nat) {
      ip == i && off <= p < off + |data|
    }
  }

  ghost predicate WriteChunk(fs: Fs, gs: Fs, w: Chunk) {
    WriteDone(fs, gs, w.ip, w.data, w.off)
  }

  /** The file systems after 0, 1, 2 ... chunks, whoever wrote them. */
  ghost predicate WriteRun(fss: seq<Fs>, ws: seq<Chunk>) {
    && |fss| == |ws| + 1
    && (forall k :: 0 <= k < |ws| ==> WriteChunk(fss[k], fss[k + 1], ws[k]))
  }

  /** File i is in order in file system k of a run. */
  ghost predicate InOrder(fs: Fs, i: nat) {
    Owned(fs) && i < |fs.inodes| && NoHoles(fs, i)
  }

  /** What a file that is in order holds. */
  ghost function Holds(fs: Fs, i: nat): seq<byte> {
    if InOrder(fs, i) then Content(fs, i) else []
  }

  /** What chunk w makes of content c of file i. */
  function Changed(c: seq<byte>, w: Chunk, i: nat): (d: seq<byte>)
    ensures |d| >= |c|
  {
    if w.ip == i && w.off <= |c| then Overwrite(c, w.off, w.data) else c
  }

  lemma OneChunk(fs: Fs, gs: Fs, w: Chunk, i: nat)
    requires WriteChunk(fs, gs, w) && InOrder(fs, i)
    ensures InOrder(gs, i) && Holds(gs, i) == Changed(Holds(fs, i), w, i)
    ensures w.ip == i ==> w.off <= |Holds(fs, i)|
  {
  }

  lemma {:induction false} RunInOrder(fss: seq<Fs>, ws: seq<Chunk>, i: nat, k: nat)
    requires WriteRun(fss, ws) && k <= |ws| && InOrder(fss[0], i)
    ensures InOrder(fss[k], i)
  {
    hide InOrder, WriteChunk;
    if k > 0 {
      RunInOrder(fss, ws, i, k - 1);
      OneChunk(fss[k - 1], fss[k], ws[k - 1], i);
    }
  }

  /** One chunk more in a run. */
  lemma NextChunk(fss: seq<Fs>, ws: seq<Chunk>, i: nat, k: nat)
    requires WriteRun(fss, ws) && 0 < k <= |ws| && InOrder(fss[0], i)
    ensures InOrder(fss[k], i) && Holds(fss[k], i) == Changed(Holds(fss[k - 1], i), ws[k - 1], i)
    ensures ws[k - 1].ip == i ==> ws[k - 1].off <= |Holds(fss[k - 1], i)|
  {
    hide InOrder, WriteChunk, Holds, Changed;
    RunInOrder(fss, ws, i, k - 1);
    OneChunk(fss[k - 1], fss[k], ws[k - 1], i);
  }

  /** Byte p, or -1 behind the end. */
  function At(c: seq<byte>, p: nat): int {
    if p < |c| then c[p] else -1
  }

  lemma ChangedAt(c: seq<byte>, w: Chunk, i: nat, p: nat)
    requires w.ip == i ==> w.off <= |c|
    ensures At(Changed(c, w, i), p) == if w.Covers(i, p) then w.data[p - w.off] else At(c, p)
  {
  }

  /** Byte p of file i after k chunks: that of the last chunk that covers it, if there is one. */
  ghost function ByteAfter(fss: seq<Fs>, ws: seq<Chunk>, i: nat, p: nat, k: nat): int
    requires |fss| > 0 && k <= |ws|
  {
    if k == 0 then At(Holds(fss[0], i), p)
    else if ws[k - 1].Covers(i, p) then ws[k - 1].data[p - ws[k - 1].off]
    else ByteAfter(fss, ws, i, p, k - 1)
  }

  /** Each byte of a file is what the last chunk to cover it put there, and there is none behind those that have
      been covered or were there at the start. */
  lemma {:induction false} LastChunkWins(fss: seq<Fs>, ws: seq<Chunk>, i: nat, p: nat, k: nat)
    requires WriteRun(fss, ws) && k <= |ws| && InOrder(fss[0], i)
    ensures InOrder(fss[k], i) && At(Holds(fss[k], i), p) == ByteAfter(fss, ws, i, p, k)
  {
    hide InOrder, WriteChunk, Holds, Changed, At;
    if k > 0 {
      LastChunkWins(fss, ws, i, p, k - 1);
      NextChunk(fss, ws, i, k);
      ChangedAt(Holds(fss[k - 1], i), ws[k - 1], i, p);
    }
  }

  /** Chunk k is in the content c of its file. */
  predicate InPlace(c: seq<byte>, w: Chunk) {
    w.off + |w.data| <= |c| && c[w.off..w.off + |w.data|] == w.data
  }

  /** The two chunks have no byte of a file in common. */
  predicate Apart(v: Chunk, w: Chunk) {
    v.ip != w.ip || v.off + |v.data| <= w.off || w.off + |w.data| <= v.off
  }

  lemma StaysInPlace(c: seq<byte>, v: Chunk, w: Chunk)
    requires InPlace(c, w) && Apart(v, w)
    ensures InPlace(Changed(c, v, w.ip), w)
  {
  }

  /** A chunk that no later one overlaps is in the file at the end. */
  lemma {:induction false} ChunkStays(fss: seq<Fs>, ws: seq<Chunk>, k: nat, n: nat)
    requires WriteRun(fss, ws) && k < n <= |ws| && InOrder(fss[0], ws[k].ip)
    requires forall l :: k < l < n ==> Apart(ws[l], ws[k])
    ensures InOrder(fss[n], ws[k].ip) && InPlace(Holds(fss[n], ws[k].ip), ws[k])
  {
    hide InOrder, WriteChunk, Holds;
    NextChunk(fss, ws, ws[k].ip, n);
    if n > k + 1 {
      hide Changed, InPlace, Apart;
      ChunkStays(fss, ws, k, n - 1);
      StaysInPlace(Holds(fss[n - 1], ws[k].ip), ws[n - 1], ws[k]);
    }
  }

  // ---- writers that share an open file ----

  /** Bytes in the first k chunks. */
  function Total(ws: seq<Chunk>, k: nat): nat
    requires k <= |ws|
  {
    if k == 0 then 0 else Total(ws, k - 1) + |ws[k - 1].data|
  }

  function Joined(ws: seq<Chunk>, k: nat): (s: seq<byte>)
    requires k <= |ws|
    ensures |s| == Total(ws, k)
  {
    if k == 0 then [] else Joined(ws, k - 1) + ws[k - 1].data
  }

  /** Each chunk goes where the offset of the shared struct file stands, and moves it on, under the inode's lock. */
  ghost predicate SharedFile(ws: seq<Chunk>, ip: nat, off: nat) {
    forall k: nat :: k < |ws| ==> NextPlace(ws, ip, off, k)
  }

  predicate NextPlace(ws: seq<Chunk>, ip: nat, off: nat, k: nat)
    requires k < |ws|
  {
    ws[k].ip == ip && ws[k].off == off + Total(ws, k)
  }

  lemma JoinStart(fs: Fs, ip: nat, off: nat)
    requires InOrder(fs, ip) && off <= fs.inodes[ip].size
    ensures WriteDone(fs, fs, ip, [], off)
  {
    NothingWritten(fs, ip, off);
  }

  lemma JoinStep(fs0: Fs, fs: Fs, gs: Fs, ip: nat, a: seq<byte>, w: Chunk, off: nat)
    requires WriteDone(fs0, fs, ip, a, off) && WriteChunk(fs, gs, w) && w.ip == ip && w.off == off + |a|
    ensures WriteDone(fs0, gs, ip, a + w.data, off)
  {
    hide WriteDone;
    WriteDoneTwice(fs0, fs, gs, ip, a, w.data, off);
  }

  /**
   Any number of writers through one struct file: together they write their chunks one behind the other, in the
   order in which they come, and change no other file.
   */
  lemma {:induction false} SharedFileJoins(fss: seq<Fs>, ws: seq<Chunk>, ip: nat, off: nat, k: nat)
    requires WriteRun(fss, ws) && SharedFile(ws, ip, off) && k <= |ws|
    requires InOrder(fss[0], ip) && off <= fss[0].inodes[ip].size
    ensures WriteDone(fss[0], fss[k], ip, Joined(ws, k), off)
  {
    hide WriteDone, WriteChunk, InOrder;
    if k == 0 {
      JoinStart(fss[0], ip, off);
    } else {
      SharedFileJoins(fss, ws, ip, off, k - 1);
      assert NextPlace(ws, ip, off, k - 1);
      JoinStep(fss[0], fss[k - 1], fss[k], ip, Joined(ws, k - 1), ws[k - 1], off);
    }
  }

  lemma {:induction false} TotalGrows(ws: seq<Chunk>, j: nat, k: nat)
    requires j <= k <= |ws|
    ensures Total(ws, j) <= Total(ws, k)
    decreases k
  {
    if j < k {
      TotalGrows(ws, j, k - 1);
    }
  }

  lemma SharedApart(ws: seq<Chunk>, ip: nat, off: nat, k: nat, l: nat)
    requires SharedFile(ws, ip, off) && k < l < |ws|
    ensures Apart(ws[l], ws[k])
  {
    assert NextPlace(ws, ip, off, k) && NextPlace(ws, ip, off, l);
    TotalGrows(ws, k + 1, l);
  }

  /** ... and nothing that any of them wrote is overwritten. */
  lemma SharedFileKeepsAll(fss: seq<Fs>, ws: seq<Chunk>, ip: nat, off: nat, k: nat)
    requires WriteRun(fss, ws) && SharedFile(ws, ip, off) && k < |ws| && InOrder(fss[0], ip)
    ensures InOrder(fss[|ws|], ip) && InPlace(Holds(fss[|ws|], ip), ws[k])
  {
    hide InOrder, WriteChunk, Holds, InPlace, WriteRun;
    assert NextPlace(ws, ip, off, k);
    forall l | k < l < |ws|
      ensures Apart(ws[l], ws[k])
    {
      SharedApart(ws, ip, off, k, l);
    }
    ChunkStays(fss, ws, k, |ws|);
  }
}
