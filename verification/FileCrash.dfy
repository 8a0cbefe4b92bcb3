/**
 Crash safety of files: the chunks that filewrite writes, over the log.  An operation changes the file system by
 chunks, as FileSystem.WriteOp does, and logs the blocks that WriteOp logs.  Any number of operations overlap, their
 log_write calls alternate in any way, they share transactions, and a crash comes at any moment.
 */
module FileCrash {
  import opened Common
  import opened Params
  import opened FsModel
  import opened FsOwnership
  import opened FsWrite
  import opened FileRuns
  import opened LogDisk
  import opened LogProtocol

  // ---- the file system on disk ----

  /** s[at..at + n], as far as s goes. */
  function Part<T>(s: seq<T>, at: nat, n: nat): seq<T> {
    s[Min(at, |s|)..Min(at + n, |s|)]
  }

  /** What block b holds when the file system is fs: inodes, the free map, or data. */
  function Enc(fs: Fs, lay: Layout, b: nat): Contents
    requires lay.inodestart <= b < |fs.blocks|
  {
    if b < lay.bmapstart then Inodes(Part(fs.inodes, (b - lay.inodestart) * IPB, IPB))
    else if b < fs.nmeta then Bits(Part(fs.bitmap, (b - lay.bmapstart) * BSIZE, BSIZE))
    else Bytes(fs.blocks[b])
  }

  /** The layout of mkfs: the log, then inodes, free map and data, each large enough. */
  ghost predicate Placed(g: Geometry, lay: Layout, fs: Fs) {
    && g.Sane() && g.start + g.size <= lay.inodestart <= lay.bmapstart <= fs.nmeta <= fs.size
    && |fs.blocks| == fs.size == g.blocks
    && |fs.inodes| <= (lay.bmapstart - lay.inodestart) * IPB
    && |fs.bitmap| <= (fs.nmeta - lay.bmapstart) * BSIZE
  }

  /** The disk holds file system fs. */
  ghost predicate Stores(d: Disk, fs: Fs, lay: Layout) {
    |d| == |fs.blocks| && forall b :: lay.inodestart <= b < |d| ==> d[b] == Raw(Enc(fs, lay, b))
  }

  lemma StoresSame(g: Geometry, lay: Layout, d: Disk, e: Disk, fs: Fs)
    requires Placed(g, lay, fs) && SameHome(g, e, d) && Stores(d, fs, lay)
    ensures Stores(e, fs, lay)
  {
    assert forall b: nat :: lay.inodestart <= b < |e| ==> g.Home(b);
  }

  lemma PartSame<T>(s: seq<T>, t: seq<T>, at: nat, n: nat)
    requires |s| == |t| && forall k :: at <= k < at + n && k < |s| ==> s[k] == t[k]
    ensures Part(s, at, n) == Part(t, at, n)
  {
  }

  lemma PartAt<T>(s: seq<T>, t: seq<T>, at: nat, n: nat, k: nat)
    requires |s| == |t| && Part(s, at, n) == Part(t, at, n) && at <= k < at + n && k < |s|
    ensures s[k] == t[k]
  {
    assert Part(s, at, n)[k - at] == s[k] && Part(t, at, n)[k - at] == t[k];
  }

  /** A block that a change does not log holds what it held. */
  lemma EncSame(fs: Fs, gs: Fs, i: nat, lay: Layout, l: set<nat>, b: nat)
    requires ChangesLogged(fs, gs, i, lay, l) && b !in l && lay.inodestart <= b < |fs.blocks|
    ensures Enc(gs, lay, b) == Enc(fs, lay, b)
  {
    if b < lay.bmapstart {
      var q := b - lay.inodestart;
      forall k | q * IPB <= k < q * IPB + IPB && k < |fs.inodes|
        ensures gs.inodes[k] == fs.inodes[k]
      {
        assert k / IPB == q;
      }
      PartSame(gs.inodes, fs.inodes, q * IPB, IPB);
    } else if b < fs.nmeta {
      var q := b - lay.bmapstart;
      forall k | q * BSIZE <= k < q * BSIZE + BSIZE && k < |fs.bitmap|
        ensures gs.bitmap[k] == fs.bitmap[k]
      {
        assert k / BSIZE == q;
      }
      PartSame(gs.bitmap, fs.bitmap, q * BSIZE, BSIZE);
    }
  }

  lemma InodeStored(g: Geometry, lay: Layout, d: Disk, fs: Fs, gs: Fs, i: nat)
    requires Placed(g, lay, fs) && Placed(g, lay, gs) && fs.nmeta == gs.nmeta && |fs.inodes| == |gs.inodes|
    requires Stores(d, fs, lay) && Stores(d, gs, lay) && i < |fs.inodes|
    ensures fs.inodes[i] == gs.inodes[i]
  {
    var q := i / IPB;
    var b := q + lay.inodestart;
    assert d[b] == Raw(Enc(fs, lay, b)) && d[b] == Raw(Enc(gs, lay, b));
    PartAt(fs.inodes, gs.inodes, q * IPB, IPB, i);
  }

  lemma BlockStored(g: Geometry, lay: Layout, d: Disk, fs: Fs, gs: Fs, b: nat)
    requires Placed(g, lay, fs) && Placed(g, lay, gs) && fs.nmeta == gs.nmeta
    requires Stores(d, fs, lay) && Stores(d, gs, lay) && fs.nmeta <= b < fs.size
    ensures fs.blocks[b] == gs.blocks[b]
  {
    assert d[b] == Raw(Enc(fs, lay, b)) && d[b] == Raw(Enc(gs, lay, b));
  }

  lemma SlotStored(g: Geometry, lay: Layout, d: Disk, fs: Fs, gs: Fs, i: nat, k: nat)
    requires Placed(g, lay, fs) && Placed(g, lay, gs) && fs.nmeta == gs.nmeta && |fs.inodes| == |gs.inodes|
    requires Stores(d, fs, lay) && Stores(d, gs, lay) && Owned(fs) && Owned(gs) && i < |fs.inodes| && k < SLOTS
    ensures Slot(fs, i, k) == Slot(gs, i, k)
    ensures Slot(fs, i, k) != 0 ==> BlockAt(fs, Slot(fs, i, k)) == BlockAt(gs, Slot(fs, i, k))
  {
    InodeStored(g, lay, d, fs, gs, i);
    assert SlotOk(fs, i, NDIRECT) && SlotOk(fs, i, k);
    var t := Slot(fs, i, NDIRECT);
    if t != 0 {
      BlockStored(g, lay, d, fs, gs, t);
    }
    if Slot(fs, i, k) != 0 {
      BlockStored(g, lay, d, fs, gs, Slot(fs, i, k));
    }
  }

  /** A disk determines its files: two file systems that it holds have the same content in each of them. */
  lemma ContentStored(g: Geometry, lay: Layout, d: Disk, fs: Fs, gs: Fs, i: nat)
    requires Placed(g, lay, fs) && Placed(g, lay, gs) && fs.nmeta == gs.nmeta && |fs.inodes| == |gs.inodes|
    requires Stores(d, fs, lay) && Stores(d, gs, lay) && Owned(gs) && InOrder(fs, i)
    ensures InOrder(gs, i) && Content(gs, i) == Content(fs, i)
  {
    hide Stores, Placed;
    InodeStored(g, lay, d, fs, gs, i);
    forall k | 0 <= k < SLOTS
      ensures Slot(fs, i, k) == Slot(gs, i, k)
      ensures Slot(fs, i, k) != 0 ==> BlockAt(fs, Slot(fs, i, k)) == BlockAt(gs, Slot(fs, i, k))
    {
      SlotStored(g, lay, d, fs, gs, i, k);
    }
    hide Slot, BlockAt;
    assert SameData(fs, gs, i);
    SameDataContent(fs, gs, i);
  }

  // ---- operations that write chunks ----

  /** chain: the file systems after 0, 1, 2 ... of the chunks in `writes`; saved: how many of these chunks the
      committed transactions contain; pending: for each operation, the blocks it has changed and not logged yet. */
  datatype Files = Files(s: State, chain: seq<Fs>, writes: seq<Chunk>, saved: nat, pending: seq<set<nat>>) {
    /** The file system as its code sees it. */
    function Now(): Fs
      requires chain != []
    {
      chain[|chain| - 1]
    }
  }

  datatype FileStep =
    // operation op changes the file system by chunk w, and must log these blocks
    | Write(op: nat, w: Chunk, gs: Fs, blocks: set<nat>)
    // log_write of block b by operation op, under the lock
    | LogWrite(op: nat, b: nat)
    // any other step of the log
    | Log(step: Step)
    | Reboot

  /** log_write takes the block as it is now. */
  ghost function Entry(fs: Fs, lay: Layout, op: nat, b: nat): Step
    requires lay.inodestart <= b < |fs.blocks|
  {
    Append(op, b, Raw(Enc(fs, lay, b)))
  }

  ghost predicate Can(g: Geometry, lay: Layout, f: Files, e: FileStep) {
    && 0 < |f.chain| == |f.writes| + 1 && f.saved <= |f.writes| && |f.pending| == |f.s.ops|
    && match e
      case Write(op, w, gs, bs) =>
        op < |f.s.ops| && WriteChunk(f.Now(), gs, w) && ChangesLogged(f.Now(), gs, w.ip, lay, bs)
      case LogWrite(op, b) =>
        lay.inodestart <= b < |f.Now().blocks| && Enabled(g, f.s, Entry(f.Now(), lay, op, b))
      case Log(step) =>
        && Enabled(g, f.s, step) && !step.Append? && !step.Crash?
        && (step.EndOp? ==> f.pending[step.op] == {})
      case Reboot => Enabled(g, f.s, Crash)
  }

  ghost function After(g: Geometry, lay: Layout, f: Files, e: FileStep): Files
    requires Can(g, lay, f, e)
  {
    match e
    case Write(op, w, gs, bs) =>
      f.(chain := f.chain + [gs], writes := f.writes + [w], pending := f.pending[op := f.pending[op] + bs])
    case LogWrite(op, b) =>
      f.(s := Do(g, f.s, Entry(f.Now(), lay, op, b)), pending := f.pending[op := f.pending[op] - {b}])
    case Log(step) =>
      f.(s := Do(g, f.s, step),
         saved := if step == CommitWrite && f.s.pos == |f.s.lh| then |f.writes| else f.saved,
         pending := if step.EndOp? then RemoveAt(f.pending, step.op)
                    else f.pending + seq(|Do(g, f.s, step).ops| - |f.s.ops|, _ => {}))
    case Reboot =>
      // what was not committed is lost
      Files(Do(g, f.s, Crash), f.chain[..f.saved + 1], f.writes[..f.saved], f.saved, [])
  }

  // ---- the invariant ----

  /** The blocks as log_write left them. */
  ghost function Seen(init: Disk, s: State): Disk {
    Overlay(Replay(init, s.history), s.cache)
  }

  ghost predicate IsPending(pending: seq<set<nat>>, b: nat) {
    exists i :: 0 <= i < |pending| && b in pending[i]
  }

  /** What has been changed is logged, or will be. */
  ghost predicate Current(d: Disk, fs: Fs, lay: Layout, pending: seq<set<nat>>) {
    && |d| == |fs.blocks|
    && forall b :: lay.inodestart <= b < |d| && !IsPending(pending, b) ==> d[b] == Raw(Enc(fs, lay, b))
  }

  ghost predicate Chained(g: Geometry, lay: Layout, f: Files) {
    && 0 < |f.chain| == |f.writes| + 1 && f.saved <= |f.writes| && WriteRun(f.chain, f.writes)
    && |f.pending| == |f.s.ops|
    && forall k :: 0 <= k < |f.chain| ==> Placed(g, lay, f.chain[k])
  }

  ghost predicate FilesOk(g: Geometry, lay: Layout, init: Disk, f: Files) {
    && g.size >= NBUF && Inv(g, init, f.s) && Chained(g, lay, f)
    && Stores(Replay(init, f.s.history), f.chain[f.saved], lay)
    && (f.s.up ==> Current(Seen(init, f.s), f.Now(), lay, f.pending))
    && (!f.s.up || (f.s.committing && f.s.pos > |f.s.lh|) ==> f.saved == |f.writes|)
  }

  lemma NothingPending(d: Disk, fs: Fs, lay: Layout)
    ensures Current(d, fs, lay, []) <==> Stores(d, fs, lay)
  {
    assert forall b :: !IsPending([], b);
  }

  lemma LogFits(g: Geometry, s: State, step: Step)
    requires g.size >= NBUF && step.Append? && Enabled(g, s, step)
    ensures Fits(g, AbsorbInto(s.lh, step.bno))
  {
  }

  lemma InvFacts(g: Geometry, init: Disk, s: State)
    requires Inv(g, init, s)
    ensures |Replay(init, s.history)| == g.blocks
    ensures s.ops != [] ==> s.up && !s.committing
    ensures s.up && !s.committing && s.ops == [] ==> s.cache == map[]
  {
    assert forall b :: b in s.cache <==> b in s.lh;
  }

  // ---- the steps ----

  lemma KeepWrite(g: Geometry, lay: Layout, init: Disk, f: Files, e: FileStep)
    requires e.Write? && FilesOk(g, lay, init, f) && Can(g, lay, f, e)
    ensures FilesOk(g, lay, init, After(g, lay, f, e))
  {
    hide Inv, Enc, WriteChunk, ChangesLogged, Seen, Replay, Current, Placed, IsPending, WriteRun, Stores;
    InvFacts(g, init, f.s);
    ShapeKept(g, lay, f.Now(), e.gs, e.w.ip, e.blocks);
    StillCurrent(Seen(init, f.s), f.Now(), e.gs, e.w.ip, lay, f.pending, e.op, e.blocks);
    ChainGrows(f.chain, f.writes, e.gs, e.w);
  }

  /** A change makes the blocks pending that it must log; the others stay as they were. */
  lemma StillCurrent(d: Disk, fs: Fs, gs: Fs, i: nat, lay: Layout, pending: seq<set<nat>>, op: nat, bs: set<nat>)
    requires Current(d, fs, lay, pending) && ChangesLogged(fs, gs, i, lay, bs) && op < |pending|
    ensures Current(d, gs, lay, pending[op := pending[op] + bs])
  {
    hide Enc, ChangesLogged;
    var now := pending[op := pending[op] + bs];
    BlocksKept(fs, gs, i, lay, bs);
    forall b | lay.inodestart <= b < |d| && !IsPending(now, b)
      ensures d[b] == Raw(Enc(gs, lay, b))
    {
      assert b !in now[op];
      forall k | 0 <= k < |pending|
        ensures b !in pending[k]
      {
        assert b !in now[k];
      }
      EncSame(fs, gs, i, lay, bs, b);
    }
  }

  lemma BlocksKept(fs: Fs, gs: Fs, i: nat, lay: Layout, l: set<nat>)
    requires ChangesLogged(fs, gs, i, lay, l)
    ensures |gs.blocks| == |fs.blocks|
  {
  }

  lemma ShapeKept(g: Geometry, lay: Layout, fs: Fs, gs: Fs, i: nat, l: set<nat>)
    requires Placed(g, lay, fs) && ChangesLogged(fs, gs, i, lay, l)
    ensures Placed(g, lay, gs)
  {
  }

  lemma ChainGrows(chain: seq<Fs>, writes: seq<Chunk>, gs: Fs, w: Chunk)
    requires WriteRun(chain, writes) && WriteChunk(chain[|writes|], gs, w)
    ensures WriteRun(chain + [gs], writes + [w])
  {
    hide WriteChunk;
    var c, v := chain + [gs], writes + [w];
    forall k | 0 <= k < |v|
      ensures WriteChunk(c[k], c[k + 1], v[k])
    {
      assert k < |writes| ==> WriteChunk(chain[k], chain[k + 1], writes[k]);
    }
  }

  lemma ChainCut(chain: seq<Fs>, writes: seq<Chunk>, n: nat)
    requires WriteRun(chain, writes) && n <= |writes|
    ensures WriteRun(chain[..n + 1], writes[..n])
  {
    hide WriteChunk;
    forall k | 0 <= k < n
      ensures WriteChunk(chain[..n + 1][k], chain[..n + 1][k + 1], writes[..n][k])
    {
      assert WriteChunk(chain[k], chain[k + 1], writes[k]);
    }
  }

  /** A block that is logged as it is now is no longer pending. */
  lemma LoggedCurrent(d: Disk, fs: Fs, lay: Layout, pending: seq<set<nat>>, op: nat, b: nat)
    requires Current(d, fs, lay, pending) && op < |pending| && lay.inodestart <= b < |d|
    ensures Current(d[b := Raw(Enc(fs, lay, b))], fs, lay, pending[op := pending[op] - {b}])
  {
    hide Enc;
    var now := pending[op := pending[op] - {b}];
    forall c | lay.inodestart <= c < |d| && c != b && !IsPending(now, c)
      ensures !IsPending(pending, c)
    {
      forall k | 0 <= k < |pending|
        ensures c !in pending[k]
      {
        assert c !in now[k];
      }
    }
  }

  lemma KeepLogWrite(g: Geometry, lay: Layout, init: Disk, f: Files, e: FileStep)
    requires e.LogWrite? && FilesOk(g, lay, init, f) && Can(g, lay, f, e)
    ensures FilesOk(g, lay, init, After(g, lay, f, e))
  {
    hide Inv, Enc, Replay, Current, Placed, IsPending, WriteRun, Stores, DiskOk;
    var step := Entry(f.Now(), lay, e.op, e.b);
    InvFacts(g, init, f.s);
    LogFits(g, f.s, step);
    KeepStep(g, init, f.s, step);
    LoggedCurrent(Seen(init, f.s), f.Now(), lay, f.pending, e.op, e.b);
    assert Seen(init, Do(g, f.s, step)) == Seen(init, f.s)[e.b := step.data];
  }

  lemma KeepReboot(g: Geometry, lay: Layout, init: Disk, f: Files)
    requires FilesOk(g, lay, init, f) && Can(g, lay, f, Reboot)
    ensures FilesOk(g, lay, init, After(g, lay, f, Reboot))
  {
    KeepStep(g, init, f.s, Crash);
    ChainCut(f.chain, f.writes, f.saved);
    hide Inv, Enc, WriteRun, Seen, Replay, Stores, Placed, DiskOk, Current;
    assert After(g, lay, f, Reboot).s.history == f.s.history;
  }

  /** A transaction that commits contains everything that has been logged. */
  lemma SeenAfterCommit(init: Disk, s: State)
    ensures Replay(init, s.history + [s.cache]) == Seen(init, s)
    ensures Overlay(Seen(init, s), s.cache) == Seen(init, s)
    ensures s.cache == map[] ==> Seen(init, s) == Replay(init, s.history)
  {
    hide Replay;
    ReplaySnoc(init, s.history, s.cache);
  }

  lemma EmptyOverlay(d: Disk)
    ensures Overlay(d, map[]) == d
  {
  }

  /** Operations that begin have nothing pending, and those that end neither. */
  lemma PendingKept(d: Disk, fs: Fs, lay: Layout, pending: seq<set<nat>>, now: seq<set<nat>>)
    requires Current(d, fs, lay, pending)
    requires forall b :: IsPending(pending, b) ==> IsPending(now, b)
    ensures Current(d, fs, lay, now)
  {
    hide Enc;
  }

  lemma PendingAfter(pending: seq<set<nat>>, k: nat)
    ensures forall b :: IsPending(pending, b) ==> IsPending(pending + seq(k, _ => {}), b)
    ensures k < |pending| && pending[k] == {} ==>
      forall b :: IsPending(pending, b) ==> IsPending(RemoveAt(pending, k), b)
  {
    forall b | IsPending(pending, b)
      ensures IsPending(pending + seq(k, _ => {}), b)
      ensures k < |pending| && pending[k] == {} ==> IsPending(RemoveAt(pending, k), b)
    {
      var i :| 0 <= i < |pending| && b in pending[i];
      assert (pending + seq(k, _ => {}))[i] == pending[i];
      if k < |pending| && pending[k] == {} {
        assert RemoveAt(pending, k)[if i < k then i else i - 1] == pending[i];
      }
    }
  }

  /** What the steps of the log other than a new entry and a crash do to history, cache and progress. */
  lemma LogCases(g: Geometry, init: Disk, s: State, step: Step)
    requires Inv(g, init, s) && Enabled(g, s, step) && !step.Append? && !step.Crash?
    ensures var t := Do(g, s, step);
      && t.history == (if step == CommitWrite && s.pos == |s.lh| then s.history + [s.cache] else s.history)
      && t.cache == (if step == CommitDone then map[] else s.cache)
      && (s.up ==> t.up) && (t.up && !s.up ==> step == RecoverDone && s.cache == map[] && s.ops == [])
      && (t.committing && t.pos > |t.lh| ==>
            (s.committing && s.pos > |s.lh|) || (step == CommitWrite && s.pos == |s.lh|))
      && (step == CommitWrite || step == CommitDone ==> s.up && s.committing && s.ops == [])
      && (step == RecoverDone ==> !s.up && t.up && s.ops == [])
      && (step.EndOp? ==> step.op < |s.ops|)
      && (step == CommitDone ==> s.pos > |s.lh| || s.cache == map[])
      && |t.ops| == (if step.EndOp? then |s.ops| - 1
                     else if step.BeginOp? && t.ops != s.ops then |s.ops| + 1 else |s.ops|)
  {
    hide CommitPlan, RecoverPlan, Replay, SameHome, Overlay;
    if step == CommitDone && s.lh != [] {
      PlanLength(g, s.base, s.cache, s.lh);
    }
  }

  /** While no operation is in progress, what file system code sees is what has been logged. */
  lemma SeenIsNow(g: Geometry, lay: Layout, init: Disk, f: Files)
    requires FilesOk(g, lay, init, f) && f.s.up && f.s.ops == []
    ensures Stores(Seen(init, f.s), f.Now(), lay)
  {
    hide Inv, Stores, Seen, Placed, WriteRun, Current;
    NothingPending(Seen(init, f.s), f.Now(), lay);
  }

  /** What a step of the log does to the committed blocks and to those that have been logged. */
  lemma LogSeen(g: Geometry, init: Disk, s: State, step: Step)
    requires Inv(g, init, s) && Enabled(g, s, step) && !step.Append? && !step.Crash?
    ensures var t := Do(g, s, step);
      && (Replay(init, t.history) == if step == CommitWrite && s.pos == |s.lh| then Seen(init, s)
                                     else Replay(init, s.history))
      && (step != CommitDone ==> Seen(init, t) == Seen(init, s))
      && (step == CommitDone || step == RecoverDone ==> Seen(init, t) == Replay(init, s.history))
      && (step == CommitDone && s.pos <= |s.lh| ==> Seen(init, s) == Replay(init, s.history))
  {
    LogCases(g, init, s, step);
    SeenAfterCommit(init, s);
    EmptyOverlay(Replay(init, s.history));
    hide Inv, Enabled, Do, Replay, Overlay;
  }

  lemma LogSaves(g: Geometry, lay: Layout, init: Disk, f: Files, step: Step)
    requires FilesOk(g, lay, init, f) && Can(g, lay, f, Log(step))
    ensures var t := After(g, lay, f, Log(step));
      && t.saved <= |t.writes| && Stores(Replay(init, t.s.history), t.chain[t.saved], lay)
      && (!t.s.up || (t.s.committing && t.s.pos > |t.s.lh|) ==> t.saved == |t.writes|)
  {
    hide Inv, Enabled, Do, Replay, Seen, Stores, Placed, WriteRun, Current;
    LogCases(g, init, f.s, step);
    LogSeen(g, init, f.s, step);
    if step == CommitWrite {
      SeenIsNow(g, lay, init, f);
    }
  }

  lemma LogPending(g: Geometry, lay: Layout, init: Disk, f: Files, step: Step)
    requires FilesOk(g, lay, init, f) && Can(g, lay, f, Log(step)) && step != CommitDone && step != RecoverDone
    ensures var t := After(g, lay, f, Log(step));
      t.s.up ==> Current(Seen(init, t.s), t.Now(), lay, t.pending)
  {
    hide Inv, Enabled, Do, Replay, Seen, Stores, Placed, WriteRun, Current, IsPending;
    LogCases(g, init, f.s, step);
    LogSeen(g, init, f.s, step);
    var t := After(g, lay, f, Log(step));
    PendingAfter(f.pending, if step.EndOp? then step.op else |t.s.ops| - |f.s.ops|);
    if t.s.up {
      PendingKept(Seen(init, f.s), f.Now(), lay, f.pending, t.pending);
    }
  }

  lemma LogEnds(g: Geometry, lay: Layout, init: Disk, f: Files, step: Step)
    requires FilesOk(g, lay, init, f) && Can(g, lay, f, Log(step)) && (step == CommitDone || step == RecoverDone)
    ensures var t := After(g, lay, f, Log(step));
      t.s.up ==> Current(Seen(init, t.s), t.Now(), lay, t.pending)
  {
    hide Inv, Enabled, Do, Replay, Seen, Stores, Placed, WriteRun, Current, IsPending;
    LogCases(g, init, f.s, step);
    LogSeen(g, init, f.s, step);
    var t := After(g, lay, f, Log(step));
    assert t.pending == f.pending == [] && t.Now() == f.Now();
    if step == CommitDone {
      SeenIsNow(g, lay, init, f);
    }
    NothingPending(Seen(init, t.s), f.Now(), lay);
  }

  lemma KeepLog(g: Geometry, lay: Layout, init: Disk, f: Files, step: Step)
    requires FilesOk(g, lay, init, f) && Can(g, lay, f, Log(step))
    ensures FilesOk(g, lay, init, After(g, lay, f, Log(step)))
  {
    hide Inv, Enabled, Do, Replay, Seen, Stores, Placed, WriteRun, Current;
    KeepStep(g, init, f.s, step);
    LogCases(g, init, f.s, step);
    LogSaves(g, lay, init, f, step);
    if step == CommitDone || step == RecoverDone {
      LogEnds(g, lay, init, f, step);
    } else {
      LogPending(g, lay, init, f, step);
    }
  }

  lemma KeepFiles(g: Geometry, lay: Layout, init: Disk, f: Files, e: FileStep)
    requires FilesOk(g, lay, init, f) && Can(g, lay, f, e)
    ensures FilesOk(g, lay, init, After(g, lay, f, e))
  {
    hide FilesOk, Can, After;
    match e
    case Log(step) => KeepLog(g, lay, init, f, step);
    case Write(_, _, _, _) => KeepWrite(g, lay, init, f, e);
    case LogWrite(_, _) => KeepLogWrite(g, lay, init, f, e);
    case Reboot => KeepReboot(g, lay, init, f);
  }

  // ---- whole runs ----

  /** A run from the first boot on disk d, which holds file system fs0, with a log of at least LOGSIZE blocks. */
  ghost predicate FileRun(g: Geometry, lay: Layout, d: Disk, fs0: Fs, ss: seq<Files>, es: seq<FileStep>) {
    && DiskOk(g, d) && g.size >= LOGSIZE && Placed(g, lay, fs0) && Stores(Recovered(g, d), fs0, lay)
    && |ss| == |es| + 1 && ss[0] == Files(Boot(g, d, [], []), [fs0], [], 0, [])
    && forall i :: 0 <= i < |es| ==> Goes(g, lay, ss[i], es[i], ss[i + 1])
  }

  ghost predicate Goes(g: Geometry, lay: Layout, f: Files, e: FileStep, t: Files) {
    Can(g, lay, f, e) && t == After(g, lay, f, e)
  }

  lemma {:induction false} FilesReachable(
    g: Geometry, lay: Layout, d: Disk, fs0: Fs, ss: seq<Files>, es: seq<FileStep>, i: nat)
    requires FileRun(g, lay, d, fs0, ss, es) && i < |ss|
    ensures FilesOk(g, lay, Recovered(g, d), ss[i]) && ss[i].chain[0] == fs0
  {
    hide Can, After, FilesOk, Placed, Stores, Recovered, Boot, DiskOk;
    if i == 0 {
      BootOk(g, lay, d, fs0);
    } else {
      FilesReachable(g, lay, d, fs0, ss, es, i - 1);
      assert Goes(g, lay, ss[i - 1], es[i - 1], ss[i]);
      hide FileRun;
      KeepFiles(g, lay, Recovered(g, d), ss[i - 1], es[i - 1]);
      ChainStart(g, lay, ss[i - 1], es[i - 1]);
    }
  }

  lemma ChainStart(g: Geometry, lay: Layout, f: Files, e: FileStep)
    requires Can(g, lay, f, e)
    ensures |After(g, lay, f, e).chain| > 0 && After(g, lay, f, e).chain[0] == f.chain[0]
  {
    hide Enabled, Do, WriteChunk, ChangesLogged;
  }

  lemma BootOk(g: Geometry, lay: Layout, d: Disk, fs0: Fs)
    requires DiskOk(g, d) && g.size >= LOGSIZE && Placed(g, lay, fs0) && Stores(Recovered(g, d), fs0, lay)
    ensures FilesOk(g, lay, Recovered(g, d), Files(Boot(g, d, [], []), [fs0], [], 0, []))
  {
  }

  /**
   Files after a crash.  At every moment of every run, with operations in any stage and a commit or a recovery half
   done: a crash followed by a completed recovery leaves on disk exactly the file system after a first part of the
   chunks that have been written, each of them whole; and if no operation is in progress and no commit runs, after
   all of them.
   */
  lemma CrashedFiles(g: Geometry, lay: Layout, d: Disk, fs0: Fs, ss: seq<Files>, es: seq<FileStep>, i: nat)
    requires FileRun(g, lay, d, fs0, ss, es) && i < |ss|
    ensures var f := ss[i];
      && DiskOk(g, f.s.disk)
      && |f.chain| == |f.writes| + 1 && f.chain[0] == fs0 && WriteRun(f.chain, f.writes)
      && f.saved <= |f.writes| && Stores(Recovered(g, f.s.disk), f.chain[f.saved], lay)
      && (f.s.up && !f.s.committing && f.s.ops == [] ==> Stores(Recovered(g, f.s.disk), f.chain[|f.writes|], lay))
  {
    FilesReachable(g, lay, d, fs0, ss, es, i);
    var f, init := ss[i], Recovered(g, d);
    CrashSafe(g, init, f.s);
    SeenAfterCommit(init, f.s);
    StoresSame(g, lay, Replay(init, f.s.history), Recovered(g, f.s.disk), f.chain[f.saved]);
    if f.s.up && !f.s.committing && f.s.ops == [] {
      InvFacts(g, init, f.s);
      NothingPending(Seen(init, f.s), f.Now(), lay);
      StoresSame(g, lay, Seen(init, f.s), Recovered(g, f.s.disk), f.chain[|f.writes|]);
    }
  }

  /** What a crash would leave of the chunks now, every later crash leaves too. */
  lemma {:induction false} SavedStays(
    g: Geometry, lay: Layout, d: Disk, fs0: Fs, ss: seq<Files>, es: seq<FileStep>, i: nat, j: nat)
    requires FileRun(g, lay, d, fs0, ss, es) && i <= j < |ss|
    ensures ss[i].saved <= ss[j].saved && ss[i].saved <= |ss[i].writes| && ss[j].saved <= |ss[j].writes|
    ensures ss[j].writes[..ss[i].saved] == ss[i].writes[..ss[i].saved]
    decreases j
  {
    hide Inv, Stores, WriteRun, Placed, Recovered, DiskOk, Seen;
    FilesReachable(g, lay, d, fs0, ss, es, i);
    FilesReachable(g, lay, d, fs0, ss, es, j);
    if i < j {
      SavedStays(g, lay, d, fs0, ss, es, i, j - 1);
      assert Goes(g, lay, ss[j - 1], es[j - 1], ss[j]);
      hide FileRun, Can, After;
      SavedOnce(g, lay, ss[j - 1], es[j - 1], ss[i].saved);
    }
  }

  lemma SavedOnce(g: Geometry, lay: Layout, f: Files, e: FileStep, n: nat)
    requires Can(g, lay, f, e) && n <= f.saved
    ensures var t := After(g, lay, f, e);
      f.saved <= t.saved && n <= |t.writes| && t.writes[..n] == f.writes[..n]
  {
    hide Enabled, Do, WriteChunk, ChangesLogged;
  }
}
