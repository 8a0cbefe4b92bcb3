/**
 The log of log.c as the source writes it: the global `log` with its in-memory header array, and the
 loops that copy blocks between pinned buffers, log and home locations.  Each bwrite is recorded in
 `writes`, and commit and recovery are proved to issue exactly the plans of LogDisk, whose prefixes are
 the states a crash can leave.  `view` is the state of the protocol, and each method is a stretch of its steps.
 */
module Log {
  import opened Params
  import opened Common
  import opened LogDisk
  import opened LogProtocol

  /** The pinned blocks left after the first k of h have been written. */
  ghost function Unpin(m: map<nat, Block>, h: seq<nat>, k: nat): (m': map<nat, Block>)
    requires k <= |h|
    ensures forall b :: b in m' ==> b in m
  {
    if k == 0 then m else Unpin(m, h, k - 1) - {h[k - 1]}
  }

  lemma {:induction false} Unpinned(m: map<nat, Block>, h: seq<nat>, k: nat)
    requires k <= |h|
    ensures forall i :: 0 <= i < k ==> h[i] !in Unpin(m, h, k)
  {
    if k > 0 {
      Unpinned(m, h, k - 1);
    }
  }

  lemma UnpinAll(m: map<nat, Block>, h: seq<nat>)
    requires forall b :: b in m ==> b in h
    ensures Unpin(m, h, |h|) == map[]
  {
    Unpinned(m, h, |h|);
    assert forall b :: b !in Unpin(m, h, |h|);
  }

  /** The log area of the two disks is the same. */
  ghost predicate SameLog(g: Geometry, d: Disk, e: Disk)
    requires g.Sane() && |d| == |e| == g.blocks
  {
    forall l :: g.start <= l < g.start + g.size ==> d[l] == e[l]
  }

  /** Writing a home block leaves the log alone. */
  lemma InstallStep(g: Geometry, d0: Disk, d: Disk, h: seq<nat>, k: nat)
    requires g.Sane() && Entries(g, h) && k < |h| && |d| == |d0| == g.blocks && SameLog(g, d, d0)
    ensures g.Home(h[k])
    ensures SameLog(g, d[h[k] := d[g.start + 1 + k]], d0)
  {
  }

  class Log {
    // struct log
    const geometry: Geometry
    var outstanding: int
    var committing: bool
    var sleepers: set<nat>   // the processes asleep on the log
    var n: nat               // lh.n
    const block: array<nat>  // lh.block
    // the disk under the buffer cache, and the buffers pinned by B_DIRTY
    var disk: Disk
    var pinned: map<nat, Block>
    // the disk at boot, and every bwrite since, in order
    ghost const booted: Disk
    ghost var writes: seq<Write>
    ghost var view: State

    ghost predicate Valid()
      reads this, block
    {
      && geometry.Sane() && |disk| == geometry.blocks
      && disk[geometry.start].Head? && |disk[geometry.start].block| == LOGSIZE
      && block.Length == LOGSIZE && n <= LOGSIZE
    }

    /** The disk is what the recorded writes made of the disk at boot. */
    ghost predicate Recorded()
      reads this
    {
      OnDisk(booted, writes) && disk == Apply(booted, writes, |writes|)
    }

    /** What the protocol says of the fields while log.lock is free. */
    ghost predicate UnderLock()
      requires Valid()
      reads this, block
    {
      && view.up && view.committing == committing
      && view.outstanding == outstanding == |view.ops| && view.sleepers == sleepers
      && (!committing ==> view.lh == Lh() && view.disk == disk && view.cache == pinned)
    }

    /** ... and no commit or recovery runs. */
    ghost predicate Tied()
      requires Valid()
      reads this, block
    {
      UnderLock() && !committing
    }

    function Lh(): seq<nat>
      requires n <= block.Length
      reads this, block
    {
      block[..n]
    }

    /** bread: the cached copy of a pinned block, otherwise the block on disk. */
    function Bread(b: nat): Block
      requires b < |disk|
      reads this
    {
      if b in pinned then pinned[b] else disk[b]
    }

    /** bwrite: the write clears B_DIRTY, so the buffer is no longer pinned. */
    method Bwrite(b: nat, data: Block)
      requires Valid() && Recorded() && b < |disk| && (b == geometry.start ==> data.Head? && |data.block| == LOGSIZE)
      modifies this`disk, this`pinned, this`writes
      ensures Valid() && Recorded() && disk == old(disk)[b := data]
      ensures pinned == old(pinned) - {b}
      ensures b !in old(pinned) ==> pinned == old(pinned)
      ensures writes == old(writes) + [Write(b, data)]
    {
      ApplySnoc(booted, writes, Write(b, data));
      disk := disk[b := data];
      pinned := pinned - {b};
      assert b !in old(pinned) ==> pinned == old(pinned);
      writes := writes + [Write(b, data)];
    }

    /** bread of two blocks, memmove of one into the other, bwrite. */
    method CopyBlock(from: nat, to: nat)
      requires Valid() && Recorded() && from < |disk| && to < |disk| && to != geometry.start
      modifies this`disk, this`pinned, this`writes
      ensures Valid() && Recorded() && disk == old(disk)[to := old(Bread(from))]
      ensures pinned == old(pinned) - {to}
      ensures to !in old(pinned) ==> pinned == old(pinned)
      ensures writes == old(writes) + [Write(to, old(Bread(from)))]
    {
      Bwrite(to, Bread(from));
    }

    constructor (geometry: Geometry, disk: Disk)
      requires DiskOk(geometry, disk)
      ensures Valid() && Recorded() && this.geometry == geometry && this.disk == disk
      ensures fresh(block) && n == 0 && outstanding == 0 && !committing && pinned == map[] && writes == []
      ensures sleepers == {} && view == Boot(geometry, disk, [], [])
    {
      this.geometry := geometry;
      this.disk, booted := disk, disk;
      outstanding, committing, sleepers, n, pinned, writes := 0, false, {}, 0, map[], [];
      view := Boot(geometry, disk, [], []);
      block := new nat[LOGSIZE];
    }

    method ReadHead()
      requires Valid() && Recorded() && DiskOk(geometry, disk) && pinned == map[]
      modifies this`n, block
      ensures Valid() && Recorded() && Lh() == Logged(geometry, disk)
    {
      var lh := Bread(geometry.start);
      n := lh.n;
      var i := 0;
      while i < n
        invariant 0 <= i <= n == lh.n
        invariant block[..i] == lh.block[..i]
      {
        block[i] := lh.block[i];
        i := i + 1;
      }
    }

    /** write_head: one disk write, of a header block whose first n entries are replaced. */
    method WriteHead()
      requires Valid() && Recorded() && geometry.start !in pinned
      modifies this`disk, this`pinned, this`writes
      ensures Valid() && Recorded()
      ensures disk == old(disk)[geometry.start := HeadBlock(old(disk[geometry.start]), Lh())]
      ensures pinned == old(pinned)
      ensures writes == old(writes) + [Write(geometry.start, HeadBlock(old(disk[geometry.start]), Lh()))]
    {
      var was := Bread(geometry.start);
      var hb := was.(n := n);
      var i := 0;
      while i < n
        invariant 0 <= i <= n
        invariant hb.Head? && hb.n == n && hb.block == Lh()[..i] + was.block[i..]
      {
        hb := hb.(block := hb.block[i := block[i]]);
        i := i + 1;
      }
      assert hb == HeadBlock(was, Lh());
      Bwrite(geometry.start, hb);
    }

    /** One round of write_log: the pinned copy of h[tail] goes to log block `tail`. */
    method WriteLogOne(ghost h: seq<nat>, tail: nat, b: nat)
      requires Valid() && Recorded() && tail < |h| < geometry.size && b == h[tail] && b < geometry.blocks
      requires b in pinned && forall x :: x in pinned ==> geometry.Home(x)
      modifies this`disk, this`pinned, this`writes
      ensures Valid() && Recorded() && pinned == old(pinned)
      ensures disk == old(disk)[geometry.start + 1 + tail := pinned[b]]
      ensures writes == old(writes) + [Write(geometry.start + 1 + tail, pinned[b])]
    {
      CopyBlock(b, geometry.start + tail + 1);
    }

    /** write_log: the pinned copies go to consecutive log blocks. */
    method WriteLog(ghost h: seq<nat>)
      requires Valid() && Recorded() && h == Lh() && Entries(geometry, h)
      requires forall b :: b in pinned <==> b in h
      modifies this`disk, this`pinned, this`writes
      ensures Valid() && Recorded() && pinned == old(pinned)
      ensures disk[geometry.start] == old(disk[geometry.start])
      ensures forall i :: 0 <= i < n ==> disk[geometry.start + 1 + i] == pinned[h[i]]
      ensures writes == old(writes) + LogCopies(geometry, pinned, h, n)
    {
      hide Apply;
      var tail := 0;
      while tail < n
        invariant 0 <= tail <= n
        invariant Valid() && Recorded() && pinned == old(pinned)
        invariant disk[geometry.start] == old(disk[geometry.start])
        invariant forall i :: 0 <= i < tail ==> disk[geometry.start + 1 + i] == pinned[h[i]]
        invariant writes == old(writes) + LogCopies(geometry, pinned, h, tail)
      {
        WriteLogOne(h, tail, block[tail]);
        tail := tail + 1;
      }
    }

    /** One round of install_trans: log block `tail` goes to its home location. */
    method InstallOne(ghost h: seq<nat>, tail: nat, b: nat, ghost d0: Disk)
      requires Valid() && Recorded() && Entries(geometry, h) && tail < |h| && b == h[tail]
      requires |d0| == geometry.blocks && SameLog(geometry, disk, d0)
      requires forall x :: x in pinned ==> geometry.Home(x)
      modifies this`disk, this`pinned, this`writes
      ensures Valid() && Recorded() && SameLog(geometry, disk, d0)
      ensures pinned == old(pinned) - {b}
      ensures writes == old(writes) + [Write(b, d0[geometry.start + 1 + tail])]
    {
      assert geometry.start + tail + 1 !in pinned;
      InstallStep(geometry, d0, disk, h, tail);
      CopyBlock(geometry.start + tail + 1, b);
    }

    /** install_trans: each log block goes to its home location. */
    method InstallTrans(ghost h: seq<nat>)
      requires Valid() && Recorded() && h == Lh() && Entries(geometry, h)
      requires forall b :: b in pinned ==> geometry.Home(b)
      modifies this`disk, this`pinned, this`writes
      ensures Valid() && Recorded() && pinned == Unpin(old(pinned), h, n)
      ensures disk[geometry.start] == old(disk[geometry.start])
      ensures writes == old(writes) + Installs(geometry, old(disk), h, n)
    {
      var tail := 0;
      while tail < n
        invariant 0 <= tail <= n
        invariant Valid() && Recorded()
        invariant pinned == Unpin(old(pinned), h, tail)
        invariant SameLog(geometry, disk, old(disk))
        invariant writes == old(writes) + Installs(geometry, old(disk), h, tail)
      {
        InstallOne(h, tail, block[tail], old(disk));
        tail := tail + 1;
      }
    }

    /** The first half of commit(): write_log, and the write_head that commits. */
    method CommitLog(ghost h: seq<nat>)
      requires Valid() && Recorded() && h == Lh() && CanCommit(geometry, disk, pinned, h)
      modifies this`disk, this`pinned, this`writes
      ensures Valid() && Recorded() && pinned == old(pinned)
      ensures disk[geometry.start] == HeadBlock(old(disk)[geometry.start], h)
      ensures forall i :: 0 <= i < |h| ==> disk[geometry.start + 1 + i] == pinned[h[i]]
      ensures writes == old(writes) + LogCopies(geometry, pinned, h, |h|)
                        + [Write(geometry.start, HeadBlock(old(disk)[geometry.start], h))]
    {
      hide Apply, LogCopies;
      WriteLog(h);
      WriteHead();
    }

    /** The second half: install_trans, and the write_head that clears the log. */
    method CommitInstall(ghost h: seq<nat>)
      requires Valid() && Recorded() && h == Lh() && Entries(geometry, h) && forall b :: b in pinned <==> b in h
      modifies this`disk, this`pinned, this`writes, this`n
      ensures Valid() && Recorded() && n == 0 && pinned == map[]
      ensures writes == old(writes) + Installs(geometry, old(disk), h, |h|)
                        + [Write(geometry.start, HeadBlock(old(disk)[geometry.start], []))]
    {
      hide Apply, Installs;
      InstallTrans(h);
      UnpinAll(old(pinned), h);
      n := 0;
      WriteHead();
    }

    /**
     commit(): with n > 0 its bwrites are the commit plan, in that order; unless every buffer is pinned, so that
     bget finds none for the first log block and panics.
     */
    method Commit(ghost h: seq<nat>) returns (panic: bool)
      requires Valid() && Recorded() && h == Lh() && Ready(geometry, disk, pinned, h)
      modifies this`disk, this`pinned, this`writes, this`n
      ensures Valid() && Recorded()
      ensures panic <==> |h| >= NBUF
      ensures panic ==> disk == old(disk) && pinned == old(pinned) && n == old(n) && writes == old(writes)
      ensures !panic ==> n == 0 && pinned == map[]
      ensures !panic ==> writes == old(writes) + PlanOf(geometry, old(disk), old(pinned), h)
    {
      hide Apply, LogCopies, Installs, HeadBlock;
      panic := false;
      if n > 0 {
        if n >= NBUF {
          return true;
        }
        ghost var was, d, c := writes, disk, pinned;
        CommitLog(h);
        ghost var e := disk;
        PlanParts(geometry, d[geometry.start], c, h, e);
        CommitInstall(h);
        Regroup(was, LogCopies(geometry, c, h, |h|), [Write(geometry.start, HeadBlock(d[geometry.start], h))],
                Installs(geometry, e, h, |h|), [Write(geometry.start, HeadBlock(e[geometry.start], []))]);
      }
    }

    /** recover_from_log(): its bwrites are the recovery plan, in that order. */
    method Recover()
      requires Valid() && Recorded() && DiskOk(geometry, disk) && pinned == map[]
      modifies this`disk, this`pinned, this`writes, this`n, block
      ensures Valid() && Recorded() && n == 0 && pinned == map[]
      ensures writes == old(writes) + RecoverPlan(geometry, old(disk))
    {
      ReadHead();
      InstallTrans(Lh());
      n := 0;
      WriteHead();
    }

    /** The writes since the disk was d made it what it is. */
    lemma Since(d: Disk, was: seq<Write>, plan: seq<Write>)
      requires Recorded() && OnDisk(booted, was) && d == Apply(booted, was, |was|) && writes == was + plan
      ensures OnDisk(d, plan) && disk == Apply(d, plan, |plan|)
    {
      hide Apply, OnDisk;
      ApplyJoined(booted, was, plan);
    }

    /** initlog: the protocol's steps from a boot until the log can be used. */
    method RecoverFromLog()
      requires Valid() && Recorded() && DiskOk(geometry, disk) && pinned == map[]
      requires !committing && outstanding == 0 && sleepers == {}
      requires exists durable, history :: view == Boot(geometry, disk, durable, history)
      modifies this`disk, this`pinned, this`writes, this`n, this`view, block
      ensures Valid() && Recorded() && Tied()
      ensures writes == old(writes) + RecoverPlan(geometry, old(disk))
      ensures var r := Repeat(geometry, old(view), RecoverWrite, |RecoverPlan(geometry, old(disk))|);
        Enabled(geometry, r, RecoverDone) && view == Do(geometry, r, RecoverDone)
    {
      hide RecoverPlan, Apply, DiskOk;
      ghost var d, was := disk, writes;
      ghost var plan := RecoverPlan(geometry, d);
      Recover();
      Since(d, was, plan);
      RecoverWrites(geometry, view, |plan|);
      view := Do(geometry, Repeat(geometry, view, RecoverWrite, |plan|), RecoverDone);
    }

    /**
     One round of begin_op's loop under log.lock, by process p: it is admitted, or goes to sleep.  Whoever is
     admitted finds room for all it may log, and whoever sleeps has something to wait for.
     */
    method TryBeginOp(p: nat) returns (admitted: bool)
      requires Valid() && UnderLock() && Enabled(geometry, view, BeginOp(p))
      modifies this`outstanding, this`sleepers, this`view
      ensures Valid() && UnderLock() && view == Do(geometry, old(view), BeginOp(p))
      ensures admitted <==> p !in sleepers
      ensures admitted ==> |view.ops| == |old(view.ops)| + 1
      ensures Books(geometry, old(view)) ==> Books(geometry, view)
      ensures forall m: nat :: m <= MAXOPBLOCKS && Books(geometry, old(view)) && SpaceOk(m, old(view)) ==>
        SpaceOk(m, view)
      ensures Books(geometry, old(view)) && SleepOk(old(view)) ==> SleepOk(view)
    {
      hide Books, SpaceOk, SleepOk;
      if committing {
        sleepers, admitted := sleepers + {p}, false;
      } else if n + (outstanding + 1) * MAXOPBLOCKS > LOGSIZE {
        sleepers, admitted := sleepers + {p}, false;
      } else {
        outstanding := outstanding + 1;
        admitted := true;
      }
      view := Do(geometry, view, BeginOp(p));
      Begun(old(view), p);
    }

    /** What a round of begin_op keeps. */
    lemma Begun(s: State, p: nat)
      requires Enabled(geometry, s, BeginOp(p))
      ensures var t := Do(geometry, s, BeginOp(p));
        && (Books(geometry, s) ==> Books(geometry, t))
        && (forall m: nat :: m <= MAXOPBLOCKS && Books(geometry, s) && SpaceOk(m, s) ==> SpaceOk(m, t))
        && (Books(geometry, s) && SleepOk(s) ==> SleepOk(t))
    {
      hide Books, SpaceOk, SleepOk, Do, Enabled;
      if Books(geometry, s) {
        KeepBooks(geometry, s, BeginOp(p));
        forall m: nat | m <= MAXOPBLOCKS && SpaceOk(m, s)
          ensures SpaceOk(m, Do(geometry, s, BeginOp(p)))
        {
          SpaceBegin(geometry, s, m, p);
        }
        if SleepOk(s) {
          KeepSleepers(geometry, s, BeginOp(p));
        }
      }
    }

    /** end_op by operation i up to the release of log.lock; "log.committing" would be a panic. */
    method LeaveOp(ghost i: nat) returns (doCommit: bool)
      requires Valid() && Tied() && Enabled(geometry, view, Step.EndOp(i))
      modifies this`outstanding, this`committing, this`sleepers, this`view
      ensures Valid() && view == Do(geometry, old(view), Step.EndOp(i)) && outstanding == old(outstanding) - 1
      ensures doCommit <==> old(outstanding) == 1
      ensures UnderLock() && committing == doCommit
    {
      doCommit := false;
      outstanding := outstanding - 1;
      if outstanding == 0 {
        doCommit := true;
        committing := true;
      } else {
        sleepers := {};
      }
      view := Do(geometry, view, Step.EndOp(i));
    }

    /** The protocol's invariant gives what end_op and log_write rely on. */
    lemma CallersMayRely(init: Disk)
      requires Valid() && Tied() && Inv(geometry, init, view)
      ensures Ready(geometry, disk, pinned, Lh()) && NoRepeats(Lh())
    {
    }

    /** What the protocol makes of a commit that runs to its end. */
    lemma WholeCommit(s: State, h: seq<nat>)
      requires s.up && s.committing && s.pos == 0 && s.lh == h && s.outstanding == |s.ops|
      requires Ready(geometry, s.disk, s.cache, h) && |h| < NBUF && s.plan == PlanOf(geometry, s.disk, s.cache, h)
      ensures var r := Repeat(geometry, s, CommitWrite, |s.plan|);
        && OnDisk(s.disk, s.plan) && Enabled(geometry, r, CommitDone)
        && var t := Do(geometry, r, CommitDone);
          t.up && !t.committing && t.outstanding == s.outstanding && t.ops == s.ops && t.lh == [] && t.sleepers == {}
          && t.disk == Apply(s.disk, s.plan, |s.plan|) && t.cache == map[]
    {
      hide CommitPlan, Apply;
      ReadyCommits(geometry, s.disk, s.cache, h);
      CommitWrites(geometry, s, |s.plan|);
    }

    /**
     end_op by operation i.  If others are in progress, it is one step of the protocol; otherwise it is that step,
     all block writes of the commit, and the end of the commit; or the step alone if the commit panics.
     */
    method EndOp(ghost i: nat) returns (panic: bool)
      requires Valid() && Recorded() && Tied() && Enabled(geometry, view, Step.EndOp(i))
      requires outstanding == 1 ==> Ready(geometry, disk, pinned, Lh())
      modifies this`outstanding, this`committing, this`sleepers, this`disk, this`pinned, this`writes, this`n, this`view
      ensures Valid() && Recorded() && outstanding == old(outstanding) - 1
      ensures panic <==> old(outstanding) == 1 && old(n) >= NBUF
      ensures panic || outstanding > 0 ==>
        view == Do(geometry, old(view), Step.EndOp(i)) && writes == old(writes)
      ensures !panic ==> Tied()
      ensures !panic && outstanding == 0 ==> var s := Do(geometry, old(view), Step.EndOp(i));
        && writes == old(writes) + s.plan
        && var r := Repeat(geometry, s, CommitWrite, |s.plan|);
          Enabled(geometry, r, CommitDone) && view == Do(geometry, r, CommitDone)
    {
      hide Apply, PlanOf, Ready, Repeat;
      ghost var h, d, was := Lh(), disk, writes;
      panic := false;
      var doCommit := LeaveOp(i);
      if doCommit {
        ghost var s := view;
        panic := Commit(h);
        if panic {
          return;
        }
        WholeCommit(s, h);
        Since(d, was, s.plan);
        committing, sleepers := false, {};
        view := Do(geometry, Repeat(geometry, s, CommitWrite, |s.plan|), CommitDone);
      }
    }

    /** The test with which log_write begins, by operation i and without log.lock. */
    method LogWriteTest(ghost i: nat) returns (panic: bool)
      requires Valid() && Tied() && i < |view.ops| && !view.ops[i].cleared
      modifies this`view
      ensures Valid() && Tied()
      ensures panic <==> !Enabled(geometry, old(view), Check(i))
      ensures view == if panic then old(view) else Do(geometry, old(view), Check(i))
    {
      if n >= LOGSIZE || n >= geometry.size - 1 {
        return true;
      }
      if outstanding < 1 {
        return true;
      }
      view := Do(geometry, view, Check(i));
      panic := false;
    }

    /** log_write under log.lock, of a buffer whose data the caller has changed: absorbed, or a new entry. */
    method LogWrite(ghost i: nat, b: nat, data: Block)
      requires Valid() && Tied() && NoRepeats(Lh()) && Enabled(geometry, view, Append(i, b, data))
      modifies this`n, this`pinned, this`view, block
      ensures Valid() && Tied() && view == Do(geometry, old(view), Append(i, b, data))
      ensures NoRepeats(Lh()) && b in Lh() && forall x :: x in old(Lh()) ==> x in Lh()
    {
      var k := 0;
      while k < n
        invariant 0 <= k <= n
        invariant b !in Lh()[..k]
      {
        if block[k] == b {
          break;
        }
        k := k + 1;
      }
      ghost var lh := Lh();
      if k == n {
        assert b !in lh;
        block[k] := b;
        n := n + 1;
        assert Lh() == lh + [b];
      } else {
        block[k] := b;
        assert lh[k] == b;
        assert Lh() == lh;
      }
      pinned := pinned[b := data];
      view := Do(geometry, view, Append(i, b, data));
    }
  }
}
