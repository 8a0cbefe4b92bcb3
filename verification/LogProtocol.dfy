/**
 Concurrent operations over the log of log.c, as a state machine: begin_op, log_write and end_op of any
 number of processes, the block writes of a commit one by one, crashes at any moment, and the block
 writes of the recovery that follows, which may crash again.  A step is a stretch under log.lock, one
 block write, or the test that log_write makes before it takes log.lock.
 */
module LogProtocol {
  import opened Params
  import opened Common
  import opened LogDisk

  /** An operation between begin_op and end_op: the blocks it logged, the number of transactions that had
      committed when it began, and whether it has passed the test of log_write and is about to add a block. */
  datatype Op = Op(blocks: set<nat>, txn: nat, cleared: bool)

  type Txn = map<nat, Block>

  datatype State = State(
    disk: Disk,
    up: bool,               // false while recover_from_log runs after a boot
    // struct log, and the processes asleep on it in begin_op
    outstanding: int,
    committing: bool,
    lh: seq<nat>,
    sleepers: set<nat>,
    // contents of the buffers pinned by log_write
    cache: Txn,
    // the block writes of the commit or recovery in progress, and how many are done
    base: Disk,
    plan: seq<Write>,
    pos: nat,
    // history: operations in progress, those that ended in the open group, and what is durable
    ops: seq<Op>,
    ended: seq<Op>,
    durable: seq<Op>,
    history: seq<Txn>)

  datatype Step =
    // one round of begin_op's loop by process p
    | BeginOp(p: nat)
    // log_write by operation op: the test of lh.n without the lock; then the entry, under the lock
    | Check(op: nat)
    | Append(op: nat, bno: nat, data: Block)
    | EndOp(op: nat)
    | CommitWrite
    | CommitDone
    // kill wakes process p
    | Kill(p: nat)
    | Crash
    | RecoverWrite
    | RecoverDone

  /** log_write panics with "too big a transaction". */
  predicate TooBig(g: Geometry, s: State) {
    |s.lh| >= LOGSIZE || |s.lh| >= g.size - 1
  }

  /** begin_op admits one more operation. */
  predicate HasRoom(s: State) {
    |s.lh| + (s.outstanding + 1) * MAXOPBLOCKS <= LOGSIZE
  }

  /**
   The block writes of a commit go through: bget finds a buffer for the first log block, which it cannot when
   every buffer is pinned, and write_log comes upon no block that is itself pinned.
   */
  ghost predicate Writable(g: Geometry, h: seq<nat>) {
    |h| < NBUF && g.start + |h| < g.blocks && forall b :: b in h ==> b <= g.start || g.start + |h| < b
  }

  /** The guards of the code, what callers of log_write and end_op must respect, and no panic.  An entry past
      the end of the header array is not followed. */
  ghost predicate Enabled(g: Geometry, s: State, step: Step) {
    match step
    case BeginOp(p) => s.up && p !in s.sleepers
    case Check(i) => s.up && i < |s.ops| && !s.ops[i].cleared && !TooBig(g, s)
    case Append(i, b, _) =>
      s.up && i < |s.ops| && s.ops[i].cleared && g.Home(b) && |AbsorbInto(s.lh, b)| <= LOGSIZE
    case EndOp(i) => s.up && i < |s.ops| && !s.ops[i].cleared
    case CommitWrite =>
      s.up && s.committing && Writable(g, s.lh) && s.pos < |s.plan| && s.plan[s.pos].bno < |s.disk|
    case CommitDone => s.up && s.committing && Writable(g, s.lh) && s.pos == |s.plan|
    case Kill(p) => s.up
    case Crash => DiskOk(g, s.disk)
    case RecoverWrite => !s.up && s.pos < |s.plan| && s.plan[s.pos].bno < |s.disk|
    case RecoverDone => !s.up && s.pos == |s.plan|
  }

  ghost function Boot(g: Geometry, d: Disk, durable: seq<Op>, history: seq<Txn>): State
    requires DiskOk(g, d)
  {
    State(d, false, 0, false, [], {}, map[], d, RecoverPlan(g, d), 0, [], [], durable, history)
  }

  function AbsorbInto(lh: seq<nat>, b: nat): seq<nat> {
    if b in lh then lh else lh + [b]
  }

  /** What commit() writes; the second disjunct only gives a value where Writable fails. */
  ghost function PlanOf(g: Geometry, d: Disk, c: Txn, h: seq<nat>): seq<Write> {
    if h == [] || !CanPlan(g, d, c, h) then [] else CommitPlan(g, d[g.start], c, h)
  }

  ghost predicate CanPlan(g: Geometry, d: Disk, c: Txn, h: seq<nat>) {
    && g.Sane() && |d| == g.blocks && d[g.start].Head? && |h| <= |d[g.start].block|
    && Listed(g, h) && g.start + |h| < g.blocks && forall i :: 0 <= i < |h| ==> h[i] in c
  }

  ghost function DoWrite(s: State): State
    requires s.pos < |s.plan| && s.plan[s.pos].bno < |s.disk|
  {
    var w := s.plan[s.pos];
    s.(disk := s.disk[w.bno := w.data], pos := s.pos + 1)
  }

  ghost function Do(g: Geometry, s: State, step: Step): State
    requires Enabled(g, s, step)
  {
    match step
    case BeginOp(p) =>
      if s.committing || !HasRoom(s) then s.(sleepers := s.sleepers + {p})
      else s.(outstanding := s.outstanding + 1, ops := s.ops + [Op({}, |s.history|, false)])
    case Check(i) =>
      s.(ops := s.ops[i := s.ops[i].(cleared := true)])
    case Append(i, b, data) =>
      s.(lh := AbsorbInto(s.lh, b), cache := s.cache[b := data],
         ops := s.ops[i := s.ops[i].(blocks := s.ops[i].blocks + {b}, cleared := false)])
    case EndOp(i) =>
      var t := s.(outstanding := s.outstanding - 1,
                  ops := RemoveAt(s.ops, i), ended := s.ended + [s.ops[i]]);
      if t.outstanding == 0 then
        t.(committing := true, base := s.disk, pos := 0, plan := PlanOf(g, s.disk, s.cache, s.lh))
      else t.(sleepers := {})
    case CommitWrite =>
      // the first write_head is the commit point
      if s.pos == |s.lh| then
        DoWrite(s).(history := s.history + [s.cache], durable := s.durable + s.ended, ended := [])
      else DoWrite(s)
    case CommitDone =>
      s.(committing := false, lh := [], cache := map[], plan := [], pos := 0, base := s.disk, ended := [],
         sleepers := {})
    case Kill(p) => s.(sleepers := s.sleepers - {p})
    case Crash => Boot(g, s.disk, s.durable, s.history)
    case RecoverWrite => DoWrite(s)
    case RecoverDone => s.(up := true, plan := [], pos := 0, base := s.disk)
  }

  /** The home blocks after a list of whole transactions. */
  ghost function Replay(d: Disk, txns: seq<Txn>): (e: Disk)
    ensures |e| == |d|
  {
    if txns == [] then d else Overlay(Replay(d, txns[..|txns| - 1]), txns[|txns| - 1])
  }

  lemma ReplaySnoc(d: Disk, txns: seq<Txn>, t: Txn)
    ensures Replay(d, txns + [t]) == Overlay(Replay(d, txns), t)
  {
    assert (txns + [t])[..|txns|] == txns;
  }

  // ---- what the fields mean, in every run ----

  /** The counters, the header and the pinned blocks agree, whoever the callers are. */
  ghost predicate Books(g: Geometry, s: State) {
    && g.Sane() && |s.disk| == g.blocks
    && s.outstanding == |s.ops|
    && Listed(g, s.lh) && (forall b :: b in s.cache <==> b in s.lh)
    && (forall i :: 0 <= i < |s.ops| ==> s.ops[i].txn == |s.history| && s.ops[i].blocks <= s.cache.Keys)
    && (s.committing || !s.up ==> s.ops == [])
    && (s.ops == [] && !s.committing ==> s.lh == [])
    && (g.size == 1 ==> forall i :: 0 <= i < |s.ops| ==> !s.ops[i].cleared)
  }

  /** Whoever sleeps in begin_op waits for a commit, or for room. */
  ghost predicate SleepOk(s: State) {
    s.sleepers != {} ==> s.up && (s.committing || !HasRoom(s))
  }

  lemma BooksAppend(g: Geometry, s: State, step: Step)
    requires step.Append? && Books(g, s) && Enabled(g, s, step)
    ensures Books(g, Do(g, s, step))
  {
    var t := Do(g, s, step);
    if step.bno !in s.lh {
      assert t.lh[|s.lh|] == step.bno;
    }
  }

  lemma BooksEndOp(g: Geometry, s: State, i: nat)
    requires Books(g, s) && Enabled(g, s, EndOp(i))
    ensures Books(g, Do(g, s, EndOp(i)))
  {
    hide PlanOf, Listed;
    var t := Do(g, s, EndOp(i));
    assert |t.ops| == |s.ops| - 1;
  }

  lemma BooksBegin(g: Geometry, s: State, step: Step)
    requires step.BeginOp? || step.Check?
    requires Books(g, s) && Enabled(g, s, step)
    ensures Books(g, Do(g, s, step))
  {
    hide Listed;
  }

  lemma BooksOther(g: Geometry, s: State, step: Step)
    requires !step.BeginOp? && !step.Check? && !step.Append? && !step.EndOp?
    requires Books(g, s) && Enabled(g, s, step)
    ensures Books(g, Do(g, s, step))
  {
    hide RecoverPlan, Writable, DiskOk;
    assert Listed(g, []);
  }

  lemma KeepBooks(g: Geometry, s: State, step: Step)
    requires Books(g, s) && Enabled(g, s, step)
    ensures Books(g, Do(g, s, step))
  {
    hide Books, Enabled, Do;
    match step
    case BeginOp(_) => BooksBegin(g, s, step);
    case Check(_) => BooksBegin(g, s, step);
    case Append(_, _, _) => BooksAppend(g, s, step);
    case EndOp(i) => BooksEndOp(g, s, i);
    case _ => BooksOther(g, s, step);
  }

  lemma KeepSleepers(g: Geometry, s: State, step: Step)
    requires Books(g, s) && SleepOk(s) && Enabled(g, s, step)
    ensures SleepOk(Do(g, s, step))
  {
    hide RecoverPlan, PlanOf, CommitPlan, Writable, DiskOk;
  }

  // ---- the invariant of crash safety ----

  /** The header fits the log; or it takes up every buffer, and its commit panics before it writes anything. */
  predicate Fits(g: Geometry, h: seq<nat>) {
    |h| < g.size || |h| >= NBUF
  }

  ghost predicate Ready(g: Geometry, d: Disk, c: Txn, h: seq<nat>) {
    && DiskOk(g, d) && Logged(g, d) == []
    && Listed(g, h) && Fits(g, h)
    && forall b :: b in c <==> b in h
  }

  lemma ReadyCommits(g: Geometry, d: Disk, c: Txn, h: seq<nat>)
    requires Ready(g, d, c, h) && |h| < NBUF
    ensures CanCommit(g, d, c, h) && Writable(g, h)
    ensures PlanOf(g, d, c, h) == if h == [] then [] else CommitPlan(g, d[g.start], c, h)
  {
  }

  ghost predicate OpsOk(s: State) {
    && (forall i :: 0 <= i < |s.durable| ==>
          s.durable[i].txn < |s.history| && s.durable[i].blocks <= s.history[s.durable[i].txn].Keys)
    && forall i :: 0 <= i < |s.ended| ==> s.ended[i].txn == |s.history| && s.ended[i].blocks <= s.cache.Keys
  }

  /** No commit in progress: the disk holds exactly the committed transactions. */
  ghost predicate Open(g: Geometry, init: Disk, s: State) {
    && Ready(g, s.disk, s.cache, s.lh)
    && SameHome(g, s.disk, Replay(init, s.history))
  }

  /** A commit in progress, `pos` of whose writes are done. */
  ghost predicate Busy(g: Geometry, init: Disk, s: State) {
    && Ready(g, s.base, s.cache, s.lh)
    && s.plan == PlanOf(g, s.base, s.cache, s.lh)
    && s.pos <= |s.plan| && (|s.lh| >= NBUF ==> s.pos == 0)
    && OnDisk(s.base, s.plan) && s.disk == Apply(s.base, s.plan, s.pos)
    && SameHome(g, if s.pos <= |s.lh| then s.base else Overlay(s.base, s.cache), Replay(init, s.history))
    && (s.pos > |s.lh| ==> s.ended == [])
  }

  ghost predicate Recovering(g: Geometry, init: Disk, s: State) {
    && DiskOk(g, s.base)
    && s.plan == RecoverPlan(g, s.base)
    && s.pos <= |s.plan|
    && s.disk == Apply(s.base, s.plan, s.pos)
    && SameHome(g, Recovered(g, s.base), Replay(init, s.history))
    && !s.committing && s.lh == [] && s.cache == map[] && s.ended == []
  }

  ghost predicate Inv(g: Geometry, init: Disk, s: State) {
    && |init| == g.blocks
    && Books(g, s) && OpsOk(s)
    && if !s.up then Recovering(g, init, s)
       else if s.committing then Busy(g, init, s)
       else Open(g, init, s)
  }

  /**
   The meaning of the invariant: whatever a crash at this moment leaves, a completed recovery yields
   the initial home blocks with exactly the committed transactions applied in order.
   */
  lemma CrashSafe(g: Geometry, init: Disk, s: State)
    requires Inv(g, init, s)
    ensures DiskOk(g, s.disk) && SameHome(g, Recovered(g, s.disk), Replay(init, s.history))
  {
    if !s.up {
      RecoverCrash(g, s.base, s.pos);
    } else if s.committing {
      if s.lh == [] || |s.lh| >= NBUF {
        IdleRecovers(g, s.base);
      } else {
        ReadyCommits(g, s.base, s.cache, s.lh);
        CommitCrash(g, s.base, s.cache, s.lh, s.pos);
      }
    } else {
      IdleRecovers(g, s.disk);
    }
  }

  /** Recovery from an empty log leaves every home block as it is. */
  lemma IdleRecovers(g: Geometry, d: Disk)
    requires DiskOk(g, d) && Logged(g, d) == []
    ensures SameHome(g, Recovered(g, d), d)
  {
    forall b: nat | g.Home(b)
      ensures Recovered(g, d)[b] == d[b]
    {
      RecoveredMiss(g, d, b);
    }
  }

  /** What file system code reads: the pinned buffer if there is one, else the disk. */
  ghost function Visible(s: State, b: nat): Block
    requires b < |s.disk|
  {
    if b in s.cache then s.cache[b] else s.disk[b]
  }

  /** Reads see every committed transaction and every block logged since, also during a commit. */
  lemma ReadsSeeLatest(g: Geometry, init: Disk, s: State, b: nat)
    requires Inv(g, init, s) && s.up && g.Home(b)
    ensures b < |s.disk| && Visible(s, b) == Overlay(Replay(init, s.history), s.cache)[b]
  {
    if s.committing && s.lh != [] && |s.lh| < NBUF && b !in s.cache {
      ReadyCommits(g, s.base, s.cache, s.lh);
      CommitPrefix(g, s.base, s.cache, s.lh, s.pos);
      assert s.disk[b] == CommitBlock(g, s.base, s.cache, s.lh, s.pos, b);
    }
  }

  // ---- every step keeps the invariant ----

  lemma KeepAppend(g: Geometry, init: Disk, s: State, step: Step)
    requires step.Append? && Inv(g, init, s) && Enabled(g, s, step) && Fits(g, AbsorbInto(s.lh, step.bno))
    ensures Inv(g, init, Do(g, s, step))
  {
    KeepBooks(g, s, step);
  }

  lemma KeepEndOp(g: Geometry, init: Disk, s: State, i: nat)
    requires Inv(g, init, s) && Enabled(g, s, EndOp(i))
    ensures Inv(g, init, Do(g, s, EndOp(i)))
  {
    KeepBooks(g, s, EndOp(i));
    var t := Do(g, s, EndOp(i));
    assert !s.committing && OpsOk(t);
    if t.committing {
      hide CommitPlan;
      assert Busy(g, init, t);
    } else {
      assert Open(g, init, t);
    }
  }

  /** The first write_head makes the open group one more transaction of the history. */
  lemma CommitPoint(g: Geometry, init: Disk, s: State)
    requires SameHome(g, s.base, Replay(init, s.history))
    ensures SameHome(g, Overlay(s.base, s.cache), Replay(init, s.history + [s.cache]))
  {
    ReplaySnoc(init, s.history, s.cache);
  }

  lemma CommitPointOps(s: State)
    requires OpsOk(s)
    ensures OpsOk(s.(history := s.history + [s.cache], durable := s.durable + s.ended, ended := []))
  {
  }

  lemma KeepCommitPoint(g: Geometry, init: Disk, s: State)
    requires Inv(g, init, s) && Enabled(g, s, CommitWrite) && s.pos == |s.lh|
    ensures Inv(g, init, Do(g, s, CommitWrite))
  {
    hide PlanOf, CanPlan, Replay, SameHome, Ready, Overlay;
    KeepBooks(g, s, CommitWrite);
    CommitPoint(g, init, s);
    CommitPointOps(s);
    assert Busy(g, init, Do(g, s, CommitWrite));
  }

  lemma KeepCommitWrite(g: Geometry, init: Disk, s: State)
    requires Inv(g, init, s) && Enabled(g, s, CommitWrite) && s.pos != |s.lh|
    ensures Inv(g, init, Do(g, s, CommitWrite))
  {
    hide PlanOf, CanPlan, Replay, SameHome, Ready, Overlay;
    KeepBooks(g, s, CommitWrite);
    assert Busy(g, init, DoWrite(s));
    assert OpsOk(DoWrite(s));
  }

  /** A finished commit leaves an empty log and all its blocks at home. */
  lemma Installed(g: Geometry, d: Disk, c: Txn, h: seq<nat>, e: Disk)
    requires Ready(g, d, c, h) && |h| < NBUF && OnDisk(d, PlanOf(g, d, c, h))
    requires e == Apply(d, PlanOf(g, d, c, h), |PlanOf(g, d, c, h)|)
    ensures DiskOk(g, e) && Logged(g, e) == [] && SameHome(g, e, if h == [] then d else Overlay(d, c))
  {
    ReadyCommits(g, d, c, h);
    hide Apply, CommitPlan, Ready, Writable;
    if h != [] {
      CommitHeader(g, d, c, h, 2 * |h| + 2);
      CommitPrefix(g, d, c, h, 2 * |h| + 2);
      forall b: nat | g.Home(b)
        ensures e[b] == Overlay(d, c)[b]
      {
        assert e[b] == CommitBlock(g, d, c, h, 2 * |h| + 2, b);
      }
    }
  }

  lemma PlanLength(g: Geometry, d: Disk, c: Txn, h: seq<nat>)
    requires Ready(g, d, c, h) && Writable(g, h)
    ensures |h| < NBUF && |PlanOf(g, d, c, h)| == if h == [] then 0 else 2 * |h| + 2
  {
    ReadyCommits(g, d, c, h);
  }

  lemma EmptyReady(g: Geometry, d: Disk)
    requires DiskOk(g, d) && Logged(g, d) == []
    ensures Ready(g, d, map[], [])
  {
  }

  lemma SameHomeTrans(g: Geometry, d: Disk, e: Disk, f: Disk)
    requires SameHome(g, d, e) && SameHome(g, e, f)
    ensures SameHome(g, d, f)
  {
  }

  lemma KeepCommitDone(g: Geometry, init: Disk, s: State)
    requires Inv(g, init, s) && Enabled(g, s, CommitDone)
    ensures Inv(g, init, Do(g, s, CommitDone))
  {
    hide PlanOf, CanPlan, CanCommit, Replay, Overlay, DiskOk, SameHome, Apply, Ready, Writable, Books;
    KeepBooks(g, s, CommitDone);
    assert Busy(g, init, s) && OpsOk(s);
    PlanLength(g, s.base, s.cache, s.lh);
    Installed(g, s.base, s.cache, s.lh, s.disk);
    var home := if s.lh == [] then s.base else Overlay(s.base, s.cache);
    SameHomeTrans(g, s.disk, home, Replay(init, s.history));
    EmptyReady(g, s.disk);
    assert s.ended == [] || s.lh == [];
  }

  lemma KeepCrash(g: Geometry, init: Disk, s: State)
    requires Inv(g, init, s) && Enabled(g, s, Crash)
    ensures Inv(g, init, Do(g, s, Crash))
  {
    CrashSafe(g, init, s);
    KeepBooks(g, s, Crash);
  }

  lemma KeepRecoverWrite(g: Geometry, init: Disk, s: State)
    requires Inv(g, init, s) && Enabled(g, s, RecoverWrite)
    ensures Inv(g, init, Do(g, s, RecoverWrite))
  {
    KeepBooks(g, s, RecoverWrite);
  }

  lemma KeepRecoverDone(g: Geometry, init: Disk, s: State)
    requires Inv(g, init, s) && Enabled(g, s, RecoverDone)
    ensures Inv(g, init, Do(g, s, RecoverDone))
  {
    KeepBooks(g, s, RecoverDone);
    RecoverHeader(g, s.base, s.pos);
  }

  lemma KeepOther(g: Geometry, init: Disk, s: State, step: Step)
    requires step.BeginOp? || step.Check? || step.Kill?
    requires Inv(g, init, s) && Enabled(g, s, step)
    ensures Inv(g, init, Do(g, s, step))
  {
    hide PlanOf, CanPlan, Replay, SameHome, Ready, Overlay, DiskOk;
    KeepBooks(g, s, step);
  }

  /** Every step keeps the invariant, unless it is an entry beyond the log. */
  lemma KeepStep(g: Geometry, init: Disk, s: State, step: Step)
    requires Inv(g, init, s) && Enabled(g, s, step)
    requires step.Append? ==> Fits(g, AbsorbInto(s.lh, step.bno))
    ensures Inv(g, init, Do(g, s, step))
  {
    match step
    case BeginOp(_) => KeepOther(g, init, s, step);
    case Check(_) => KeepOther(g, init, s, step);
    case Append(_, _, _) => KeepAppend(g, init, s, step);
    case EndOp(i) => KeepEndOp(g, init, s, i);
    case CommitWrite =>
      if s.pos == |s.lh| {
        KeepCommitPoint(g, init, s);
      } else {
        KeepCommitWrite(g, init, s);
      }
    case CommitDone => KeepCommitDone(g, init, s);
    case Kill(_) => KeepOther(g, init, s, step);
    case Crash => KeepCrash(g, init, s);
    case RecoverWrite => KeepRecoverWrite(g, init, s);
    case RecoverDone => KeepRecoverDone(g, init, s);
  }

  // ---- whole runs ----

  /** A run from the first boot on disk d: any interleaving, with any number of crashes. */
  ghost predicate Behaviour(g: Geometry, d: Disk, states: seq<State>, steps: seq<Step>) {
    && DiskOk(g, d)
    && |states| == |steps| + 1
    && states[0] == Boot(g, d, [], [])
    && forall i :: 0 <= i < |steps| ==> Follows(g, states[i], steps[i], states[i + 1])
  }

  ghost predicate Follows(g: Geometry, s: State, step: Step, t: State) {
    Enabled(g, s, step) && t == Do(g, s, step)
  }

  lemma {:induction false} BooksReachable(g: Geometry, d: Disk, states: seq<State>, steps: seq<Step>, i: nat)
    requires Behaviour(g, d, states, steps) && i <= |steps|
    ensures Books(g, states[i]) && SleepOk(states[i])
  {
    if i > 0 {
      BooksReachable(g, d, states, steps, i - 1);
      assert Follows(g, states[i - 1], steps[i - 1], states[i]);
      KeepBooks(g, states[i - 1], steps[i - 1]);
      KeepSleepers(g, states[i - 1], steps[i - 1]);
    }
  }

  /** A process that sleeps in begin_op waits for a commit to end, or for room in the log: no wakeup is lost. */
  lemma NobodySleepsForNothing(g: Geometry, d: Disk, states: seq<State>, steps: seq<Step>, i: nat, p: nat)
    requires Behaviour(g, d, states, steps) && i <= |steps| && p in states[i].sleepers
    ensures states[i].up && (states[i].committing || !HasRoom(states[i]))
    ensures states[i].committing || states[i].ops != []
  {
    BooksReachable(g, d, states, steps, i);
  }

  /** The panic "log.committing" of end_op cannot happen. */
  lemma EndOpNeverPanics(g: Geometry, d: Disk, states: seq<State>, steps: seq<Step>, i: nat, op: nat)
    requires Behaviour(g, d, states, steps) && i <= |steps| && Enabled(g, states[i], EndOp(op))
    ensures !states[i].committing && states[i].outstanding > 0
  {
    BooksReachable(g, d, states, steps, i);
  }

  // ---- log space ----

  /** Operations log at most m distinct blocks each, as callers promise for some m <= MAXOPBLOCKS. */
  ghost predicate Compliant(m: nat, s: State, step: Step) {
    step.Append? && step.op < |s.ops| ==> |s.ops[step.op].blocks + {step.bno}| <= m
  }

  ghost predicate CompliantTo(m: nat, states: seq<State>, steps: seq<Step>, i: nat)
    requires i <= |steps| && |states| == |steps| + 1
  {
    forall k :: 0 <= k < i ==> Compliant(m, states[k], steps[k])
  }

  /** Log blocks that operations in progress may still ask for. */
  ghost function Unspent(m: nat, ops: seq<Op>): int {
    if ops == [] then 0 else m - |ops[0].blocks| + Unspent(m, ops[1..])
  }

  lemma {:induction false} UnspentConcat(m: nat, a: seq<Op>, b: seq<Op>)
    ensures Unspent(m, a + b) == Unspent(m, a) + Unspent(m, b)
  {
    if a == [] {
      assert a + b == b;
    } else {
      UnspentConcat(m, a[1..], b);
      assert (a + b)[1..] == a[1..] + b;
    }
  }

  lemma UnspentAt(m: nat, ops: seq<Op>, i: nat)
    requires i < |ops|
    ensures Unspent(m, ops) == Unspent(m, RemoveAt(ops, i)) + m - |ops[i].blocks|
  {
    assert ops == ops[..i] + ([ops[i]] + ops[i + 1..]);
    UnspentConcat(m, ops[..i], [ops[i]] + ops[i + 1..]);
    assert ([ops[i]] + ops[i + 1..])[1..] == ops[i + 1..];
    UnspentConcat(m, ops[..i], ops[i + 1..]);
  }

  ghost predicate WithinBudget(m: nat, ops: seq<Op>) {
    forall i :: 0 <= i < |ops| ==> |ops[i].blocks| <= m
  }

  lemma {:induction false} UnspentBounds(m: nat, ops: seq<Op>)
    requires WithinBudget(m, ops)
    ensures 0 <= Unspent(m, ops) <= m * |ops|
  {
    if ops != [] {
      UnspentBounds(m, ops[1..]);
    }
  }

  /** What the log holds and may still be asked to hold: at most this much, because begin_op reserves
      MAXOPBLOCKS for each operation that starts beside another one. */
  function Most(m: nat): nat {
    MAXOPBLOCKS + 2 * m
  }

  ghost predicate SpaceOk(m: nat, s: State) {
    WithinBudget(m, s.ops) && |s.lh| + Unspent(m, s.ops) <= Most(m)
  }

  lemma SpaceBegin(g: Geometry, s: State, m: nat, p: nat)
    requires Books(g, s) && Enabled(g, s, BeginOp(p)) && SpaceOk(m, s) && m <= MAXOPBLOCKS
    ensures SpaceOk(m, Do(g, s, BeginOp(p)))
  {
    if !s.committing && HasRoom(s) {
      var o := [Op({}, |s.history|, false)];
      UnspentBounds(m, s.ops);
      UnspentConcat(m, s.ops, o);
      assert Unspent(m, o) == m + Unspent(m, o[1..]);
      RoomTaken(|s.lh|, |s.ops|, m);
    }
  }

  lemma RoomTaken(n: nat, k: nat, m: nat)
    requires n + (k + 1) * MAXOPBLOCKS <= LOGSIZE && m <= MAXOPBLOCKS && (k == 0 ==> n == 0)
    ensures n + m * k + m <= Most(m)
  {
    assert k == 0 || k == 1 || k == 2;
  }

  lemma SpaceAppend(g: Geometry, s: State, m: nat, step: Step)
    requires step.Append? && Books(g, s) && Enabled(g, s, step) && Compliant(m, s, step) && SpaceOk(m, s)
    ensures SpaceOk(m, Do(g, s, step))
  {
    var t := Do(g, s, step);
    var i := step.op;
    UnspentAt(m, s.ops, i);
    UnspentAt(m, t.ops, i);
    assert RemoveAt(t.ops, i) == RemoveAt(s.ops, i);
    if step.bno in s.ops[i].blocks {
      assert s.ops[i].blocks + {step.bno} == s.ops[i].blocks;
      assert step.bno in s.cache;
    }
  }

  lemma SpaceCheck(g: Geometry, s: State, m: nat, i: nat)
    requires Enabled(g, s, Check(i)) && SpaceOk(m, s)
    ensures SpaceOk(m, Do(g, s, Check(i)))
  {
    var t := Do(g, s, Check(i));
    UnspentAt(m, s.ops, i);
    UnspentAt(m, t.ops, i);
    assert RemoveAt(t.ops, i) == RemoveAt(s.ops, i);
  }

  lemma SpaceEndOp(g: Geometry, s: State, m: nat, i: nat)
    requires Books(g, s) && Enabled(g, s, EndOp(i)) && SpaceOk(m, s)
    ensures SpaceOk(m, Do(g, s, EndOp(i)))
  {
    hide PlanOf, Listed;
    UnspentAt(m, s.ops, i);
  }

  lemma SpaceOther(g: Geometry, s: State, m: nat, step: Step)
    requires !step.BeginOp? && !step.Check? && !step.Append? && !step.EndOp?
    requires Enabled(g, s, step) && SpaceOk(m, s)
    ensures SpaceOk(m, Do(g, s, step))
  {
    hide RecoverPlan, Writable, DiskOk;
    var t := Do(g, s, step);
    assert t.ops == s.ops || t.ops == [];
    assert t.lh == s.lh || t.lh == [];
    UnspentBounds(m, s.ops);
  }

  lemma KeepSpace(g: Geometry, s: State, m: nat, step: Step)
    requires Books(g, s) && Enabled(g, s, step) && Compliant(m, s, step) && SpaceOk(m, s) && m <= MAXOPBLOCKS
    ensures SpaceOk(m, Do(g, s, step))
  {
    hide Books, SpaceOk, Enabled, Do, Compliant;
    match step
    case BeginOp(p) => SpaceBegin(g, s, m, p);
    case Check(i) => SpaceCheck(g, s, m, i);
    case Append(_, _, _) => SpaceAppend(g, s, m, step);
    case EndOp(i) => SpaceEndOp(g, s, m, i);
    case _ => SpaceOther(g, s, m, step);
  }

  /** Log space, in every state of every run whose operations log at most m blocks: what is logged and what may
      still be asked for stays within 10 + 2 * m, which for m == MAXOPBLOCKS is LOGSIZE. */
  lemma {:induction false} SpaceReachable(g: Geometry, d: Disk, states: seq<State>, steps: seq<Step>, i: nat, m: nat)
    requires Behaviour(g, d, states, steps) && i <= |steps| && CompliantTo(m, states, steps, i) && m <= MAXOPBLOCKS
    ensures SpaceOk(m, states[i]) && |states[i].lh| <= Most(m)
  {
    if i > 0 {
      SpaceReachable(g, d, states, steps, i - 1, m);
      BooksReachable(g, d, states, steps, i - 1);
      assert Follows(g, states[i - 1], steps[i - 1], states[i]);
      KeepSpace(g, states[i - 1], m, steps[i - 1]);
    }
    UnspentBounds(m, states[i].ops);
  }

  /**
   Logs that operations of at most m blocks cannot overrun.  (A log of one block admits no log_write at all;
   one of at least NBUF blocks is protected by the buffer cache, which is full before the log is.)
   */
  predicate Roomy(g: Geometry, m: nat) {
    g.size == 1 || g.size > Most(m) || g.size >= NBUF
  }

  lemma RoomyFits(g: Geometry, d: Disk, states: seq<State>, steps: seq<Step>, i: nat, m: nat)
    requires Behaviour(g, d, states, steps) && i < |steps| && steps[i].Append?
    requires CompliantTo(m, states, steps, i + 1) && m <= MAXOPBLOCKS && Roomy(g, m)
    ensures Fits(g, AbsorbInto(states[i].lh, steps[i].bno))
  {
    assert Follows(g, states[i], steps[i], states[i + 1]);
    BooksReachable(g, d, states, steps, i);
    SpaceReachable(g, d, states, steps, i + 1, m);
  }

  lemma {:induction false} Reachable(g: Geometry, d: Disk, states: seq<State>, steps: seq<Step>, i: nat, m: nat)
    requires Behaviour(g, d, states, steps) && i <= |steps|
    requires CompliantTo(m, states, steps, i) && m <= MAXOPBLOCKS && Roomy(g, m)
    ensures Inv(g, Recovered(g, d), states[i])
  {
    if i == 0 {
    } else {
      Reachable(g, d, states, steps, i - 1, m);
      assert Follows(g, states[i - 1], steps[i - 1], states[i]);
      if steps[i - 1].Append? {
        RoomyFits(g, d, states, steps, i - 1, m);
      }
      KeepStep(g, Recovered(g, d), states[i - 1], steps[i - 1]);
    }
  }

  /**
   Group commit with crashes, for callers that log at most m blocks per operation and a log that is roomy for
   them.  At every moment of every run: a crash followed by a completed recovery yields exactly the
   transactions whose first write_head finished, in order and each one whole; a commit runs only when no
   operation is outstanding; and every operation that ended before a transaction committed has all its blocks
   in that one transaction.  Overrun shows that no other log will do.
   */
  lemma GroupCommit(g: Geometry, d: Disk, states: seq<State>, steps: seq<Step>, i: nat, m: nat)
    requires Behaviour(g, d, states, steps) && i <= |steps|
    requires CompliantTo(m, states, steps, i) && m <= MAXOPBLOCKS && Roomy(g, m)
    ensures var s := states[i];
      && DiskOk(g, s.disk)
      && SameHome(g, Recovered(g, s.disk), Replay(Recovered(g, d), s.history))
      && (s.committing ==> s.outstanding == 0 && s.ops == [])
      && forall o :: o in s.durable ==> o.txn < |s.history| && o.blocks <= s.history[o.txn].Keys
  {
    Reachable(g, d, states, steps, i, m);
    CrashSafe(g, Recovered(g, d), states[i]);
  }

  // ---- stretches of steps, as the code makes them ----

  /** The state after k steps of one kind, as long as they are enabled. */
  ghost function Repeat(g: Geometry, s: State, step: Step, k: nat): State {
    if k == 0 then s else
      var r := Repeat(g, s, step, k - 1);
      if Enabled(g, r, step) then Do(g, r, step) else r
  }

  /** A commit from its start to its last block write. */
  lemma {:induction false} CommitWrites(g: Geometry, s: State, k: nat)
    requires s.up && s.committing && s.pos == 0 && Writable(g, s.lh) && |s.disk| == g.blocks
    requires OnDisk(s.disk, s.plan) && k <= |s.plan|
    ensures Repeat(g, s, CommitWrite, k) ==
      if k <= |s.lh| then s.(disk := Apply(s.disk, s.plan, k), pos := k)
      else s.(disk := Apply(s.disk, s.plan, k), pos := k,
              history := s.history + [s.cache], durable := s.durable + s.ended, ended := [])
  {
    hide PlanOf, RecoverPlan, Writable, DiskOk, Apply;
    if k == 0 {
      ApplyNone(s.disk, s.plan);
    } else {
      CommitWrites(g, s, k - 1);
      ApplyNext(s.disk, s.plan, k - 1);
    }
  }

  lemma {:induction false} RecoverWrites(g: Geometry, s: State, k: nat)
    requires !s.up && s.pos == 0 && OnDisk(s.disk, s.plan) && k <= |s.plan|
    ensures Repeat(g, s, RecoverWrite, k) == s.(disk := Apply(s.disk, s.plan, k), pos := k)
  {
    if k > 0 {
      RecoverWrites(g, s, k - 1);
      ApplyNext(s.disk, s.plan, k - 1);
    }
  }

  /** Committed transactions stay committed: the history of a run only grows. */
  lemma {:induction false} HistoryGrows(g: Geometry, d: Disk, states: seq<State>, steps: seq<Step>, i: nat, j: nat)
    requires Behaviour(g, d, states, steps) && i <= j <= |steps|
    ensures states[i].history <= states[j].history
    ensures states[i].durable <= states[j].durable
    decreases j
  {
    if i < j {
      HistoryGrows(g, d, states, steps, i, j - 1);
      assert Follows(g, states[j - 1], steps[j - 1], states[j]);
    }
  }
}
