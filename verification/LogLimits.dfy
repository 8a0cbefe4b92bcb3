/**
 How far operations that keep their promise can fill the log of log.c: exactly when they meet the panic of
 log_write, exactly which logs they overrun, and when a commit finds no buffer.  The failing runs are given.
 */
module LogLimits {
  import FsModel
  import opened Params
  import opened Common
  import opened LogDisk
  import opened LogProtocol

  /** log_write panics at this many entries. */
  function Cap(g: Geometry): int {
    if g.size - 1 < LOGSIZE then g.size - 1 else LOGSIZE
  }

  /** Operation `op` may log block b without breaking its promise. */
  ghost predicate MayLog(m: nat, s: State, op: nat, b: nat) {
    op < |s.ops| && |s.ops[op].blocks + {b}| <= m
  }

  /** Where an operation that keeps its promise meets the panic, there is no room for 10 + 2 * m blocks; and for a
      block that it has not logged before, not even for one less. */
  lemma PanicOnlyIf(g: Geometry, d: Disk, states: seq<State>, steps: seq<Step>, i: nat, m: nat, op: nat, b: nat)
    requires Behaviour(g, d, states, steps) && i <= |steps| && CompliantTo(m, states, steps, i) && m <= MAXOPBLOCKS
    requires MayLog(m, states[i], op, b) && TooBig(g, states[i])
    ensures Cap(g) <= Most(m)
    ensures b !in states[i].ops[op].blocks ==> Cap(g) < Most(m)
  {
    SpaceReachable(g, d, states, steps, i, m);
    var ops := states[i].ops;
    UnspentAt(m, ops, op);
    UnspentBounds(m, RemoveAt(ops, op));
  }

  /** Callers that keep their promise never write past the end of the header array. */
  lemma NeverBeyondHeader(g: Geometry, d: Disk, states: seq<State>, steps: seq<Step>, i: nat, m: nat, op: nat, b: nat)
    requires Behaviour(g, d, states, steps) && i <= |steps| && CompliantTo(m, states, steps, i) && m <= MAXOPBLOCKS
    requires states[i].up && MayLog(m, states[i], op, b) && states[i].ops[op].cleared && g.Home(b)
    ensures forall data :: Enabled(g, states[i], Append(op, b, data))
  {
    var s := states[i];
    SpaceReachable(g, d, states, steps, i, m);
    BooksReachable(g, d, states, steps, i);
    UnspentAt(m, s.ops, op);
    UnspentBounds(m, RemoveAt(s.ops, op));
    assert b in s.ops[op].blocks ==> b in s.lh;
  }

  /** Operations of less than MAXOPBLOCKS blocks, such as those of filewrite, on a log of at least LOGSIZE blocks:
      no panic, no entry beyond the log, and a buffer for every commit. */
  lemma SmallOperations(g: Geometry, d: Disk, states: seq<State>, steps: seq<Step>, i: nat, m: nat)
    requires Behaviour(g, d, states, steps) && i <= |steps| && CompliantTo(m, states, steps, i)
    requires m < MAXOPBLOCKS && g.size >= LOGSIZE
    ensures !TooBig(g, states[i]) && |states[i].lh| < g.size && |states[i].lh| < NBUF
  {
    SpaceReachable(g, d, states, steps, i, m);
  }

  // ---- runs ----

  ghost predicate RunTo(g: Geometry, d: Disk, m: nat, states: seq<State>, steps: seq<Step>, s: State) {
    && Behaviour(g, d, states, steps) && CompliantTo(m, states, steps, |steps|)
    && states[|steps|] == s
  }

  ghost predicate Reaches(g: Geometry, d: Disk, m: nat, s: State) {
    exists states, steps :: RunTo(g, d, m, states, steps, s)
  }

  lemma Extend(g: Geometry, d: Disk, m: nat, s: State, step: Step)
    requires Reaches(g, d, m, s) && Enabled(g, s, step) && Compliant(m, s, step)
    ensures Reaches(g, d, m, Do(g, s, step))
  {
    hide Enabled, Do, Compliant, DiskOk;
    var states, steps :| RunTo(g, d, m, states, steps, s);
    var states', steps' := states + [Do(g, s, step)], steps + [step];
    forall i | 0 <= i < |steps'|
      ensures Follows(g, states'[i], steps'[i], states'[i + 1])
    {
      if i < |steps| {
        assert Follows(g, states[i], steps[i], states[i + 1]);
      }
    }
    assert RunTo(g, d, m, states', steps', Do(g, s, step));
  }

  lemma ReachesBooks(g: Geometry, d: Disk, m: nat, s: State)
    requires Reaches(g, d, m, s)
    ensures Books(g, s)
  {
    var states, steps :| RunTo(g, d, m, states, steps, s);
    BooksReachable(g, d, states, steps, |steps|);
  }

  /** Blocks behind the log, none of them the first one there. */
  function Num(g: Geometry, i: nat): nat {
    g.start + g.size + 1 + i
  }

  ghost predicate Empty(g: Geometry, d: Disk) {
    DiskOk(g, d) && d[g.start].n == 0 && Num(g, LOGSIZE) <= g.blocks
  }

  function Nums(g: Geometry, k: nat): (h: seq<nat>)
    ensures |h| == k && forall i :: 0 <= i < k ==> h[i] == Num(g, i)
  {
    if k == 0 then [] else Nums(g, k - 1) + [Num(g, k - 1)]
  }

  /** The first j of these blocks have been logged, all with contents x, and nothing has been committed. */
  ghost predicate Holding(g: Geometry, d: Disk, m: nat, s: State, j: nat, x: Block) {
    && Reaches(g, d, m, s) && DiskOk(g, d)
    && s.up && !s.committing && s.sleepers == {} && s.history == [] && s.outstanding == |s.ops|
    && s.disk == Recovered(g, d)
    && s.lh == Nums(g, j) && forall b :: b in s.cache ==> s.cache[b] == x
  }

  ghost predicate NoneCleared(s: State) {
    forall o :: 0 <= o < |s.ops| ==> !s.ops[o].cleared
  }

  /** Operation o has passed log_write's test, and adds the next block. */
  lemma AppendNew(g: Geometry, d: Disk, m: nat, s: State, j: nat, x: Block, o: nat) returns (t: State)
    requires Empty(g, d) && Holding(g, d, m, s, j, x) && j < LOGSIZE
    requires o < |s.ops| && s.ops[o].cleared && |s.ops[o].blocks| < m
    ensures Holding(g, d, m, t, j + 1, x)
    ensures t.ops == s.ops[o := Op(s.ops[o].blocks + {Num(g, j)}, s.ops[o].txn, false)]
    ensures Num(g, j) !in s.ops[o].blocks
  {
    ReachesBooks(g, d, m, s);
    var b := Num(g, j);
    assert b !in s.lh && b !in s.cache;
    Extend(g, d, m, s, Append(o, b, x));
    t := Do(g, s, Append(o, b, x));
  }

  lemma Log(g: Geometry, d: Disk, m: nat, s: State, j: nat, x: Block, o: nat) returns (t: State)
    requires Empty(g, d) && Holding(g, d, m, s, j, x) && j < Cap(g)
    requires o < |s.ops| && !s.ops[o].cleared && |s.ops[o].blocks| < m
    ensures Holding(g, d, m, t, j + 1, x)
    ensures t.ops == s.ops[o := Op(s.ops[o].blocks + {Num(g, j)}, s.ops[o].txn, false)]
    ensures Num(g, j) !in s.ops[o].blocks
  {
    Extend(g, d, m, s, Check(o));
    var r := Do(g, s, Check(o));
    t := AppendNew(g, d, m, r, j, x, o);
  }

  lemma Start(g: Geometry, d: Disk, m: nat, x: Block) returns (s: State)
    requires Empty(g, d)
    ensures Holding(g, d, m, s, 0, x) && s.ops == [Op({}, 0, false)]
  {
    var s0 := Boot(g, d, [], []);
    assert RunTo(g, d, m, [s0], [], s0);
    assert Logged(g, d) == [];
    Extend(g, d, m, s0, RecoverWrite);
    var s1 := Do(g, s0, RecoverWrite);
    ApplyNext(d, s0.plan, 0);
    assert s1.disk == Recovered(g, d);
    Extend(g, d, m, s1, RecoverDone);
    var s2 := Do(g, s1, RecoverDone);
    Extend(g, d, m, s2, BeginOp(0));
    s := Do(g, s2, BeginOp(0));
  }

  /** Beside one operation that logs nothing yet, short ones come and go that log one block each. */
  lemma {:induction false} Seed(g: Geometry, d: Disk, m: nat, j: nat, x: Block) returns (s: State)
    requires Empty(g, d) && 0 < m && j <= MAXOPBLOCKS && j <= Cap(g)
    ensures Holding(g, d, m, s, j, x) && s.ops == [Op({}, 0, false)]
  {
    if j == 0 {
      s := Start(g, d, m, x);
    } else {
      s := Seed(g, d, m, j - 1, x);
      Extend(g, d, m, s, BeginOp(0));
      s := Do(g, s, BeginOp(0));
      s := Log(g, d, m, s, j - 1, x, 1);
      Extend(g, d, m, s, EndOp(1));
      s := Do(g, s, EndOp(1));
    }
  }

  /** What operation o of two has logged of j blocks, when they take turns after the first ten. */
  function Share(j: nat, o: nat): nat
    requires o < 2
  {
    if j < MAXOPBLOCKS then 0 else (j - 9 - o) / 2
  }

  /** Whose turn it is to log block number j. */
  function Turn(j: nat): (o: nat)
    ensures o < 2
  {
    j % 2
  }

  lemma TakeTurn(j: nat, m: nat)
    requires j < Most(m) && 0 < m
    ensures Share(j, Turn(j)) < m
    ensures MAXOPBLOCKS <= j ==> Share(j + 1, Turn(j)) == Share(j, Turn(j)) + 1
    ensures MAXOPBLOCKS <= j ==> Share(j + 1, 1 - Turn(j)) == Share(j, 1 - Turn(j))
  {
  }

  lemma LastShare(m: nat)
    requires 0 < m
    ensures Share(Most(m), 0) == m
  {
  }

  ghost predicate Shared(s: State, j: nat) {
    |s.ops| == 2 && NoneCleared(s) && forall o: nat :: o < 2 ==> |s.ops[o].blocks| == Share(j, o)
  }

  /** Two operations take turns, from ten blocks on. */
  lemma {:induction false} Fill(g: Geometry, d: Disk, m: nat, j: nat, x: Block) returns (s: State)
    requires Empty(g, d) && 0 < m && j <= Most(m) && j <= Cap(g)
    ensures Holding(g, d, m, s, j, x) && Shared(s, j)
  {
    if j <= MAXOPBLOCKS {
      s := Seed(g, d, m, j, x);
      Extend(g, d, m, s, BeginOp(0));
      s := Do(g, s, BeginOp(0));
    } else {
      hide Share, Reaches;
      s := Fill(g, d, m, j - 1, x);
      TakeTurn(j - 1, m);
      s := Log(g, d, m, s, j - 1, x, Turn(j - 1));
    }
  }

  // ---- the panic of log_write ----

  lemma NewBlock(g: Geometry, m: nat, s: State, op: nat, j: nat)
    requires Books(g, s) && s.lh == Nums(g, j) && op < |s.ops| && |s.ops[op].blocks| < m
    ensures Num(g, j) !in s.lh && MayLog(m, s, op, Num(g, j))
  {
    assert Num(g, j) !in s.lh && Num(g, j) !in s.ops[op].blocks;
  }

  lemma OldBlock(g: Geometry, m: nat, s: State, op: nat) returns (b: nat)
    requires Books(g, s) && op < |s.ops| && 0 < |s.ops[op].blocks| <= m
    ensures b in s.lh && g.Home(b) && MayLog(m, s, op, b)
  {
    b :| b in s.ops[op].blocks;
    assert s.ops[op].blocks + {b} == s.ops[op].blocks;
    assert b in s.cache;
  }

  /**
   The panic is reachable whenever PanicOnlyIf leaves room for it: by a block that is new to the log if there is
   room for less than 10 + 2 * m blocks, and otherwise by a block that the operation logs a second time.
   */
  lemma PanicIf(g: Geometry, d: Disk, m: nat, x: Block) returns (s: State, op: nat, b: nat)
    requires Empty(g, d) && 0 < m <= MAXOPBLOCKS && Cap(g) <= Most(m)
    ensures Reaches(g, d, m, s) && s.up && MayLog(m, s, op, b) && g.Home(b) && TooBig(g, s)
    ensures b !in s.lh <==> Cap(g) < Most(m)
  {
    var j := Cap(g);
    s := Fill(g, d, m, j, x);
    ReachesBooks(g, d, m, s);
    hide Reaches, DiskOk, Recovered, Share, Books;
    if j < Most(m) {
      op, b := Turn(j), Num(g, j);
      TakeTurn(j, m);
      NewBlock(g, m, s, op, j);
    } else {
      op := 0;
      LastShare(m);
      b := OldBlock(g, m, s, op);
    }
  }

  /** The panic: some run of operations of at most m blocks leads to it. */
  ghost predicate PanicPossible(g: Geometry, d: Disk, m: nat) {
    exists s, op, b :: Reaches(g, d, m, s) && MayLog(m, s, op, b) && TooBig(g, s)
  }

  /**
   Exactly when operations that log at most m blocks each can meet "too big a transaction".  On a log of at least
   LOGSIZE blocks, as mkfs makes it: iff m is MAXOPBLOCKS.
   */
  lemma PanicIff(g: Geometry, d: Disk, m: nat)
    requires Empty(g, d) && 0 < m <= MAXOPBLOCKS
    ensures PanicPossible(g, d, m) <==> Cap(g) <= Most(m)
    ensures g.size >= LOGSIZE ==> (PanicPossible(g, d, m) <==> m == MAXOPBLOCKS)
  {
    if Cap(g) <= Most(m) {
      var s, op, b := PanicIf(g, d, m, d[0]);
    }
    if PanicPossible(g, d, m) {
      var s, op, b :| Reaches(g, d, m, s) && MayLog(m, s, op, b) && TooBig(g, s);
      var states, steps :| RunTo(g, d, m, states, steps, s);
      PanicOnlyIf(g, d, states, steps, |steps|, m, op, b);
    }
  }

  // ---- entries beyond the log ----

  /** Two operations pass log_write's test one after the other while there is room for one more block. */
  lemma Race(g: Geometry, d: Disk, m: nat, x: Block) returns (s: State)
    requires Empty(g, d) && 0 < m <= MAXOPBLOCKS && 2 <= g.size <= Most(m)
    ensures Holding(g, d, m, s, g.size, x) && |s.ops| == 2 && NoneCleared(s)
  {
    var j := g.size - 2;
    s := Fill(g, d, m, j, x);
    hide Reaches, DiskOk, Recovered;
    Extend(g, d, m, s, Check(0));
    s := Do(g, s, Check(0));
    Extend(g, d, m, s, Check(1));
    s := Do(g, s, Check(1));
    s := AppendNew(g, d, m, s, j, x, 0);
    s := AppendNew(g, d, m, s, j + 1, x, 1);
  }

  /** Both operations end, which starts the commit. */
  lemma StartCommit(g: Geometry, d: Disk, m: nat, s: State, j: nat, x: Block) returns (t: State)
    requires Empty(g, d) && Holding(g, d, m, s, j, x) && |s.ops| == 2 && NoneCleared(s)
    ensures Reaches(g, d, m, t) && t.up && t.committing && t.history == [] && t.pos == 0
    ensures t.disk == s.disk && t.lh == s.lh && t.cache == s.cache && t.plan == PlanOf(g, s.disk, s.cache, s.lh)
  {
    hide PlanOf;
    Extend(g, d, m, s, EndOp(0));
    var r := Do(g, s, EndOp(0));
    Extend(g, d, m, r, EndOp(0));
    t := Do(g, r, EndOp(0));
  }

  lemma {:induction false} CommitSome(g: Geometry, d: Disk, m: nat, s: State, k: nat) returns (t: State)
    requires Reaches(g, d, m, s) && s.up && s.committing && s.pos == 0 && Writable(g, s.lh)
    requires OnDisk(s.disk, s.plan) && k <= |s.lh| && k <= |s.plan|
    ensures Reaches(g, d, m, t) && t.disk == Apply(s.disk, s.plan, k) && t.history == s.history
    ensures t == s.(disk := t.disk, pos := k)
  {
    if k == 0 {
      t := s;
    } else {
      t := CommitSome(g, d, m, s, k - 1);
      Extend(g, d, m, t, CommitWrite);
      t := Do(g, t, CommitWrite);
    }
  }

  /** The copies of write_log touch no block but those they write. */
  lemma {:induction false} CopiesElsewhere(d: Disk, ws: seq<Write>, k: nat, b: nat)
    requires OnDisk(d, ws) && k <= |ws| && b < |d| && forall i :: 0 <= i < k ==> ws[i].bno != b
    ensures Apply(d, ws, k)[b] == d[b]
  {
    if k > 0 {
      CopiesElsewhere(d, ws, k - 1, b);
    }
  }

  function Empties(k: nat): Block {
    Raw(FsModel.Bits(seq(k, _ => 0)))
  }

  /** Overrun: a crash and a recovery leave something else than the committed transactions. */
  ghost predicate Damaged(g: Geometry, d: Disk, s: State) {
    && DiskOk(g, d) && DiskOk(g, s.disk)
    && !SameHome(g, Recovered(g, s.disk), Replay(Recovered(g, d), s.history))
  }

  /** One entry more than the log has blocks: write_log overwrites the home block behind the log. */
  lemma SpillWrites(g: Geometry, e: Disk, c: Txn, h: seq<nat>, x: Block)
    requires CanPlan(g, e, c, h) && |h| == g.size && forall i :: 0 <= i < |h| ==> c[h[i]] == x
    ensures var ws := PlanOf(g, e, c, h);
      && OnDisk(e, ws) && g.size <= |ws|
      && Apply(e, ws, g.size)[g.start + g.size] == x && Apply(e, ws, g.size)[g.start] == e[g.start]
  {
    hide Listed, Apply;
    var ws := PlanOf(g, e, c, h);
    assert ws == CommitPlan(g, e[g.start], c, h);
    assert forall i :: 0 <= i < g.size ==> ws[i] == Write(g.start + 1 + i, x);
    CopiesElsewhere(e, ws, g.size, g.start);
    ApplyNext(e, ws, g.size - 1);
  }

  /** ... with something else than what the committed transactions put there. */
  lemma SpillDamages(g: Geometry, d: Disk, e: Disk)
    requires Empty(g, d) && |e| == g.blocks && e[g.start] == Recovered(g, d)[g.start] && g.Home(g.start + g.size)
    requires e[g.start + g.size] != d[g.start + g.size]
    ensures DiskOk(g, e) && !SameHome(g, Recovered(g, e), Recovered(g, d))
  {
    hide Apply;
    assert Logged(g, d) == [];
    IdleRecovers(g, d);
    RecoveredBlock(g, d, g.start);
    assert Logged(g, e) == [];
    IdleRecovers(g, e);
  }

  lemma Spill(g: Geometry, d: Disk, m: nat, s: State, x: Block)
    requires Empty(g, d) && Reaches(g, d, m, s) && s.up && s.committing && s.history == [] && s.pos == 0
    requires 2 <= g.size < NBUF && s.disk == Recovered(g, d) && s.lh == Nums(g, g.size)
    requires s.plan == PlanOf(g, s.disk, s.cache, s.lh) && x != d[g.start + g.size]
    requires forall b :: b in s.cache ==> s.cache[b] == x
    ensures exists t :: Reaches(g, d, m, t) && Damaged(g, d, t)
  {
    ReachesBooks(g, d, m, s);
    RecoveredBlock(g, d, g.start);
    hide Reaches, PlanOf, Apply, SameHome, RecoverBlock;
    assert s.disk[g.start].Head? && |s.disk[g.start].block| == LOGSIZE;
    SpillWrites(g, s.disk, s.cache, s.lh, x);
    var t := CommitSome(g, d, m, s, g.size);
    SpillDamages(g, d, t.disk);
    assert Damaged(g, d, t);
  }

  /**
   Exactly which logs operations of at most m blocks can overrun: on all others GroupCommit holds.  The log must
   have at least two blocks, at most 10 + 2 * m, and fewer than there are buffers.
   */
  lemma Overrun(g: Geometry, d: Disk, m: nat)
    requires Empty(g, d) && 0 < m <= MAXOPBLOCKS
    ensures (exists s :: Reaches(g, d, m, s) && Damaged(g, d, s)) <==> !Roomy(g, m)
  {
    if !Roomy(g, m) {
      var x := if d[g.start + g.size] == Empties(0) then Empties(1) else Empties(0);
      var s := Race(g, d, m, x);
      var t := StartCommit(g, d, m, s, g.size, x);
      Spill(g, d, m, t, x);
    } else {
      forall s | Reaches(g, d, m, s)
        ensures !Damaged(g, d, s)
      {
        var states, steps :| RunTo(g, d, m, states, steps, s);
        GroupCommit(g, d, states, steps, |steps|, m);
      }
    }
  }

  // ---- a commit without a buffer ----

  /** Every buffer is pinned: write_log's first bread panics, and only a reboot helps. */
  ghost predicate Stuck(g: Geometry, s: State) {
    s.up && s.committing && |s.lh| == NBUF
  }

  lemma StuckForGood(g: Geometry, s: State, step: Step)
    requires Stuck(g, s) && Enabled(g, s, step) && s.ops == []
    ensures step.Crash? || (Stuck(g, Do(g, s, step)) && Do(g, s, step).disk == s.disk && Do(g, s, step).ops == [])
  {
  }

  /** Operations that keep their promise get a commit stuck, on a log of at least LOGSIZE blocks, iff they log
      MAXOPBLOCKS blocks. */
  lemma StuckIff(g: Geometry, d: Disk, m: nat)
    requires Empty(g, d) && 0 < m <= MAXOPBLOCKS && g.size >= LOGSIZE
    ensures (exists s :: Reaches(g, d, m, s) && Stuck(g, s)) <==> m == MAXOPBLOCKS
  {
    if m == MAXOPBLOCKS {
      var s;
      if g.size == LOGSIZE {
        s := Race(g, d, m, d[0]);
      } else {
        s := Fill(g, d, m, LOGSIZE, d[0]);
      }
      s := StartCommit(g, d, m, s, LOGSIZE, d[0]);
      assert Reaches(g, d, m, s) && Stuck(g, s);
    } else {
      forall s | Reaches(g, d, m, s)
        ensures !Stuck(g, s)
      {
        var states, steps :| RunTo(g, d, m, states, steps, s);
        SpaceReachable(g, d, states, steps, |steps|, m);
      }
    }
  }
}
