/**
 The on-disk log of log.c: a redo log that lies between `start` and `start + size` on a disk of
 blocks.  One bwrite is one atomic step, so the whole disk behaviour of a commit or of a recovery is
 the list of its block writes, and a crash leaves the disk after a prefix of that list.
 */
module LogDisk {
  import FsModel
  import opened Params
  import opened Common

  /** A disk block: file system contents, or the log header block (struct logheader). */
  datatype Block = Raw(contents: FsModel.Contents) | Head(n: nat, block: seq<nat>)

  type Disk = seq<Block>

  datatype Write = Write(bno: nat, data: Block)

  /** log.start, log.size (sb.nlog) and the size of the disk. */
  datatype Geometry = Geometry(start: nat, size: nat, blocks: nat) {
    predicate Sane() {
      0 < size && start + size <= blocks
    }

    predicate InLog(b: nat) {
      start <= b < start + size
    }

    /** A block the file system may log: on the disk and outside the log. */
    predicate Home(b: nat) {
      b < blocks && !InLog(b)
    }
  }

  /** Where b stands in h, or -1. */
  ghost function IndexOf(h: seq<nat>, b: nat): (i: int)
    ensures -1 <= i < |h|
    ensures if i < 0 then b !in h else h[i] == b
  {
    if b in h then
      var i :| 0 <= i < |h| && h[i] == b;
      i
    else -1
  }

  /** A list of block numbers that the header array can hold. */
  ghost predicate Listed(g: Geometry, h: seq<nat>) {
    && |h| <= LOGSIZE
    && NoRepeats(h)
    && forall i :: 0 <= i < |h| ==> g.Home(h[i])
  }

  /** ... and that fits the log. */
  ghost predicate Entries(g: Geometry, h: seq<nat>) {
    |h| < g.size && Listed(g, h)
  }

  /** What the log code may find on a disk: a header block whose first n entries are good. */
  ghost predicate DiskOk(g: Geometry, d: Disk) {
    && g.Sane()
    && |d| == g.blocks
    && d[g.start].Head?
    && |d[g.start].block| == LOGSIZE
    && d[g.start].n <= LOGSIZE
    && Entries(g, Logged(g, d))
  }

  /** The block numbers in the header block on disk. */
  function Logged(g: Geometry, d: Disk): seq<nat>
    requires g.start < |d| && d[g.start].Head? && d[g.start].n <= |d[g.start].block|
  {
    d[g.start].block[..d[g.start].n]
  }

  /** The header block after write_head: entries beyond the count keep their old value. */
  function HeadBlock(was: Block, h: seq<nat>): Block
    requires was.Head? && |h| <= |was.block|
  {
    Head(|h|, h + was.block[|h|..])
  }

  /** The two disks agree on every block outside the log. */
  ghost predicate SameHome(g: Geometry, d: Disk, e: Disk) {
    && |d| == |e| == g.blocks
    && forall b: nat :: g.Home(b) ==> d[b] == e[b]
  }

  ghost predicate OnDisk(d: Disk, ws: seq<Write>) {
    forall i :: 0 <= i < |ws| ==> ws[i].bno < |d|
  }

  /** The disk after the first k block writes of a list. */
  ghost function Apply(d: Disk, ws: seq<Write>, k: nat): (e: Disk)
    requires OnDisk(d, ws) && k <= |ws|
    ensures |e| == |d|
  {
    if k == 0 then d else Apply(d, ws, k - 1)[ws[k - 1].bno := ws[k - 1].data]
  }

  lemma {:induction false} ApplySame(d: Disk, ws: seq<Write>, vs: seq<Write>, k: nat)
    requires OnDisk(d, ws) && OnDisk(d, vs) && k <= |ws| <= |vs| && vs[..|ws|] == ws
    ensures Apply(d, ws, k) == Apply(d, vs, k)
  {
    if k > 0 {
      ApplySame(d, ws, vs, k - 1);
      assert vs[..|ws|][k - 1] == ws[k - 1];
    }
  }

  lemma ApplySnoc(d: Disk, ws: seq<Write>, w: Write)
    requires OnDisk(d, ws) && w.bno < |d|
    ensures OnDisk(d, ws + [w])
    ensures Apply(d, ws + [w], |ws| + 1) == Apply(d, ws, |ws|)[w.bno := w.data]
  {
    hide Apply;
    var vs := ws + [w];
    ApplySame(d, ws, vs, |ws|);
    ApplyNext(d, vs, |ws|);
  }

  lemma ApplyNone(d: Disk, ws: seq<Write>)
    requires OnDisk(d, ws)
    ensures Apply(d, ws, 0) == d
  {
  }

  lemma ApplyNext(d: Disk, ws: seq<Write>, k: nat)
    requires OnDisk(d, ws) && k < |ws|
    ensures Apply(d, ws, k + 1) == Apply(d, ws, k)[ws[k].bno := ws[k].data]
  {
  }

  /** The writes of one list and then of another. */
  lemma {:induction false} ApplyTwo(d: Disk, ws: seq<Write>, vs: seq<Write>, k: nat)
    requires OnDisk(d, ws) && OnDisk(d, ws + vs) && k <= |vs|
    ensures OnDisk(Apply(d, ws, |ws|), vs)
    ensures Apply(d, ws + vs, |ws| + k) == Apply(Apply(d, ws, |ws|), vs, k)
  {
    forall i | 0 <= i < |vs|
      ensures vs[i].bno < |d|
    {
      assert (ws + vs)[|ws| + i] == vs[i];
    }
    if k == 0 {
      ApplySame(d, ws, ws + vs, |ws|);
    } else {
      ApplyTwo(d, ws, vs, k - 1);
    }
  }

  lemma ApplyJoined(d: Disk, ws: seq<Write>, vs: seq<Write>)
    requires OnDisk(d, ws) && OnDisk(d, ws + vs)
    ensures OnDisk(Apply(d, ws, |ws|), vs)
    ensures Apply(d, ws + vs, |ws + vs|) == Apply(Apply(d, ws, |ws|), vs, |vs|)
  {
    hide Apply;
    ApplyTwo(d, ws, vs, |vs|);
  }

  // ---- commit() ----

  /** The writes of write_log for the first k entries. */
  ghost function LogCopies(g: Geometry, c: map<nat, Block>, h: seq<nat>, k: nat): (ws: seq<Write>)
    requires k <= |h| && forall i :: 0 <= i < |h| ==> h[i] in c
    ensures |ws| == k
    ensures forall i :: 0 <= i < k ==> ws[i] == Write(g.start + 1 + i, c[h[i]])
  {
    if k == 0 then [] else LogCopies(g, c, h, k - 1) + [Write(g.start + k, c[h[k - 1]])]
  }

  /** The writes of install_trans for the first k entries, with the log blocks of disk d. */
  ghost function Installs(g: Geometry, d: Disk, h: seq<nat>, k: nat): (ws: seq<Write>)
    requires k <= |h| && g.start + |h| < |d|
    ensures |ws| == k
    ensures forall i :: 0 <= i < k ==> ws[i] == Write(h[i], d[g.start + 1 + i])
  {
    if k == 0 then [] else Installs(g, d, h, k - 1) + [Write(h[k - 1], d[g.start + k])]
  }

  /**
   The block writes of commit(): write_log, write_head, install_trans, write_head.  If h does not fit the log,
   write_log runs on past its end; the plan is right as long as none of the blocks it writes there is in h.
   */
  ghost function CommitPlan(g: Geometry, head: Block, c: map<nat, Block>, h: seq<nat>): (ws: seq<Write>)
    requires head.Head? && |h| <= |head.block|
    requires g.Sane() && Listed(g, h) && g.start + |h| < g.blocks && forall i :: 0 <= i < |h| ==> h[i] in c
    ensures |ws| == 2 * |h| + 2
    ensures forall i :: 0 <= i < |ws| ==> ws[i].bno < g.blocks
  {
    LogCopies(g, c, h, |h|)
    + [Write(g.start, HeadBlock(head, h))]
    + seq(|h|, i requires 0 <= i < |h| => Write(h[i], c[h[i]]))
    + [Write(g.start, HeadBlock(HeadBlock(head, h), []))]
  }

  /** After write_log, install_trans finds in the log exactly what the plan sends home. */
  lemma PlanParts(g: Geometry, head: Block, c: map<nat, Block>, h: seq<nat>, d: Disk)
    requires head.Head? && |h| <= |head.block|
    requires g.Sane() && Entries(g, h) && |d| == g.blocks
    requires forall i :: 0 <= i < |h| ==> h[i] in c && d[g.start + 1 + i] == c[h[i]]
    ensures CommitPlan(g, head, c, h) ==
            LogCopies(g, c, h, |h|) + [Write(g.start, HeadBlock(head, h))]
            + Installs(g, d, h, |h|) + [Write(g.start, HeadBlock(HeadBlock(head, h), []))]
  {
    assert Installs(g, d, h, |h|) == seq(|h|, i requires 0 <= i < |h| => Write(h[i], c[h[i]]));
  }

  lemma Regroup(w: seq<Write>, a: seq<Write>, b: seq<Write>, c: seq<Write>, d: seq<Write>)
    ensures w + a + b + c + d == w + (a + b + c + d)
  {
  }

  /** Everything commit() relies on when it starts. */
  ghost predicate CanCommit(g: Geometry, d: Disk, c: map<nat, Block>, h: seq<nat>) {
    && DiskOk(g, d)
    && Logged(g, d) == []
    && Entries(g, h)
    && forall b :: b in c <==> b in h
  }

  /** The disk after the first k writes of a commit, block by block. */
  ghost function CommitBlock(g: Geometry, d: Disk, c: map<nat, Block>, h: seq<nat>, k: nat, b: nat): Block
    requires CanCommit(g, d, c, h) && b < |d|
  {
    var n := |h|;
    if b == g.start then
      if k <= n then d[b] else if k <= 2 * n + 1 then HeadBlock(d[b], h) else HeadBlock(HeadBlock(d[b], h), [])
    else if g.start < b <= g.start + n then
      if b <= g.start + k then c[h[b - g.start - 1]] else d[b]
    else if 0 <= IndexOf(h, b) && n + 1 + IndexOf(h, b) < k then c[b]
    else d[b]
  }

  lemma CommitStep(g: Geometry, d: Disk, c: map<nat, Block>, h: seq<nat>, k: nat, b: nat)
    requires CanCommit(g, d, c, h) && b < |d|
    requires k < 2 * |h| + 2
    ensures var w := CommitPlan(g, d[g.start], c, h)[k];
      CommitBlock(g, d, c, h, k + 1, b) == if b == w.bno then w.data else CommitBlock(g, d, c, h, k, b)
  {
    var n := |h|;
    var w := CommitPlan(g, d[g.start], c, h)[k];
    if k < n {
      assert w == Write(g.start + 1 + k, c[h[k]]);
    } else if k == n {
    } else if k <= 2 * n {
      var i := k - n - 1;
      assert w == Write(h[i], c[h[i]]);
      assert IndexOf(h, h[i]) == i;
    }
  }

  lemma {:induction false} CommitPrefix(g: Geometry, d: Disk, c: map<nat, Block>, h: seq<nat>, k: nat)
    requires CanCommit(g, d, c, h)
    requires k <= 2 * |h| + 2
    ensures var ws := CommitPlan(g, d[g.start], c, h);
      forall b :: 0 <= b < |d| ==> Apply(d, ws, k)[b] == CommitBlock(g, d, c, h, k, b)
  {
    var ws := CommitPlan(g, d[g.start], c, h);
    if k > 0 {
      CommitPrefix(g, d, c, h, k - 1);
      forall b | 0 <= b < |d|
        ensures Apply(d, ws, k)[b] == CommitBlock(g, d, c, h, k, b)
      {
        CommitStep(g, d, c, h, k - 1, b);
      }
    }
  }

  // ---- recover_from_log() ----

  /** The block writes of recover_from_log(): install_trans, then write_head with a zero count. */
  ghost function RecoverPlan(g: Geometry, d: Disk): (ws: seq<Write>)
    requires DiskOk(g, d)
    ensures |ws| == d[g.start].n + 1
    ensures OnDisk(d, ws)
  {
    var h := Logged(g, d);
    Installs(g, d, h, |h|)
    + [Write(g.start, HeadBlock(d[g.start], []))]
  }

  ghost function RecoverBlock(g: Geometry, d: Disk, k: nat, b: nat): Block
    requires DiskOk(g, d) && b < |d|
  {
    var h := Logged(g, d);
    if b == g.start then
      if k <= |h| then d[b] else HeadBlock(d[b], [])
    else if 0 <= IndexOf(h, b) < k then d[g.start + 1 + IndexOf(h, b)]
    else d[b]
  }

  lemma RecoverStep(g: Geometry, d: Disk, k: nat, b: nat)
    requires DiskOk(g, d) && b < |d| && k <= d[g.start].n
    ensures var w := RecoverPlan(g, d)[k];
      RecoverBlock(g, d, k + 1, b) == if b == w.bno then w.data else RecoverBlock(g, d, k, b)
  {
    var h := Logged(g, d);
    if k < |h| {
      assert IndexOf(h, h[k]) == k;
    }
  }

  lemma {:induction false} RecoverPrefix(g: Geometry, d: Disk, k: nat)
    requires DiskOk(g, d) && k <= d[g.start].n + 1
    ensures forall b :: 0 <= b < |d| ==> Apply(d, RecoverPlan(g, d), k)[b] == RecoverBlock(g, d, k, b)
  {
    var ws := RecoverPlan(g, d);
    if k > 0 {
      RecoverPrefix(g, d, k - 1);
      forall b | 0 <= b < |d|
        ensures Apply(d, ws, k)[b] == RecoverBlock(g, d, k, b)
      {
        RecoverStep(g, d, k - 1, b);
      }
    }
  }

  /** The disk after a recovery that runs to its end. */
  ghost function Recovered(g: Geometry, d: Disk): (e: Disk)
    requires DiskOk(g, d)
    ensures |e| == |d|
  {
    Apply(d, RecoverPlan(g, d), d[g.start].n + 1)
  }

  lemma RecoveredBlock(g: Geometry, d: Disk, b: nat)
    requires DiskOk(g, d) && b < |d|
    ensures Recovered(g, d)[b] == RecoverBlock(g, d, d[g.start].n + 1, b)
  {
    RecoverPrefix(g, d, d[g.start].n + 1);
  }

  lemma RecoveredHit(g: Geometry, d: Disk, i: nat)
    requires DiskOk(g, d) && i < d[g.start].n
    ensures Recovered(g, d)[Logged(g, d)[i]] == d[g.start + 1 + i]
  {
    var h := Logged(g, d);
    RecoveredBlock(g, d, h[i]);
    assert IndexOf(h, h[i]) == i;
  }

  lemma RecoveredMiss(g: Geometry, d: Disk, b: nat)
    requires DiskOk(g, d) && g.Home(b) && b !in Logged(g, d)
    ensures Recovered(g, d)[b] == d[b]
  {
    RecoveredBlock(g, d, b);
  }

  // ---- crash atomicity ----

  /** The home blocks after a transaction whose blocks are the keys of t. */
  ghost function Overlay(d: Disk, t: map<nat, Block>): (e: Disk)
    ensures |e| == |d|
  {
    seq(|d|, b requires 0 <= b < |d| => if b in t then t[b] else d[b])
  }

  /** The header block on disk names the transaction exactly between the two write_head calls. */
  lemma CommitHeader(g: Geometry, d: Disk, c: map<nat, Block>, h: seq<nat>, k: nat)
    requires CanCommit(g, d, c, h)
    requires k <= 2 * |h| + 2
    ensures var e := Apply(d, CommitPlan(g, d[g.start], c, h), k);
      DiskOk(g, e) && Logged(g, e) == if |h| < k <= 2 * |h| + 1 then h else []
  {
    CommitPrefix(g, d, c, h, k);
    var e := Apply(d, CommitPlan(g, d[g.start], c, h), k);
    assert e[g.start] == CommitBlock(g, d, c, h, k, g.start);
    assert Logged(g, e) == if |h| < k <= 2 * |h| + 1 then h else [];
  }

  lemma CommitHome(g: Geometry, d: Disk, c: map<nat, Block>, h: seq<nat>, k: nat, e: Disk, b: nat)
    requires CanCommit(g, d, c, h) && g.Home(b)
    requires DiskOk(g, e) && forall i :: 0 <= i < |d| ==> e[i] == CommitBlock(g, d, c, h, k, i)
    requires k <= 2 * |h| + 2
    requires Logged(g, e) == if |h| < k <= 2 * |h| + 1 then h else []
    ensures Recovered(g, e)[b] == if k > |h| && b in c then c[b] else d[b]
  {
    hide Recovered, NoRepeats;
    var n := |h|;
    var i := IndexOf(h, b);
    if n < k <= 2 * n + 1 && 0 <= i {
      RecoveredHit(g, e, i);
      assert e[g.start + 1 + i] == CommitBlock(g, d, c, h, k, g.start + 1 + i);
    } else {
      RecoveredMiss(g, e, b);
      assert e[b] == CommitBlock(g, d, c, h, k, b);
    }
  }

  /**
   A crash after any number of writes of a commit: recovery yields the old home blocks if the first
   write_head has not been done, and otherwise the home blocks with the whole transaction.
   */
  lemma CommitCrash(g: Geometry, d: Disk, c: map<nat, Block>, h: seq<nat>, k: nat)
    requires CanCommit(g, d, c, h)
    requires k <= 2 * |h| + 2
    ensures var e := Apply(d, CommitPlan(g, d[g.start], c, h), k);
      DiskOk(g, e) && SameHome(g, Recovered(g, e), if k <= |h| then d else Overlay(d, c))
  {
    CommitHeader(g, d, c, h, k);
    CommitPrefix(g, d, c, h, k);
    var e := Apply(d, CommitPlan(g, d[g.start], c, h), k);
    forall b: nat | g.Home(b)
      ensures Recovered(g, e)[b] == (if k <= |h| then d else Overlay(d, c))[b]
    {
      CommitHome(g, d, c, h, k, e, b);
    }
  }

  lemma RecoverHeader(g: Geometry, d: Disk, k: nat)
    requires DiskOk(g, d) && k <= d[g.start].n + 1
    ensures var e := Apply(d, RecoverPlan(g, d), k);
      DiskOk(g, e) && Logged(g, e) == if k <= d[g.start].n then Logged(g, d) else []
  {
    RecoverPrefix(g, d, k);
    var e := Apply(d, RecoverPlan(g, d), k);
    assert e[g.start] == RecoverBlock(g, d, k, g.start);
    assert Logged(g, e) == if k <= d[g.start].n then Logged(g, d) else [];
  }

  lemma RecoverHome(g: Geometry, d: Disk, k: nat, e: Disk, b: nat)
    requires DiskOk(g, d) && k <= d[g.start].n + 1 && g.Home(b)
    requires DiskOk(g, e) && forall i :: 0 <= i < |d| ==> e[i] == RecoverBlock(g, d, k, i)
    requires Logged(g, e) == if k <= d[g.start].n then Logged(g, d) else []
    ensures Recovered(g, e)[b] == Recovered(g, d)[b]
  {
    hide Recovered, NoRepeats;
    var h := Logged(g, d);
    if b !in h {
      RecoveredMiss(g, d, b);
      RecoveredMiss(g, e, b);
    } else if k <= |h| {
      var i := IndexOf(h, b);
      RecoveredHit(g, d, i);
      RecoveredHit(g, e, i);
      assert e[g.start + 1 + i] == d[g.start + 1 + i];
    } else {
      RecoveredBlock(g, d, b);
      RecoveredMiss(g, e, b);
    }
  }

  /** A crash after any number of writes of a recovery changes nothing a later recovery yields. */
  lemma RecoverCrash(g: Geometry, d: Disk, k: nat)
    requires DiskOk(g, d) && k <= d[g.start].n + 1
    ensures var e := Apply(d, RecoverPlan(g, d), k);
      DiskOk(g, e) && SameHome(g, Recovered(g, e), Recovered(g, d))
  {
    RecoverHeader(g, d, k);
    RecoverPrefix(g, d, k);
    var e := Apply(d, RecoverPlan(g, d), k);
    forall b: nat | g.Home(b)
      ensures Recovered(g, e)[b] == Recovered(g, d)[b]
    {
      RecoverHome(g, d, k, e, b);
    }
  }

  /** Disks seen by successive boots: each recovery crashes after some number of its writes. */
  ghost predicate CrashingBoots(g: Geometry, ds: seq<Disk>) {
    && (forall i :: 0 <= i < |ds| ==> DiskOk(g, ds[i]))
    && forall i, j :: 0 <= i < |ds| && j == i + 1 < |ds| ==> CrashedBoot(g, ds[i], ds[j])
  }

  ghost predicate CrashedBoot(g: Geometry, d: Disk, e: Disk)
    requires DiskOk(g, d)
  {
    exists k :: Crashed(g, d, e, k)
  }

  ghost predicate Crashed(g: Geometry, d: Disk, e: Disk, k: nat)
    requires DiskOk(g, d)
  {
    k <= d[g.start].n + 1 && e == Apply(d, RecoverPlan(g, d), k)
  }

  /** However often recovery itself is cut short, the boot that completes it sees the same result. */
  lemma {:induction false} RepeatedCrashes(g: Geometry, ds: seq<Disk>)
    requires |ds| > 0 && CrashingBoots(g, ds)
    ensures SameHome(g, Recovered(g, ds[|ds| - 1]), Recovered(g, ds[0]))
  {
    if |ds| > 1 {
      var m := |ds| - 1;
      RepeatedCrashes(g, ds[..m]);
      assert CrashedBoot(g, ds[m - 1], ds[m]);
      var k :| Crashed(g, ds[m - 1], ds[m], k);
      RecoverCrash(g, ds[m - 1], k);
    }
  }
}
