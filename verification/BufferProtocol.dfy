/**
 Any number of processes that read, change and release buffers of bio.c, in any interleaving.  A step is a
 critical section under bcache.lock, an acquire or a release of a buffer's sleep lock, or something the holder
 of that lock does.  A claim is one call of bread together with the brelse that ends it; a process may have
 several.
 */
module BufferProtocol {
  import opened Params
  import opened BufferValues

  /** Where a claim stands: bget has taken a reference and may have to wait for the sleep lock; it has the lock;
      bread has returned, and the caller may have changed the data; brelse has given the lock back. */
  datatype Phase = Waiting | Holding | Returned(changed: bool) | Released

  datatype Claim = Claim(buf: nat, dev: nat, blockno: nat, phase: Phase)

  datatype State = State(vs: seq<Val>, disk: seq<Data>, claims: map<nat, Claim>)

  datatype Step =
    // bread: bget under bcache.lock, which picks buffer i; acquiresleep, once the lock is free; iderw if it must
    | Get(c: nat, dev: nat, blockno: nat, i: nat)
    | Acquire(c: nat)
    | Read(c: nat)
    // the caller: a change of the data; bwrite; log_write
    | Modify(c: nat, data: Data)
    | Write(c: nat)
    | Pin(c: nat)
    // brelse: releasesleep, and the rest under bcache.lock
    | Release(c: nat)
    | Drop(c: nat)

  ghost predicate Has(s: State, c: nat) {
    c in s.claims && s.claims[c].buf < |s.vs|
  }

  /** The buffer of claim c. */
  function Of(s: State, c: nat): Val
    requires Has(s, c)
  {
    s.vs[s.claims[c].buf]
  }

  /** A block that the disk has. */
  predicate OnDisk(s: State, v: Val) {
    v.dev == DISKDEV && v.blockno < |s.disk|
  }

  /** The guards of the code, no panic, and the promise of callers to write or pin what they have changed. */
  ghost predicate Enabled(s: State, e: Step) {
    match e
    case Get(c, dev, blockno, i) => c !in s.claims && dev != 0 && Picks(s.vs, dev, blockno, i)
    case Acquire(c) => Has(s, c) && s.claims[c].phase.Waiting? && !Of(s, c).locked
    case Read(c) => Has(s, c) && s.claims[c].phase.Holding? && (Of(s, c).valid || OnDisk(s, Of(s, c)))
    case Modify(c, _) => Has(s, c) && s.claims[c].phase.Returned?
    case Write(c) => Has(s, c) && s.claims[c].phase.Returned? && OnDisk(s, Of(s, c))
    case Pin(c) => Has(s, c) && s.claims[c].phase.Returned?
    case Release(c) => Has(s, c) && s.claims[c].phase.Returned? && (s.claims[c].phase.changed ==> Of(s, c).dirty)
    case Drop(c) => Has(s, c) && s.claims[c].phase.Released? && Of(s, c).refcnt > 0
  }

  /** Claim c goes on to a phase, and its buffer becomes v. */
  function To(s: State, c: nat, phase: Phase, v: Val): State
    requires Has(s, c)
  {
    s.(vs := s.vs[s.claims[c].buf := v], claims := s.claims[c := s.claims[c].(phase := phase)])
  }

  ghost function Do(s: State, e: Step): State
    requires Enabled(s, e)
  {
    match e
    case Get(c, dev, blockno, i) =>
      s.(vs := s.vs[i := Taken(s.vs[i], dev, blockno)], claims := s.claims[c := Claim(i, dev, blockno, Waiting)])
    case Acquire(c) => To(s, c, Holding, Locked(Of(s, c)))
    case Read(c) =>
      To(s, c, Returned(false), if Of(s, c).valid then Of(s, c) else Filled(Of(s, c), s.disk[Of(s, c).blockno]))
    case Modify(c, data) => To(s, c, Returned(true), Of(s, c).(data := data))
    case Write(c) =>
      To(s, c, Returned(false), Flushed(Of(s, c))).(disk := s.disk[Of(s, c).blockno := Of(s, c).data])
    case Pin(c) => To(s, c, Returned(false), Pinned(Of(s, c)))
    case Release(c) => To(s, c, Released, Unlocked(Of(s, c)))
    case Drop(c) => s.(vs := s.vs[s.claims[c].buf := Dropped(Of(s, c))], claims := s.claims - {c})
  }

  // ---- the invariant ----

  ghost function Claimants(claims: map<nat, Claim>, i: nat): set<nat> {
    set c | c in claims && claims[c].buf == i
  }

  predicate HasLock(p: Phase) {
    p.Holding? || p.Returned?
  }

  /** The buffer of a claim keeps the block's name; the lock is the claim's if it says so; and what has not been
      changed agrees with the disk or is pinned. */
  ghost predicate ClaimOk(k: Claim, vs: seq<Val>, disk: seq<Data>) {
    && k.buf < |vs| && k.dev != 0 && Named(vs[k.buf], k.dev, k.blockno)
    && (HasLock(k.phase) ==> vs[k.buf].locked)
    && (k.phase.Returned? ==> vs[k.buf].valid)
    && (vs[k.buf].valid && HasLock(k.phase) && k.phase != Returned(true) && !vs[k.buf].dirty ==>
          k.blockno < |disk| && vs[k.buf].data == disk[k.blockno])
  }

  ghost predicate ClaimsOk(s: State) {
    forall c :: c in s.claims ==> ClaimOk(s.claims[c], s.vs, s.disk)
  }

  /** At most one claim has the lock of a buffer, and some claim has it if it is taken. */
  ghost predicate LocksOk(s: State) {
    && (forall c, d, i :: Locks(s, c, i) && Locks(s, d, i) ==> c == d)
    && forall i :: 0 <= i < |s.vs| && s.vs[i].locked ==> exists c :: Locks(s, c, i)
  }

  predicate Locks(s: State, c: nat, i: nat) {
    c in s.claims && s.claims[c].buf == i && HasLock(s.claims[c].phase)
  }

  ghost predicate SoleHolder(s: State, c: nat, i: nat) {
    Locks(s, c, i) && forall d :: d in s.claims && d != c ==> !Locks(s, d, i)
  }

  /** The reference count is the number of claims. */
  ghost predicate CountsOk(s: State) {
    forall i :: 0 <= i < |s.vs| ==> s.vs[i].refcnt == |Claimants(s.claims, i)|
  }

  ghost predicate Inv(s: State) {
    CacheOk(s.vs, s.disk) && ClaimsOk(s) && LocksOk(s) && CountsOk(s)
  }

  // ---- what a step does to the latest contents ----

  /** Latest contents of block n after step e. */
  ghost function After(s: State, e: Step, n: nat): Data
    requires Enabled(s, e) && n < |s.disk|
  {
    if e.Modify? && s.claims[e.c].blockno == n then e.data else Latest(s.vs, s.disk, n)
  }

  ghost predicate Agrees(s: State, e: Step)
    requires Enabled(s, e)
  {
    var t := Do(s, e);
    && CacheOk(t.vs, t.disk) && |t.vs| == |s.vs| && |t.disk| == |s.disk|
    && forall n :: 0 <= n < |s.disk| ==> Latest(t.vs, t.disk, n) == After(s, e, n)
  }

  lemma IdleUnclaimed(s: State, c: nat)
    requires Inv(s) && c in s.claims
    ensures s.vs[s.claims[c].buf].refcnt > 0
  {
    assert ClaimOk(s.claims[c], s.vs, s.disk);
    assert c in Claimants(s.claims, s.claims[c].buf);
  }

  /** Another claim on the buffer of a claim that has the lock: there are two references. */
  lemma TwoClaims(s: State, c: nat, d: nat)
    requires Inv(s) && c in s.claims && d in s.claims && c != d && s.claims[c].buf == s.claims[d].buf
    ensures s.vs[s.claims[c].buf].refcnt > 1
  {
    var i := s.claims[c].buf;
    assert ClaimOk(s.claims[c], s.vs, s.disk);
    assert {c, d} <= Claimants(s.claims, i);
    SubsetSize({c, d}, Claimants(s.claims, i));
  }

  lemma SubsetSize(a: set<nat>, b: set<nat>)
    requires a <= b
    ensures |a| <= |b|
  {
    assert b == a + (b - a);
  }

  /** A claim whose lock has been given back is not the last one while the buffer is locked. */
  lemma DropKeepsLocker(s: State, c: nat)
    requires Inv(s) && Enabled(s, Drop(c))
    ensures Of(s, c).locked ==> Of(s, c).refcnt > 1
  {
    if Of(s, c).locked {
      var d :| Locks(s, d, s.claims[c].buf);
      TwoClaims(s, c, d);
    }
  }

  lemma GetAgrees(s: State, e: Step)
    requires e.Get? && Inv(s) && Enabled(s, e)
    ensures Agrees(s, e)
  {
    hide Latest, CacheOk, ClaimsOk, LocksOk, CountsOk;
    var v := s.vs[e.i];
    assert ValOk(v, s.disk) by { CacheOkAt(s.vs, s.disk, e.i); }
    if Named(v, e.dev, e.blockno) {
      FlagsKeep(s.vs, s.disk, e.i, OneMoreRef(v));
    } else {
      RecycleKeeps(s.vs, s.disk, e.i, e.dev, e.blockno);
    }
  }

  lemma CacheOkAt(vs: seq<Val>, disk: seq<Data>, i: nat)
    requires CacheOk(vs, disk) && i < |vs|
    ensures ValOk(vs[i], disk)
  {
  }

  lemma ReadAgrees(s: State, c: nat)
    requires Inv(s) && Enabled(s, Read(c))
    ensures Agrees(s, Read(c))
  {
    hide Latest, LocksOk, CountsOk;
    var i := s.claims[c].buf;
    assert ClaimOk(s.claims[c], s.vs, s.disk);
    if s.vs[i].valid {
      assert s.vs[i := s.vs[i]] == s.vs;
    } else {
      FillKeeps(s.vs, s.disk, i);
    }
  }

  lemma WriteAgrees(s: State, c: nat)
    requires Inv(s) && Enabled(s, Write(c))
    ensures Agrees(s, Write(c))
  {
    hide Latest, LocksOk, CountsOk, OneName;
    var i := s.claims[c].buf;
    var v := s.vs[i];
    assert ClaimOk(s.claims[c], s.vs, s.disk);
    FlagsKeep(s.vs, s.disk, i, Pinned(v));
    FlushKeeps(s.vs[i := Pinned(v)], s.disk, i);
    assert s.vs[i := Pinned(v)][i := Flushed(Pinned(v))] == s.vs[i := Flushed(v)];
  }

  lemma FlagsAgree(s: State, e: Step)
    requires e.Acquire? || e.Pin? || e.Release? || e.Drop?
    requires Inv(s) && Enabled(s, e)
    ensures Agrees(s, e)
  {
    hide Latest, LocksOk, CountsOk, OneName;
    var i := s.claims[e.c].buf;
    assert ClaimOk(s.claims[e.c], s.vs, s.disk);
    IdleUnclaimed(s, e.c);
    if e.Drop? {
      DropKeepsLocker(s, e.c);
    }
    FlagsKeep(s.vs, s.disk, i, Do(s, e).vs[i]);
  }

  lemma ModifyAgrees(s: State, e: Step)
    requires e.Modify? && Inv(s) && Enabled(s, e)
    ensures Agrees(s, e)
  {
    hide Latest, LocksOk, CountsOk, OneName;
    assert ClaimOk(s.claims[e.c], s.vs, s.disk);
    ModifySets(s.vs, s.disk, s.claims[e.c].buf, e.data);
  }

  /** Only a change of the data by the holder of the lock changes the latest contents, of that block alone. */
  lemma StepAgrees(s: State, e: Step)
    requires Inv(s) && Enabled(s, e)
    ensures Agrees(s, e)
  {
    hide Inv, Agrees, Enabled, Do;
    match e
    case Get(_, _, _, _) => GetAgrees(s, e);
    case Read(c) => ReadAgrees(s, c);
    case Write(c) => WriteAgrees(s, c);
    case Modify(_, _) => ModifyAgrees(s, e);
    case _ => FlagsAgree(s, e);
  }

  // ---- what a step does to the claims ----

  /** A claim d that the step is not about. */
  lemma OtherClaim(s: State, e: Step, d: nat)
    requires Inv(s) && Enabled(s, e) && d in s.claims && d != e.c
    ensures ClaimOk(s.claims[d], Do(s, e).vs, Do(s, e).disk)
  {
    hide CountsOk, OneName;
    var k := s.claims[d];
    assert ClaimOk(k, s.vs, s.disk);
    IdleUnclaimed(s, d);
    var i := if e.Get? then e.i else s.claims[e.c].buf;
    if !e.Get? {
      assert ClaimOk(s.claims[e.c], s.vs, s.disk);
      assert k.buf == i && HasLock(k.phase) && HasLock(s.claims[e.c].phase) ==> Locks(s, d, i) && Locks(s, e.c, i);
      if k.buf != i && k.blockno == s.vs[i].blockno && k.dev == s.vs[i].dev {
        SameName(s.vs, k.buf, i);
      }
    }
    assert k.buf != i ==> Do(s, e).vs[k.buf] == s.vs[k.buf];
    assert s.vs[k.buf].valid ==> k.dev == DISKDEV;
  }

  /** The claim the step is about. */
  lemma OwnClaim(s: State, e: Step)
    requires Inv(s) && Enabled(s, e) && !e.Drop?
    ensures ClaimOk(Do(s, e).claims[e.c], Do(s, e).vs, Do(s, e).disk)
  {
    hide CountsOk, OneName, LocksOk;
    if !e.Get? {
      assert ClaimOk(s.claims[e.c], s.vs, s.disk);
      CacheOkAt(s.vs, s.disk, s.claims[e.c].buf);
    }
  }

  lemma KeepClaims(s: State, e: Step)
    requires Inv(s) && Enabled(s, e)
    ensures ClaimsOk(Do(s, e))
  {
    hide ClaimOk, Inv;
    var t := Do(s, e);
    forall d | d in t.claims
      ensures ClaimOk(t.claims[d], t.vs, t.disk)
    {
      if d == e.c {
        OwnClaim(s, e);
      } else {
        OtherClaim(s, e, d);
      }
    }
  }

  /** The holders of locks change only by Acquire and Release. */
  lemma LocksAfter(s: State, e: Step, d: nat, i: nat)
    requires Enabled(s, e)
    ensures Locks(Do(s, e), d, i) <==>
      (e.Acquire? && d == e.c && s.claims[d].buf == i) || (Locks(s, d, i) && !(e.Release? && d == e.c))
  {
  }

  lemma KeepLocks(s: State, e: Step)
    requires Inv(s) && Enabled(s, e)
    ensures LocksOk(Do(s, e))
  {
    hide CountsOk, CacheOk;
    var t := Do(s, e);
    forall c, d, i | Locks(t, c, i) && Locks(t, d, i)
      ensures c == d
    {
      LocksAfter(s, e, c, i);
      LocksAfter(s, e, d, i);
      assert Locks(s, c, i) ==> ClaimOk(s.claims[c], s.vs, s.disk);
      assert Locks(s, d, i) ==> ClaimOk(s.claims[d], s.vs, s.disk);
    }
    forall i | 0 <= i < |t.vs| && t.vs[i].locked
      ensures exists c :: Locks(t, c, i)
    {
      StillLocked(s, e, i);
    }
  }

  lemma StillLocked(s: State, e: Step, i: nat)
    requires Inv(s) && Enabled(s, e) && i < |Do(s, e).vs| && Do(s, e).vs[i].locked
    ensures exists c :: Locks(Do(s, e), c, i)
  {
    hide CountsOk;
    var t := Do(s, e);
    if e.Acquire? && s.claims[e.c].buf == i {
      LocksAfter(s, e, e.c, i);
      assert Locks(t, e.c, i);
    } else {
      assert s.vs[i].locked by {
        if e.Get? && e.i == i {
          assert ValOk(s.vs[i], s.disk);
        }
      }
      var d :| Locks(s, d, i);
      LocksAfter(s, e, d, i);
      assert Locks(t, d, i);
    }
  }

  lemma ClaimantsAfter(s: State, e: Step, i: nat)
    requires Enabled(s, e)
    ensures Claimants(Do(s, e).claims, i) ==
      if e.Get? && e.i == i then Claimants(s.claims, i) + {e.c}
      else if e.Drop? then Claimants(s.claims, i) - {e.c}
      else Claimants(s.claims, i)
  {
  }

  lemma KeepCount(s: State, e: Step, i: nat)
    requires Enabled(s, e) && i < |s.vs| && CountsOk(s) && |Do(s, e).vs| == |s.vs|
    ensures Do(s, e).vs[i].refcnt == |Claimants(Do(s, e).claims, i)|
  {
    ClaimantsAfter(s, e, i);
    var was := Claimants(s.claims, i);
    assert s.vs[i].refcnt == |was|;
    if e.Get? && e.i == i {
      assert e.c !in was;
    } else if e.Drop? {
      assert e.c in was <==> s.claims[e.c].buf == i;
    }
  }

  lemma KeepCounts(s: State, e: Step)
    requires Inv(s) && Enabled(s, e) && |Do(s, e).vs| == |s.vs|
    ensures CountsOk(Do(s, e))
  {
    hide LocksOk, CacheOk, ClaimsOk, Claimants, Do, Enabled;
    forall i | 0 <= i < |Do(s, e).vs|
      ensures Do(s, e).vs[i].refcnt == |Claimants(Do(s, e).claims, i)|
    {
      KeepCount(s, e, i);
    }
  }

  /** Every step keeps the invariant. */
  lemma Keep(s: State, e: Step)
    requires Inv(s) && Enabled(s, e)
    ensures Inv(Do(s, e))
  {
    hide Enabled, Do, CacheOk, ClaimsOk, LocksOk, CountsOk;
    StepAgrees(s, e);
    KeepClaims(s, e);
    KeepLocks(s, e);
    KeepCounts(s, e);
  }

  /** What the methods of BufferCache.Cache require of their callers holds whenever a process takes that step. */
  lemma CallersMayRely(s: State, e: Step)
    requires Inv(s) && Enabled(s, e) && !e.Get?
    ensures var v := Of(s, e.c);
      && Named(v, s.claims[e.c].dev, s.claims[e.c].blockno) && v.refcnt > 0
      && (e.Read? ==> v.locked)
      && (e.Modify? || e.Write? || e.Pin? || e.Release? ==> v.locked && v.valid)
      && (e.Release? && !v.dirty ==> v.blockno < |s.disk| && v.data == s.disk[v.blockno])
      && (e.Drop? && v.locked ==> v.refcnt > 1)
  {
    assert ClaimOk(s.claims[e.c], s.vs, s.disk);
    IdleUnclaimed(s, e.c);
    if e.Drop? {
      DropKeepsLocker(s, e.c);
    }
  }

  // ---- whole runs ----

  /** A run from binit on, over any disk. */
  ghost predicate Run(ss: seq<State>, es: seq<Step>) {
    && |ss| == |es| + 1 && |ss[0].vs| == NBUF && ss[0].claims == map[]
    && (forall i :: 0 <= i < NBUF ==> ss[0].vs[i] == Val(0, 0, 0, false, false, false, []))
    && forall i :: 0 <= i < |es| ==> Follows(ss[i], es[i], ss[i + 1])
  }

  ghost predicate Follows(s: State, e: Step, t: State) {
    Enabled(s, e) && t == Do(s, e)
  }

  lemma {:induction false} RunInv(ss: seq<State>, es: seq<Step>, i: nat)
    requires Run(ss, es) && i < |ss|
    ensures Inv(ss[i]) && |ss[i].vs| == NBUF && |ss[i].disk| == |ss[0].disk|
  {
    if i == 0 {
      assert forall k :: Claimants(ss[0].claims, k) == {};
    } else {
      RunInv(ss, es, i - 1);
      assert Follows(ss[i - 1], es[i - 1], ss[i]);
      Keep(ss[i - 1], es[i - 1]);
      StepAgrees(ss[i - 1], es[i - 1]);
    }
  }

  /** What was last written into block n in the first i steps of a run, by whoever held its buffer; before that,
      what was on disk when the system started. */
  ghost function LastWritten(ss: seq<State>, es: seq<Step>, i: nat, n: nat): Data
    requires Run(ss, es) && i < |ss| && n < |ss[0].disk|
  {
    if i == 0 then ss[0].disk[n]
    else
      assert Follows(ss[i - 1], es[i - 1], ss[i]);
      if es[i - 1].Modify? && ss[i - 1].claims[es[i - 1].c].blockno == n then es[i - 1].data
      else LastWritten(ss, es, i - 1, n)
  }

  lemma FirstLatest(ss: seq<State>, es: seq<Step>, n: nat)
    requires Run(ss, es) && n < |ss[0].disk|
    ensures Latest(ss[0].vs, ss[0].disk, n) == ss[0].disk[n]
  {
    assert forall j :: 0 <= j < |ss[0].vs| ==> !Holds(ss[0].vs[j], n);
  }

  /** The cache and the disk together are one array of blocks. */
  lemma {:induction false} LatestIsLastWritten(ss: seq<State>, es: seq<Step>, i: nat, n: nat)
    requires Run(ss, es) && i < |ss| && n < |ss[0].disk|
    ensures |ss[i].disk| == |ss[0].disk| && Latest(ss[i].vs, ss[i].disk, n) == LastWritten(ss, es, i, n)
  {
    RunInv(ss, es, i);
    if i == 0 {
      FirstLatest(ss, es, n);
    } else {
      hide Inv, Enabled, Do, Latest, CacheOk;
      RunInv(ss, es, i - 1);
      LatestIsLastWritten(ss, es, i - 1, n);
      assert Follows(ss[i - 1], es[i - 1], ss[i]);
      StepAgrees(ss[i - 1], es[i - 1]);
      assert Latest(ss[i].vs, ss[i].disk, n) == After(ss[i - 1], es[i - 1], n);
    }
  }

  /**
   bread, after any wait for the buffer's lock and with any number of other processes at work: when it returns,
   the buffer still has the name of the block that was asked for, the caller alone holds its lock, and it
   contains what was last written into that block.
   */
  lemma ReadReturnsLastWritten(ss: seq<State>, es: seq<Step>, i: nat, c: nat)
    requires Run(ss, es) && i < |es| && es[i] == Read(c)
    ensures c in ss[i + 1].claims && Has(ss[i + 1], c)
    ensures var k := ss[i + 1].claims[c];
      && k == ss[i].claims[c].(phase := k.phase)
      && Of(ss[i + 1], c).valid && Named(Of(ss[i + 1], c), k.dev, k.blockno)
      && k.dev == DISKDEV && k.blockno < |ss[0].disk|
      && Of(ss[i + 1], c).data == LastWritten(ss, es, i + 1, k.blockno)
      && SoleHolder(ss[i + 1], c, k.buf)
  {
    assert Follows(ss[i], es[i], ss[i + 1]);
    RunInv(ss, es, i);
    RunInv(ss, es, i + 1);
    var k := ss[i + 1].claims[c];
    hide Run, LastWritten, Latest, CountsOk;
    JustRead(ss[i], c);
    LatestIsLastWritten(ss, es, i + 1, k.blockno);
  }

  /** What bread returns: the latest contents of the block. */
  lemma JustRead(s: State, c: nat)
    requires Inv(s) && Enabled(s, Read(c))
    ensures var t, k := Do(s, Read(c)), s.claims[c];
      && Has(t, c) && Of(t, c).valid && Named(Of(t, c), k.dev, k.blockno)
      && k.dev == DISKDEV && k.blockno < |t.disk| && Of(t, c).data == Latest(t.vs, t.disk, k.blockno)
      && Locks(t, c, k.buf)
  {
    hide Latest, CountsOk, LocksOk, OneName;
    var t := Do(s, Read(c));
    var k := t.claims[c];
    Keep(s, Read(c));
    assert ClaimOk(k, t.vs, t.disk);
    CacheOkAt(t.vs, t.disk, k.buf);
    LatestIs(t.vs, t.disk, k.blockno, k.buf);
  }

  /** From bget to brelse a buffer keeps the block's name, has a reference for each claim on it, and is locked by
      at most one of them. */
  lemma ClaimedKeepsName(ss: seq<State>, es: seq<Step>, i: nat, c: nat)
    requires Run(ss, es) && i < |ss| && c in ss[i].claims
    ensures Has(ss[i], c) && Named(Of(ss[i], c), ss[i].claims[c].dev, ss[i].claims[c].blockno)
    ensures Of(ss[i], c).refcnt == |Claimants(ss[i].claims, ss[i].claims[c].buf)| > 0
    ensures HasLock(ss[i].claims[c].phase) ==> SoleHolder(ss[i], c, ss[i].claims[c].buf)
    ensures i < |es| && es[i] != Drop(c) ==>
      c in ss[i + 1].claims && ss[i + 1].claims[c] == ss[i].claims[c].(phase := ss[i + 1].claims[c].phase)
  {
    RunInv(ss, es, i);
    var k := ss[i].claims[c];
    assert ClaimOk(k, ss[i].vs, ss[i].disk);
    IdleUnclaimed(ss[i], c);
    assert HasLock(k.phase) ==> Locks(ss[i], c, k.buf);
    assert i < |es| ==> Follows(ss[i], es[i], ss[i + 1]);
  }
}
