/**
 What buffers of bio.c hold, as values: the invariant that makes the cache agree with the disk, and what
 each step of a critical section does to the latest contents of every block.
 */
module BufferValues {
  const DISKDEV: nat := 1

  type Data = seq<bv8>

  /** The fields of struct buf other than its links; the sleep lock is a flag. */
  datatype Val = Val(dev: nat, blockno: nat, refcnt: nat, valid: bool, dirty: bool, locked: bool, data: Data)

  function OneMoreRef(v: Val): Val {
    v.(refcnt := v.refcnt + 1)
  }

  function Recycled(v: Val, dev: nat, blockno: nat): Val {
    Val(dev, blockno, 1, false, false, v.locked, v.data)
  }

  predicate Named(v: Val, dev: nat, blockno: nat) {
    v.dev == dev && v.blockno == blockno
  }

  /** bget may recycle this buffer. */
  predicate Idle(v: Val) {
    v.refcnt == 0 && !v.dirty
  }

  /** bget may return buffer i: it has the name, or no buffer has it and this one is idle. */
  ghost predicate Picks(vs: seq<Val>, dev: nat, blockno: nat, i: nat) {
    && i < |vs|
    && (Named(vs[i], dev, blockno)
        || (Idle(vs[i]) && forall j :: 0 <= j < |vs| ==> !Named(vs[j], dev, blockno)))
  }

  /** Neither a buffer with this name nor one to recycle: "bget: no buffers". */
  ghost predicate NoneLeft(vs: seq<Val>, dev: nat, blockno: nat) {
    forall j :: 0 <= j < |vs| ==> !Named(vs[j], dev, blockno) && !Idle(vs[j])
  }

  predicate Holds(v: Val, n: nat) {
    v.valid && Named(v, DISKDEV, n)
  }

  ghost predicate ValOk(v: Val, disk: seq<Data>) {
    && (v.locked ==> v.refcnt > 0)
    && (v.dirty ==> v.valid)
    && (v.valid ==> v.dev == DISKDEV && v.blockno < |disk|)
    && (v.valid && !v.dirty && !v.locked ==> v.data == disk[v.blockno])
  }

  /** No two buffers name the same block; device 0 marks a buffer that has never been used. */
  ghost predicate OneName(vs: seq<Val>) {
    forall i, j :: 0 <= i < j < |vs| && vs[i].dev != 0 ==> !Named(vs[j], vs[i].dev, vs[i].blockno)
  }

  ghost predicate CacheOk(vs: seq<Val>, disk: seq<Data>) {
    OneName(vs) && forall i :: 0 <= i < |vs| ==> ValOk(vs[i], disk)
  }

  /** The buffer that holds block n, or -1. */
  ghost function Holder(vs: seq<Val>, n: nat): (i: int)
    ensures -1 <= i < |vs|
    ensures i >= 0 ==> Holds(vs[i], n)
    ensures i < 0 ==> forall j :: 0 <= j < |vs| ==> !Holds(vs[j], n)
  {
    if exists j :: 0 <= j < |vs| && Holds(vs[j], n) then
      var j :| 0 <= j < |vs| && Holds(vs[j], n);
      j
    else -1
  }

  /** The latest contents of block n: those of the buffer that holds it, else those on disk. */
  ghost function Latest(vs: seq<Val>, disk: seq<Data>, n: nat): Data
    requires n < |disk|
  {
    if Holder(vs, n) >= 0 then vs[Holder(vs, n)].data else disk[n]
  }

  /** The latest contents of every block are the same in both states. */
  ghost predicate SameLatest(vs: seq<Val>, disk: seq<Data>, ws: seq<Val>, disk': seq<Data>) {
    |disk| == |disk'| && forall n :: 0 <= n < |disk| ==> Latest(ws, disk', n) == Latest(vs, disk, n)
  }

  lemma SameLatestTrans(vs: seq<Val>, d: seq<Data>, ws: seq<Val>, e: seq<Data>, xs: seq<Val>, f: seq<Data>)
    requires SameLatest(vs, d, ws, e) && SameLatest(ws, e, xs, f)
    ensures SameLatest(vs, d, xs, f)
  {
  }

  lemma SameLatestAt(vs: seq<Val>, ws: seq<Val>, disk: seq<Data>, n: nat)
    requires SameLatest(vs, disk, ws, disk) && n < |disk|
    ensures Latest(ws, disk, n) == Latest(vs, disk, n)
  {
  }

  lemma HolderIs(vs: seq<Val>, n: nat, i: nat)
    requires OneName(vs) && i < |vs| && Holds(vs[i], n)
    ensures Holder(vs, n) == i
  {
    var j := Holder(vs, n);
    assert Named(vs[j], vs[i].dev, vs[i].blockno) && Named(vs[i], vs[j].dev, vs[j].blockno);
  }

  lemma LatestIs(vs: seq<Val>, disk: seq<Data>, n: nat, i: nat)
    requires OneName(vs) && i < |vs| && Holds(vs[i], n) && n < |disk|
    ensures Latest(vs, disk, n) == vs[i].data
  {
    HolderIs(vs, n, i);
  }

  /** A buffer that holds block n when nothing else has changed has its latest contents. */
  lemma FilledLatest(vs: seq<Val>, ws: seq<Val>, disk: seq<Data>, i: nat, n: nat)
    requires SameLatest(vs, disk, ws, disk) && CacheOk(ws, disk) && i < |ws| && Holds(ws[i], n) && n < |disk|
    ensures ws[i].data == Latest(vs, disk, n)
  {
    LatestIs(ws, disk, n, i);
  }

  /** Buffer i changes to v: who holds a block n afterwards. */
  lemma HolderAfter(vs: seq<Val>, i: nat, v: Val, n: nat)
    requires i < |vs| && OneName(vs) && OneName(vs[i := v])
    ensures Holder(vs[i := v], n) == if Holds(v, n) then i else if Holder(vs, n) == i then -1 else Holder(vs, n)
  {
    var ws := vs[i := v];
    if Holds(v, n) {
      HolderIs(ws, n, i);
    } else if Holder(vs, n) == i {
      forall j | 0 <= j < |ws|
        ensures !Holds(ws[j], n)
      {
        if j != i && Holds(vs[j], n) {
          HolderIs(vs, n, j);
        }
      }
    } else if Holder(vs, n) >= 0 {
      HolderIs(ws, n, Holder(vs, n));
    } else {
      assert forall j :: 0 <= j < |ws| && j != i ==> ws[j] == vs[j];
    }
  }

  /** A step that gives buffer i a name no other buffer has keeps names unique. */
  lemma KeepNames(vs: seq<Val>, i: nat, v: Val)
    requires OneName(vs) && i < |vs|
    requires v.dev != 0 && !Named(vs[i], v.dev, v.blockno) ==>
      forall j :: 0 <= j < |vs| ==> !Named(vs[j], v.dev, v.blockno)
    requires v.dev == 0 ==> vs[i].dev == 0
    ensures OneName(vs[i := v])
  {
    var ws := vs[i := v];
    forall j, l | 0 <= j < l < |ws| && ws[j].dev != 0
      ensures !Named(ws[l], ws[j].dev, ws[j].blockno)
    {
      assert j != i ==> ws[j] == vs[j];
      assert l != i ==> ws[l] == vs[l];
    }
  }

  /**
   Recycling: the idle buffer i takes a new name and loses its contents.  No block's latest contents are
   lost, because an idle buffer agrees with the disk.
   */
  lemma RecycleKeeps(vs: seq<Val>, disk: seq<Data>, i: nat, dev: nat, blockno: nat)
    requires CacheOk(vs, disk) && i < |vs| && Idle(vs[i]) && dev != 0
    requires forall j :: 0 <= j < |vs| ==> !Named(vs[j], dev, blockno)
    ensures var ws := vs[i := Recycled(vs[i], dev, blockno)];
      CacheOk(ws, disk) && SameLatest(vs, disk, ws, disk)
  {
    var v := Recycled(vs[i], dev, blockno);
    KeepNames(vs, i, v);
    forall n | 0 <= n < |disk|
      ensures Latest(vs[i := v], disk, n) == Latest(vs, disk, n)
    {
      HolderAfter(vs, i, v, n);
    }
  }

  /** iderw of a clean buffer without contents: a read from disk. */
  lemma FillKeeps(vs: seq<Val>, disk: seq<Data>, i: nat)
    requires CacheOk(vs, disk) && i < |vs| && !vs[i].valid && vs[i].dev == DISKDEV && vs[i].blockno < |disk|
    ensures var ws := vs[i := Filled(vs[i], disk[vs[i].blockno])];
      CacheOk(ws, disk) && SameLatest(vs, disk, ws, disk)
  {
    var v := Filled(vs[i], disk[vs[i].blockno]);
    KeepNames(vs, i, v);
    forall n | 0 <= n < |disk|
      ensures Latest(vs[i := v], disk, n) == Latest(vs, disk, n)
    {
      HolderAfter(vs, i, v, n);
      if Holds(v, n) && Holder(vs, n) >= 0 {
        SameName(vs, i, Holder(vs, n));
      }
    }
  }

  lemma SameName(vs: seq<Val>, i: nat, j: nat)
    requires OneName(vs) && i < |vs| && j < |vs| && vs[i].dev != 0 && Named(vs[j], vs[i].dev, vs[i].blockno)
    ensures i == j
  {
    assert Named(vs[i], vs[j].dev, vs[j].blockno);
  }

  lemma OtherBlock(vs: seq<Val>, i: nat, j: nat)
    requires OneName(vs) && i < |vs| && j < |vs| && i != j
    requires vs[i].dev == vs[j].dev == DISKDEV
    ensures vs[i].blockno != vs[j].blockno
  {
    if vs[i].blockno == vs[j].blockno {
      SameName(vs, i, j);
    }
  }

  /** iderw of a dirty buffer: its contents go to disk, and it is clean. */
  lemma FlushKeeps(vs: seq<Val>, disk: seq<Data>, i: nat)
    requires CacheOk(vs, disk) && i < |vs| && vs[i].dirty
    ensures var d := disk[vs[i].blockno := vs[i].data];
      var ws := vs[i := Flushed(vs[i])];
      CacheOk(ws, d) && SameLatest(vs, disk, ws, d)
  {
    var v := Flushed(vs[i]);
    var ws := vs[i := v];
    var d := disk[vs[i].blockno := vs[i].data];
    assert ValOk(vs[i], disk);
    KeepNames(vs, i, v);
    forall j | 0 <= j < |ws|
      ensures ValOk(ws[j], d)
    {
      assert ValOk(vs[j], disk);
      if j != i && vs[j].valid {
        OtherBlock(vs, i, j);
      }
    }
    forall n | 0 <= n < |disk|
      ensures Latest(ws, d, n) == Latest(vs, disk, n)
    {
      HolderAfter(vs, i, v, n);
      if n == vs[i].blockno {
        HolderIs(vs, n, i);
      }
    }
  }

  function Locked(v: Val): Val {
    v.(locked := true)
  }

  function Filled(v: Val, data: Data): Val {
    v.(valid := true, data := data)
  }

  /** What bget makes of the buffer it returns: one more reference, or a new name. */
  function Taken(v: Val, dev: nat, blockno: nat): Val {
    if Named(v, dev, blockno) then OneMoreRef(v) else Recycled(v, dev, blockno)
  }

  /** What bread makes of it then: it is locked, and has contents. */
  function Opened(v: Val, disk: seq<Data>): Val
    requires v.valid || v.blockno < |disk|
  {
    if v.valid then Locked(v) else Filled(Locked(v), disk[v.blockno])
  }

  function Flushed(v: Val): Val {
    v.(dirty := false)
  }

  function Pinned(v: Val): Val {
    v.(dirty := true)
  }

  function Unlocked(v: Val): Val {
    v.(locked := false)
  }

  function Dropped(v: Val): Val
    requires v.refcnt > 0
  {
    v.(refcnt := v.refcnt - 1)
  }

  /** A step that changes only counts, the lock or the dirty flag of buffer i. */
  lemma FlagsKeep(vs: seq<Val>, disk: seq<Data>, i: nat, v: Val)
    requires CacheOk(vs, disk) && i < |vs| && ValOk(v, disk)
    requires Named(v, vs[i].dev, vs[i].blockno) && v.valid == vs[i].valid && v.data == vs[i].data
    ensures CacheOk(vs[i := v], disk)
    ensures SameLatest(vs, disk, vs[i := v], disk)
  {
    KeepNames(vs, i, v);
    forall n | 0 <= n < |disk|
      ensures Latest(vs[i := v], disk, n) == Latest(vs, disk, n)
    {
      HolderAfter(vs, i, v, n);
    }
  }

  /** The holder of the lock changes the contents: that block's latest contents, and no other's. */
  lemma ModifySets(vs: seq<Val>, disk: seq<Data>, i: nat, data: Data)
    requires CacheOk(vs, disk) && i < |vs| && vs[i].valid && vs[i].locked
    ensures var ws := vs[i := vs[i].(data := data)];
      && CacheOk(ws, disk)
      && forall n :: 0 <= n < |disk| ==>
           Latest(ws, disk, n) == if n == vs[i].blockno then data else Latest(vs, disk, n)
  {
    var v := vs[i].(data := data);
    assert ValOk(vs[i], disk);
    KeepNames(vs, i, v);
    forall n | 0 <= n < |disk|
      ensures Latest(vs[i := v], disk, n) == if n == vs[i].blockno then data else Latest(vs, disk, n)
    {
      HolderAfter(vs, i, v, n);
      if Holder(vs, n) == i {
        assert n == vs[i].blockno;
      }
    }
  }
}
