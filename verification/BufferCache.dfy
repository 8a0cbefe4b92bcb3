/**
 The buffer cache of bio.c over the memory disk of memide.c: NBUF buffers on a doubly linked ring, most
 recently released first.  Each method is one critical section under bcache.lock, or one step of the
 holder of a buffer's sleep lock, so the invariant holds between the steps of any number of processes.
 */
module BufferCache {
  import opened BufferValues
  import opened Common
  import opened Params

  /** struct buf; the sleep lock is a flag. */
  class Buf {
    var dev: nat
    var blockno: nat
    var refcnt: nat
    var valid: bool
    var dirty: bool
    var locked: bool
    var data: Data
    var prev: Buf
    var next: Buf

    function Snap(): Val
      reads this`dev, this`blockno, this`refcnt, this`valid, this`dirty, this`locked, this`data
    {
      Val(dev, blockno, refcnt, valid, dirty, locked, data)
    }

    /** The assignments of bget that recycle a buffer. */
    method Relabel(dev: nat, blockno: nat)
      modifies this`dev, this`blockno, this`valid, this`dirty, this`refcnt
      ensures Snap() == Recycled(old(Snap()), dev, blockno)
    {
      this.dev := dev;
      this.blockno := blockno;
      valid, dirty := false, false;
      refcnt := 1;
    }

    method Load(data: Data)
      modifies this`valid, this`data
      ensures Snap() == Filled(old(Snap()), data)
    {
      this.data := data;
      valid := true;
    }

    method Drop()
      requires refcnt > 0
      modifies this`refcnt
      ensures Snap() == Dropped(old(Snap()))
    {
      refcnt := refcnt - 1;
    }

    method AddRef()
      modifies this`refcnt
      ensures Snap() == OneMoreRef(old(Snap()))
    {
      refcnt := refcnt + 1;
    }

    constructor ()
      ensures Snap() == Val(0, 0, 0, false, false, false, [])
      ensures next == this && prev == this
    {
      dev, blockno, refcnt, valid, dirty, locked, data := 0, 0, 0, false, false, false, [];
      prev, next := this, this;
    }
  }

  /** Position i of the ring, where the head stands before the first and after the last buffer. */
  ghost function At(head: Buf, order: seq<Buf>, i: int): Buf {
    if 0 <= i < |order| then order[i] else head
  }

  /** Positions i and i + 1 of the ring point at each other. */
  ghost predicate Linked(head: Buf, order: seq<Buf>, i: int)
    reads {head}`next, {head}`prev, order`next, order`prev
  {
    && At(head, order, i).next == At(head, order, i + 1)
    && At(head, order, i + 1).prev == At(head, order, i)
  }

  /** head and the buffers of `order` form one ring: next goes through order, prev back. */
  ghost predicate Ring(head: Buf, order: seq<Buf>)
    reads {head}`next, {head}`prev, order`next, order`prev
  {
    && head !in order && NoRepeats(order)
    && forall i :: -1 <= i < |order| ==> Linked(head, order, i)
  }

  lemma RemovedAt(head: Buf, order: seq<Buf>, k: nat, i: int)
    requires k < |order| && -1 <= i < |order|
    ensures At(head, RemoveAt(order, k), i) == At(head, order, if i < k then i else i + 1)
  {
  }

  lemma RemovedDistinct(head: Buf, order: seq<Buf>, k: nat)
    requires k < |order| && head !in order && NoRepeats(order)
    ensures head !in RemoveAt(order, k) && NoRepeats(RemoveAt(order, k))
  {
    var r := RemoveAt(order, k);
    forall i, j | 0 <= i < j < |r|
      ensures r[i] != r[j]
    {
      assert r[i] == order[if i < k then i else i + 1] && r[j] == order[if j < k then j else j + 1];
    }
  }

  /** The middle of brelse, first half: b leaves the ring. */
  method Unlink(head: Buf, b: Buf, ghost order: seq<Buf>, ghost k: nat)
    requires Ring(head, order) && k < |order| && order[k] == b
    modifies {head}`prev, {head}`next, order`prev, order`next
    ensures Ring(head, RemoveAt(order, k))
  {
    ghost var r := RemoveAt(order, k);
    assert Linked(head, order, k) && Linked(head, order, k - 1);
    b.next.prev := b.prev;
    b.prev.next := b.next;
    RemovedDistinct(head, order, k);
    forall i | -1 <= i < |r|
      ensures Linked(head, r, i)
    {
      RemovedAt(head, order, k, i);
      RemovedAt(head, order, k, i + 1);
      assert old(Linked(head, order, if i < k then i else i + 1));
    }
  }

  /** The middle of brelse, second half, and the body of binit's loop: b goes to the front. */
  method PushFront(head: Buf, b: Buf, ghost order: seq<Buf>)
    requires Ring(head, order) && b !in order && b != head
    modifies {head}`prev, {head}`next, order`prev, order`next, {b}`prev, {b}`next
    ensures Ring(head, [b] + order)
  {
    ghost var r := [b] + order;
    assert Linked(head, order, -1);
    b.next := head.next;
    b.prev := head;
    head.next.prev := b;
    head.next := b;
    forall i | -1 <= i < |r|
      ensures Linked(head, r, i)
    {
      assert i > 0 ==> At(head, r, i) == At(head, order, i - 1);
      assert i >= 0 ==> At(head, r, i + 1) == At(head, order, i);
      assert i >= 1 ==> old(Linked(head, order, i - 1));
    }
  }

  /** The ring lists exactly the buffers of the cache. */
  ghost predicate SameMembers(s: seq<Buf>, t: seq<Buf>) {
    (forall b :: b in s ==> b in t) && forall b :: b in t ==> b in s
  }

  /** When each buffer was last released with no reference left. */
  type Times = map<Buf, nat>

  ghost function When(released: Times, b: Buf): nat {
    if b in released then released[b] else 0
  }

  ghost predicate Later(released: Times, order: seq<Buf>, i: nat, j: nat)
    requires i < |order| && j < |order|
  {
    When(released, order[i]) > When(released, order[j])
  }

  /** Most recently released first. */
  ghost predicate ByRelease(order: seq<Buf>, released: Times, clock: nat) {
    && (forall i :: 0 <= i < |order| ==> When(released, order[i]) <= clock)
    && forall i: nat, j: nat :: i < j < |order| ==> Later(released, order, i, j)
  }

  /** The middle of brelse: b leaves its place in the ring and goes to the front. */
  method Splice(head: Buf, b: Buf, ghost order: seq<Buf>, ghost k: nat)
    requires Ring(head, order) && k < |order| && order[k] == b
    modifies {head}`prev, {head}`next, order`prev, order`next
    ensures Ring(head, [b] + RemoveAt(order, k))
  {
    Unlink(head, b, order, k);
    Outside(order, k);
    PushFront(head, b, RemoveAt(order, k));
  }

  lemma Outside(s: seq<Buf>, k: nat)
    requires NoRepeats(s) && k < |s|
    ensures s[k] !in RemoveAt(s, k)
  {
  }

  lemma Rotated(s: seq<Buf>, k: nat, bufs: seq<Buf>)
    requires SameMembers(s, bufs) && k < |s|
    ensures SameMembers([s[k]] + RemoveAt(s, k), bufs)
  {
    var r := [s[k]] + RemoveAt(s, k);
    forall b | b in r
      ensures b in bufs
    {
      var i :| 0 <= i < |r| && r[i] == b;
      assert i > 0 ==> r[i] == s[if i - 1 < k then i - 1 else i];
    }
    forall b | b in bufs
      ensures b in r
    {
      assert b in s;
      var j :| 0 <= j < |s| && s[j] == b;
      assert r[if j == k then 0 else if j < k then j + 1 else j] == b;
    }
  }

  lemma ReleasedNow(s: seq<Buf>, k: nat, released: Times, clock: nat)
    requires NoRepeats(s) && k < |s| && ByRelease(s, released, clock)
    ensures ByRelease([s[k]] + RemoveAt(s, k), released[s[k] := clock + 1], clock + 1)
  {
    var r := [s[k]] + RemoveAt(s, k);
    Outside(s, k);
    var t := released[s[k] := clock + 1];
    forall i | 0 < i < |r|
      ensures r[i] == s[if i - 1 < k then i - 1 else i] && When(t, r[i]) == When(released, r[i]) <= clock
    {
    }
    forall i: nat, j: nat | i < j < |r|
      ensures Later(t, r, i, j)
    {
      if i > 0 {
        assert Later(released, s, if i - 1 < k then i - 1 else i, if j - 1 < k then j - 1 else j);
      }
    }
  }

  ghost function Snaps(bufs: seq<Buf>): (vs: seq<Val>)
    reads bufs`dev, bufs`blockno, bufs`refcnt, bufs`valid, bufs`dirty, bufs`locked, bufs`data
    ensures |vs| == |bufs| && forall i :: 0 <= i < |bufs| ==> vs[i] == bufs[i].Snap()
  {
    if bufs == [] then [] else Snaps(bufs[..|bufs| - 1]) + [bufs[|bufs| - 1].Snap()]
  }

  /** How a call of bread ends, or pauses. */
  datatype Outcome = Returns | Waits | Panics

  class Cache {
    const head: Buf
    var bufs: seq<Buf>
    var disk: seq<Data>
    // the ring from head.next to head.prev
    ghost var order: seq<Buf>
    ghost var clock: nat
    ghost var released: Times

    /** The contents of all buffers. */
    ghost function Vals(): (vs: seq<Val>)
      reads this`bufs, bufs`dev, bufs`blockno, bufs`refcnt, bufs`valid, bufs`dirty, bufs`locked, bufs`data
      ensures |vs| == |bufs| && forall i :: 0 <= i < |bufs| ==> vs[i] == bufs[i].Snap()
    {
      Snaps(bufs)
    }

    /** The links: one ring of all NBUF buffers, most recently released first. */
    ghost predicate Linkage()
      reads this`bufs, this`order, this`clock, this`released, {head}`next, {head}`prev, order`next, order`prev
    {
      && |bufs| == NBUF && NoRepeats(bufs)
      && Ring(head, order) && SameMembers(order, bufs)
      && ByRelease(order, released, clock)
    }

    ghost predicate Valid()
      reads this, head, bufs, order
    {
      Linkage() && CacheOk(Vals(), disk)
    }

    // ---- binit ----

    ghost predicate Building()
      reads this, head, bufs, order
    {
      && NoRepeats(bufs) && Ring(head, order) && SameMembers(order, bufs) && ByRelease(order, released, clock)
      && forall i :: 0 <= i < |bufs| ==> Unused(bufs[i])
    }

    ghost predicate Unused(b: Buf)
      reads b
    {
      b.Snap() == Val(0, 0, 0, false, false, false, [])
    }

    lemma AddedMembers(b: Buf)
      requires SameMembers(order, bufs) && NoRepeats(bufs) && NoRepeats(order) && b !in bufs
      ensures SameMembers([b] + order, bufs + [b]) && NoRepeats(bufs + [b]) && NoRepeats([b] + order)
    {
    }

    lemma AddedRelease(b: Buf)
      requires ByRelease(order, released, clock) && b !in order
      ensures ByRelease([b] + order, released[b := clock + 1], clock + 1)
    {
      var r := [b] + order;
      var t := released[b := clock + 1];
      forall i | 0 < i < |r|
        ensures r[i] == order[i - 1] && When(t, r[i]) == When(released, r[i]) <= clock
      {
      }
      forall i: nat, j: nat | i < j < |r|
        ensures Later(t, r, i, j)
      {
        assert i > 0 ==> Later(released, order, i - 1, j - 1);
      }
    }

    method NewBuffer() returns (b: Buf)
      requires Ring(head, order)
      modifies {head}`prev, {head}`next, order`prev, order`next
      ensures Ring(head, [b] + order) && fresh(b) && Unused(b)
    {
      b := new Buf();
      PushFront(head, b, order);
    }

    /** The body of binit's loop. */
    method AddBuffer() returns (b: Buf)
      requires Building()
      modifies this`bufs, this`order, this`clock, this`released, {head}`prev, {head}`next, order`prev, order`next
      ensures Building() && fresh(b)
      ensures bufs == old(bufs) + [b] && order == [b] + old(order)
    {
      b := NewBuffer();
      AddedMembers(b);
      AddedRelease(b);
      ghost var was := bufs;
      clock, released, bufs, order := clock + 1, released[b := clock + 1], bufs + [b], [b] + order;
      forall i | 0 <= i < |bufs|
        ensures Unused(bufs[i])
      {
        assert i < |was| ==> bufs[i] == was[i] && old(Unused(was[i]));
      }
    }

    lemma UnusedOk()
      requires forall i :: 0 <= i < |bufs| ==> Unused(bufs[i])
      ensures CacheOk(Vals(), disk) && forall n :: 0 <= n < |disk| ==> Latest(Vals(), disk, n) == disk[n]
    {
      assert forall i :: 0 <= i < |bufs| ==> Vals()[i] == Val(0, 0, 0, false, false, false, []);
    }

    /** binit: all buffers on the ring, none of them in use. */
    constructor (disk: seq<Data>)
      ensures Valid() && this.disk == disk && fresh(head)
      ensures forall i :: 0 <= i < |bufs| ==> fresh(bufs[i])
      ensures forall n :: 0 <= n < |disk| ==> Latest(Vals(), disk, n) == disk[n]
    {
      this.disk := disk;
      head := new Buf();
      bufs, order, clock, released := [], [], 0, map[];
      new;
      assert Linked(head, order, -1);
      while |bufs| < NBUF
        invariant |bufs| <= NBUF && Building() && fresh(head) && this.disk == disk
        invariant forall i :: 0 <= i < |bufs| ==> fresh(bufs[i])
        invariant forall i :: 0 <= i < |order| ==> fresh(order[i])
        decreases NBUF - |bufs|
      {
        var b := AddBuffer();
      }
      UnusedOk();
    }

    // ---- bget ----

    /** bget's first loop, forwards from head.next: the buffer that names the block, if there is one. */
    method Find(dev: nat, blockno: nat) returns (b: Buf?, ghost i: nat)
      requires Valid()
      ensures b != null ==> i < |bufs| && bufs[i] == b && Named(Vals()[i], dev, blockno)
      ensures b == null ==> forall j :: 0 <= j < |bufs| ==> !Named(Vals()[j], dev, blockno)
    {
      var p := head.next;
      ghost var k := 0;
      i := 0;
      assert Linked(head, order, -1);
      while p != head
        invariant 0 <= k <= |order| && p == At(head, order, k)
        invariant forall l :: 0 <= l < k ==> !Named(order[l].Snap(), dev, blockno)
        decreases |order| - k
      {
        if p.dev == dev && p.blockno == blockno {
          assert order[k] in bufs;
          i :| 0 <= i < |bufs| && bufs[i] == p;
          return p, i;
        }
        assert Linked(head, order, k);
        p := p.next;
        k := k + 1;
      }
      assert forall j :: 0 <= j < |bufs| ==> bufs[j] in order;
      b := null;
    }

    /** Of the idle buffers, the last on the ring was released longest ago. */
    lemma LastIdle(k: nat)
      requires Valid() && k < |order| && forall l :: k < l < |order| ==> !Idle(order[l].Snap())
      ensures forall j :: 0 <= j < |bufs| && Idle(Vals()[j]) ==> When(released, order[k]) <= When(released, bufs[j])
    {
      forall j | 0 <= j < |bufs| && Idle(Vals()[j])
        ensures When(released, order[k]) <= When(released, bufs[j])
      {
        assert bufs[j] in order;
        var l: nat :| l < |order| && order[l] == bufs[j];
        assert l < k ==> Later(released, order, l, k);
      }
    }

    /** bget's second loop, backwards from head.prev: of the buffers that may be recycled, the one
        released longest ago. */
    method FindIdle() returns (b: Buf?, ghost i: nat)
      requires Valid()
      ensures b != null ==> i < |bufs| && bufs[i] == b && Idle(Vals()[i])
      ensures b != null ==>
        forall j :: 0 <= j < |bufs| && Idle(Vals()[j]) ==> When(released, b) <= When(released, bufs[j])
      ensures b == null ==> forall j :: 0 <= j < |bufs| ==> !Idle(Vals()[j])
    {
      var p := head.prev;
      ghost var k := |order| - 1;
      i := 0;
      assert Linked(head, order, |order| - 1);
      while p != head
        invariant -1 <= k < |order| && p == At(head, order, k)
        invariant forall l :: k < l < |order| ==> !Idle(order[l].Snap())
        decreases k
      {
        if p.refcnt == 0 && !p.dirty {
          assert order[k] in bufs;
          i :| 0 <= i < |bufs| && bufs[i] == p;
          LastIdle(k);
          return p, i;
        }
        assert Linked(head, order, k - 1);
        p := p.prev;
        k := k - 1;
      }
      assert forall j :: 0 <= j < |bufs| ==> bufs[j] in order;
      b := null;
    }

    /** A write to the fields of buffer i changes exactly that entry of Vals(). */
    lemma OneChange(was: seq<Val>, i: nat)
      requires |was| == |bufs| && i < |bufs|
      requires forall j :: 0 <= j < |bufs| && j != i ==> bufs[j].Snap() == was[j]
      ensures Vals() == was[i := bufs[i].Snap()]
    {
    }

    lemma NoChange(was: seq<Val>)
      requires |was| == |bufs| && forall j :: 0 <= j < |bufs| ==> bufs[j].Snap() == was[j]
      ensures Vals() == was
    {
    }

    /** bget found the block cached: one more reference. */
    method TakeReference(b: Buf, ghost i: nat)
      requires Valid() && i < |bufs| && bufs[i] == b
      modifies b`refcnt
      ensures Valid() && SameLatest(old(Vals()), disk, Vals(), disk)
      ensures Vals() == old(Vals())[i := OneMoreRef(old(Vals())[i])]
    {
      ghost var was := Vals();
      FlagsKeep(was, disk, i, OneMoreRef(was[i]));
      b.AddRef();
      OneChange(was, i);
    }

    /** bget recycles an idle buffer: it takes the block's name, without contents. */
    method Recycle(b: Buf, ghost i: nat, dev: nat, blockno: nat)
      requires Valid() && i < |bufs| && bufs[i] == b && Idle(Vals()[i]) && dev != 0
      requires forall j :: 0 <= j < |bufs| ==> !Named(Vals()[j], dev, blockno)
      modifies b`dev, b`blockno, b`refcnt, b`valid, b`dirty
      ensures Valid() && SameLatest(old(Vals()), disk, Vals(), disk)
      ensures Vals() == old(Vals())[i := Recycled(old(Vals())[i], dev, blockno)]
    {
      ghost var was := Vals();
      RecycleKeeps(was, disk, i, dev, blockno);
      b.Relabel(dev, blockno);
      OneChange(was, i);
    }

    /** What bget makes of the buffers when it returns buffer i. */
    ghost predicate Got(was: seq<Val>, vs: seq<Val>, i: nat, dev: nat, blockno: nat) {
      Picks(was, dev, blockno, i) && vs == was[i := Taken(was[i], dev, blockno)]
    }

    /** Buffer i was released no later than any other buffer that could be recycled. */
    ghost predicate LeastRecent(was: seq<Val>, i: nat)
      requires |was| == |bufs| && i < |bufs|
      reads this`bufs, this`released
    {
      forall j :: 0 <= j < |bufs| && Idle(was[j]) ==> When(released, bufs[i]) <= When(released, bufs[j])
    }

    /**
     bget, under bcache.lock: the buffer that names the block gets one more reference; failing that, the
     idle buffer released longest ago takes the name; failing that, panic.  The caller then waits for the
     buffer's sleep lock.
     */
    method Bget(dev: nat, blockno: nat) returns (b: Buf?, ghost i: nat)
      requires Valid() && dev != 0
      modifies bufs`dev, bufs`blockno, bufs`refcnt, bufs`valid, bufs`dirty
      ensures Valid() && SameLatest(old(Vals()), disk, Vals(), disk)
      ensures b == null ==> Vals() == old(Vals())
      ensures b == null ==> NoneLeft(Vals(), dev, blockno)
      ensures b != null ==> i < |bufs| && bufs[i] == b && Got(old(Vals()), Vals(), i, dev, blockno)
      ensures b != null && !Named(old(Vals())[i], dev, blockno) ==> LeastRecent(old(Vals()), i)
    {
      ghost var was := Vals();
      b, i := Find(dev, blockno);
      if b != null {
        assert Vals() == was;
        TakeReference(b, i);
        assert SameLatest(was, disk, Vals(), disk);
        return;
      }
      b, i := FindIdle();
      assert Vals() == was;
      if b != null {
        assert LeastRecent(was, i);
        Recycle(b, i, dev, blockno);
        assert SameLatest(was, disk, Vals(), disk);
      }
    }

    // ---- steps of a process that has a reference to buffer i ----

    /** acquiresleep, when nobody holds the buffer's lock. */
    method AcquireSleep(b: Buf, ghost i: nat)
      requires Valid() && i < |bufs| && bufs[i] == b && b.refcnt > 0 && !b.locked
      modifies b`locked
      ensures Valid() && SameLatest(old(Vals()), disk, Vals(), disk)
      ensures Vals() == old(Vals())[i := Locked(old(Vals())[i])]
    {
      ghost var was := Vals();
      FlagsKeep(was, disk, i, Locked(was[i]));
      b.locked := true;
      OneChange(was, i);
    }

    method DiskWrite(b: Buf, ghost i: nat)
      requires Valid() && i < |bufs| && bufs[i] == b && b.dirty && b.blockno < |disk|
      modifies this`disk, b`dirty
      ensures Valid() && SameLatest(old(Vals()), old(disk), Vals(), disk)
      ensures disk == old(disk)[b.blockno := b.data] && Vals() == old(Vals())[i := Flushed(old(Vals())[i])]
    {
      ghost var was := Vals();
      FlushKeeps(was, disk, i);
      b.dirty := false;
      disk := disk[b.blockno := b.data];
      OneChange(was, i);
    }

    method DiskRead(b: Buf, ghost i: nat)
      requires Valid() && i < |bufs| && bufs[i] == b && !b.valid && b.dev == DISKDEV && b.blockno < |disk|
      modifies b`valid, b`data
      ensures Valid() && SameLatest(old(Vals()), disk, Vals(), disk)
      ensures Vals() == old(Vals())[i := Filled(old(Vals())[i], disk[b.blockno])]
    {
      ghost var was := Vals();
      FillKeeps(was, disk, i);
      b.Load(disk[b.blockno]);
      OneChange(was, i);
    }

    /** iderw of a buffer its caller has locked: a dirty buffer goes to disk, one without contents is read. */
    method Iderw(b: Buf, ghost i: nat) returns (panic: bool)
      requires Valid() && i < |bufs| && bufs[i] == b && b.locked
      modifies this`disk, b`valid, b`dirty, b`data
      ensures panic <==> (old(b.valid) && !old(b.dirty)) || b.dev != DISKDEV || b.blockno >= |old(disk)|
      ensures panic ==> Vals() == old(Vals()) && disk == old(disk)
      ensures !panic ==> Valid() && SameLatest(old(Vals()), old(disk), Vals(), disk)
      ensures !panic && old(b.dirty) ==>
        disk == old(disk)[b.blockno := b.data] && Vals() == old(Vals())[i := Flushed(old(Vals())[i])]
      ensures !panic && !old(b.dirty) ==>
        disk == old(disk) && Vals() == old(Vals())[i := Filled(old(Vals())[i], disk[b.blockno])]
    {
      assert ValOk(Vals()[i], disk);
      if (b.valid && !b.dirty) || b.dev != DISKDEV || b.blockno >= |disk| {
        return true;
      }
      if b.dirty {
        DiskWrite(b, i);
      } else {
        DiskRead(b, i);
      }
      panic := false;
    }

    /**
     The second half of bread, by a process that has its reference and finds the lock free, perhaps after a wait:
     it returns the latest contents of the block, or panics in iderw because the disk has no such block.
     */
    method Fill(b: Buf, ghost i: nat) returns (panic: bool)
      requires Valid() && i < |bufs| && bufs[i] == b && !b.locked && b.refcnt > 0
      modifies this`disk, b`valid, b`dirty, b`locked, b`data
      ensures panic <==> !old(b.valid) && (b.dev != DISKDEV || b.blockno >= |old(disk)|)
      ensures !panic ==> Valid() && disk == old(disk) && SameLatest(old(Vals()), disk, Vals(), disk)
      ensures !panic ==> b.blockno < |disk| && b.locked && Holds(Vals()[i], b.blockno)
      ensures !panic ==> Vals() == old(Vals())[i := Opened(old(Vals())[i], disk)]
      ensures !panic ==> b.data == Latest(old(Vals()), disk, b.blockno)
    {
      hide Valid, Vals, Latest, CacheOk, SameLatest, OneName;
      ghost var was := Vals();
      ValsOk();
      AcquireSleep(b, i);
      panic := false;
      if !b.valid {
        ghost var locked := Vals();
        panic := Iderw(b, i);
        if !panic {
          SameLatestTrans(was, disk, locked, disk, Vals(), disk);
        }
      }
      if !panic {
        ValsOk();
        FilledLatest(was, Vals(), disk, i, b.blockno);
      }
    }

    lemma ValsOk()
      requires Valid()
      ensures CacheOk(Vals(), disk) && forall i :: 0 <= i < |bufs| ==> ValOk(Vals()[i], disk)
    {
    }

    /** What bget may return of a block that bread then finds without a wait. */
    lemma FoundUnlocked(was: seq<Val>, i: nat, dev: nat, blockno: nat)
      requires CacheOk(was, disk) && Picks(was, dev, blockno, i)
      ensures ValOk(was[i], disk)
      ensures Taken(was[i], dev, blockno).refcnt > 0 && Named(Taken(was[i], dev, blockno), dev, blockno)
      ensures Taken(was[i], dev, blockno).locked == was[i].locked
      ensures Taken(was[i], dev, blockno).locked ==> Taken(was[i], dev, blockno) == OneMoreRef(was[i])
    {
    }

    /**
     bread up to the moment it returns, or has to wait for the process that holds the buffer's lock; Fill is what
     follows the wait, and BufferProtocol says what other processes may have done in between.
     */
    method Bread(dev: nat, blockno: nat) returns (b: Buf?, ghost i: nat, o: Outcome)
      requires Valid() && dev != 0
      modifies this`disk, bufs`dev, bufs`blockno, bufs`refcnt, bufs`valid, bufs`dirty, bufs`locked, bufs`data
      ensures !o.Panics? ==> Valid() && disk == old(disk) && SameLatest(old(Vals()), disk, Vals(), disk)
      ensures !o.Panics? ==> i < |bufs| && b == bufs[i] && b.locked && Named(Vals()[i], dev, blockno)
      ensures o.Returns? ==> dev == DISKDEV && blockno < |disk| && b.valid && !old(Vals())[i].locked
      ensures o.Returns? ==> b.data == Latest(old(Vals()), disk, blockno)
      ensures o.Returns? ==> (var v := Taken(old(Vals())[i], dev, blockno);
        (v.valid || v.blockno < |disk|) && Vals() == old(Vals())[i := Opened(v, disk)])
      ensures o.Waits? ==> old(Vals())[i].locked && Vals() == old(Vals())[i := OneMoreRef(old(Vals())[i])]
      ensures o.Panics? ==> dev != DISKDEV || blockno >= |old(disk)| || NoneLeft(old(Vals()), dev, blockno)
    {
      hide Valid, Vals, Latest, LeastRecent, CacheOk, NoneLeft, SameLatest, Opened, Taken;
      ghost var was := Vals();
      ValsOk();
      b, i := Bget(dev, blockno);
      if b == null {
        return b, i, Panics;
      }
      FoundUnlocked(was, i, dev, blockno);
      if b.locked {
        return b, i, Waits;
      }
      ghost var got := Vals();
      var panic := Fill(b, i);
      if panic {
        return b, i, Panics;
      }
      SameLatestTrans(was, disk, got, disk, Vals(), disk);
      SameLatestAt(was, got, disk, blockno);
      o := Returns;
    }

    /** The holder changes the data of its buffer. */
    method Modify(b: Buf, ghost i: nat, data: Data)
      requires Valid() && i < |bufs| && bufs[i] == b && b.locked && b.valid
      modifies b`data
      ensures Valid()
      ensures forall n :: 0 <= n < |disk| ==>
        Latest(Vals(), disk, n) == if n == b.blockno then data else Latest(old(Vals()), disk, n)
    {
      ghost var was := Vals();
      ModifySets(was, disk, i, data);
      b.data := data;
      OneChange(was, i);
    }

    /** log_write's pin: B_DIRTY keeps the buffer from being recycled before the commit. */
    method Pin(b: Buf, ghost i: nat)
      requires Valid() && i < |bufs| && bufs[i] == b && b.locked && b.valid
      modifies b`dirty
      ensures Valid() && SameLatest(old(Vals()), disk, Vals(), disk)
      ensures Vals() == old(Vals())[i := Pinned(old(Vals())[i])]
    {
      ghost var was := Vals();
      FlagsKeep(was, disk, i, Pinned(was[i]));
      b.dirty := true;
      OneChange(was, i);
    }

    /** bwrite: the buffer's contents go to disk, and it is clean. */
    method Bwrite(b: Buf, ghost i: nat)
      requires Valid() && i < |bufs| && bufs[i] == b && b.locked && b.valid
      modifies this`disk, b`valid, b`dirty, b`data
      ensures Valid() && SameLatest(old(Vals()), old(disk), Vals(), disk)
      ensures disk == old(disk)[b.blockno := b.data] && b.data == old(b.data)
      ensures Vals() == old(Vals())[i := Flushed(old(Vals())[i])]
    {
      hide Valid, Vals, Latest, CacheOk;
      ghost var was := Vals();
      ValsOk();
      Pin(b, i);
      ghost var pinned := Vals();
      assert pinned[i] == Pinned(was[i]);
      var panic := Iderw(b, i);
      assert was[i := Pinned(was[i])][i := Flushed(pinned[i])] == was[i := Flushed(was[i])];
    }

    // ---- brelse ----

    /** brelse moves a buffer without references to the front of the ring. */
    method MoveToFront(b: Buf)
      requires Linkage() && b in bufs
      modifies this`order, this`clock, this`released, {head}`prev, {head}`next, order`prev, order`next
      ensures Linkage() && order != [] && order[0] == b
      ensures forall c :: c in bufs && c != b ==> When(released, c) == When(old(released), c)
    {
      ghost var k :| 0 <= k < |order| && order[k] == b;
      ghost var r := [b] + RemoveAt(order, k);
      Rotated(order, k, bufs);
      ReleasedNow(order, k, released, clock);
      Splice(head, b, order, k);
      clock, released, order := clock + 1, released[b := clock + 1], r;
    }

    /** The front of the ring was released after every other buffer. */
    lemma FrontIsLatest(i: nat)
      requires Linkage() && i < |bufs| && bufs[i] == At(head, order, 0) && order != []
      ensures forall j :: 0 <= j < |bufs| && j != i ==> When(released, bufs[j]) < When(released, bufs[i])
    {
      forall j | 0 <= j < |bufs|
        ensures j != i ==> When(released, bufs[j]) < When(released, bufs[i])
      {
        assert bufs[j] in order;
        var k: nat :| k < |order| && order[k] == bufs[j];
        assert k > 0 ==> Later(released, order, 0, k);
      }
    }

    /** releasesleep, by the holder of the lock, whose changes have been written or pinned. */
    method ReleaseSleep(b: Buf, ghost i: nat)
      requires Valid() && i < |bufs| && bufs[i] == b && b.locked
      requires b.valid && !b.dirty ==> b.data == disk[b.blockno]
      modifies b`locked
      ensures Valid() && SameLatest(old(Vals()), disk, Vals(), disk)
      ensures Vals() == old(Vals())[i := Unlocked(old(Vals())[i])]
    {
      ghost var was := Vals();
      FlagsKeep(was, disk, i, Unlocked(was[i]));
      b.locked := false;
      OneChange(was, i);
    }

    /** One reference fewer.  Whoever holds the lock has a reference of its own. */
    method Unreference(b: Buf, ghost i: nat)
      requires Valid() && i < |bufs| && bufs[i] == b && b.refcnt > 0 && (b.locked ==> b.refcnt > 1)
      modifies b`refcnt
      ensures Valid() && SameLatest(old(Vals()), disk, Vals(), disk)
      ensures Vals() == old(Vals())[i := Dropped(old(Vals())[i])]
    {
      ghost var was := Vals();
      FlagsKeep(was, disk, i, Dropped(was[i]));
      b.Drop();
      OneChange(was, i);
    }

    /** The buffer becomes the most recently released one. */
    method Park(b: Buf, ghost i: nat)
      requires Valid() && i < |bufs| && bufs[i] == b
      modifies this`order, this`clock, this`released, {head}`prev, {head}`next, order`prev, order`next
      ensures Valid() && Vals() == old(Vals())
      ensures forall j :: 0 <= j < |bufs| && j != i ==> When(released, bufs[j]) < When(released, b)
      ensures forall c :: c in bufs && c != b ==> When(released, c) == When(old(released), c)
    {
      hide CacheOk, Ring, ByRelease, SameMembers, NoRepeats;
      ghost var was := Vals();
      MoveToFront(b);
      NoChange(was);
      FrontIsLatest(i);
    }

    /** brelse under bcache.lock: a buffer without references becomes the most recently released one. */
    method Brelse(b: Buf, ghost i: nat)
      requires Valid() && i < |bufs| && bufs[i] == b && b.refcnt > 0 && (b.locked ==> b.refcnt > 1)
      modifies this`order, this`clock, b`refcnt, this`released, {head}`prev, {head}`next, order`prev, order`next
      ensures Valid() && SameLatest(old(Vals()), disk, Vals(), disk)
      ensures Vals() == old(Vals())[i := Dropped(old(Vals())[i])]
      ensures b.refcnt > 0 ==> order == old(order)
      ensures b.refcnt == 0 ==> forall j :: 0 <= j < |bufs| && j != i ==> When(released, bufs[j]) < When(released, b)
      ensures forall c :: c in bufs && c != b ==> When(released, c) == When(old(released), c)
    {
      hide Valid, Vals, Latest, SameLatest;
      Unreference(b, i);
      if b.refcnt == 0 {
        Park(b, i);
      }
    }
  }
}
