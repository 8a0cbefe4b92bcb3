/**
 The log of log.c among the buffers of bio.c: a commit reads log blocks, and for that bget must find a buffer
 that is neither pinned by log_write nor in use.
 */
module LogBuffers {
  import opened Params
  import opened Common
  import opened BufferValues
  import opened LogDisk
  import opened LogProtocol
  import opened LogLimits

  /** The dirty buffers are those of the blocks in the header, one each. */
  ghost predicate Pins(vs: seq<Val>, h: seq<nat>) {
    && NoRepeats(h)
    && (forall l :: 0 <= l < |h| ==> Pinned(vs, h[l]))
    && forall i :: 0 <= i < |vs| && vs[i].dirty ==> vs[i].dev == DISKDEV && vs[i].blockno in h
  }

  ghost predicate Pinned(vs: seq<Val>, b: nat) {
    exists i :: PinOf(vs, b, i)
  }

  predicate PinOf(vs: seq<Val>, b: nat, i: nat) {
    i < |vs| && vs[i].dirty && Named(vs[i], DISKDEV, b)
  }

  ghost function Dirty(vs: seq<Val>): set<nat> {
    set i: nat | i < |vs| && vs[i].dirty
  }

  /** In use by some process, and not pinned. */
  ghost function Held(vs: seq<Val>): set<nat> {
    set i: nat | i < |vs| && vs[i].refcnt > 0 && !vs[i].dirty
  }

  ghost function All(n: nat): (s: set<nat>)
    ensures |s| == n && forall i: nat :: i in s <==> i < n
  {
    if n == 0 then {} else All(n - 1) + {n - 1}
  }

  lemma Subset(a: set<nat>, b: set<nat>)
    requires a <= b
    ensures |a| <= |b|
    ensures |a| == |b| ==> a == b
  {
    assert b == a + (b - a);
  }

  predicate IsPin(vs: seq<Val>, h: seq<nat>, i: nat) {
    i < |vs| && vs[i].dirty && vs[i].dev == DISKDEV && vs[i].blockno in h
  }

  lemma PinsLess(vs: seq<Val>, h: seq<nat>, i: nat, j: nat)
    requires OneName(vs) && NoRepeats(h) && h != [] && PinOf(vs, h[|h| - 1], i)
    ensures IsPin(vs, h[..|h| - 1], j) <==> IsPin(vs, h, j) && j != i
  {
    if IsPin(vs, h, j) && vs[j].blockno == h[|h| - 1] {
      SameName(vs, i, j);
    }
  }

  lemma DirtyPins(vs: seq<Val>, h: seq<nat>)
    requires OneName(vs) && Pins(vs, h)
    ensures |Dirty(vs)| == |h|
  {
    assert forall i: nat :: i in Dirty(vs) <==> IsPin(vs, h, i);
    DirtyCount(vs, h, Dirty(vs));
  }

  /** As many buffers are dirty as there are entries in the header. */
  lemma {:induction false} DirtyCount(vs: seq<Val>, h: seq<nat>, dirty: set<nat>)
    requires OneName(vs) && NoRepeats(h) && forall l :: 0 <= l < |h| ==> Pinned(vs, h[l])
    requires forall i: nat :: i in dirty <==> IsPin(vs, h, i)
    ensures |dirty| == |h|
  {
    if h == [] {
      assert dirty == {};
    } else {
      var m := |h| - 1;
      var i :| PinOf(vs, h[m], i);
      forall j: nat
        ensures j in dirty - {i} <==> IsPin(vs, h[..m], j)
      {
        PinsLess(vs, h, i, j);
      }
      assert IsPin(vs, h, i);
      assert forall l :: 0 <= l < m ==> h[..m][l] == h[l];
      DirtyCount(vs, h[..m], dirty - {i});
    }
  }

  /** bget of a block without a buffer panics iff the pinned buffers and those in use are all there are. */
  lemma NoBufferIff(vs: seq<Val>, h: seq<nat>, dev: nat, blockno: nat)
    requires OneName(vs) && Pins(vs, h) && forall j :: 0 <= j < |vs| ==> !Named(vs[j], dev, blockno)
    ensures NoneLeft(vs, dev, blockno) <==> |h| + |Held(vs)| == |vs|
  {
    DirtyPins(vs, h);
    var used := Dirty(vs) + Held(vs);
    Subset(used, All(|vs|));
    assert Dirty(vs) * Held(vs) == {};
    if NoneLeft(vs, dev, blockno) {
      assert used == All(|vs|);
    } else {
      var j: nat :| j < |vs| && Idle(vs[j]);
      assert j in All(|vs|) && j !in used;
    }
  }

  /** When every buffer is pinned for a block of the header, bget has none for any other block. */
  lemma AllPinned(vs: seq<Val>, h: seq<nat>, b: nat)
    requires OneName(vs) && Pins(vs, h) && |h| == |vs| && b !in h
    ensures NoneLeft(vs, DISKDEV, b)
  {
    DirtyPins(vs, h);
    Subset(Dirty(vs), All(|vs|));
    forall j: nat | j < |vs|
      ensures !Named(vs[j], DISKDEV, b) && !Idle(vs[j])
    {
      assert j in All(|vs|) && j in Dirty(vs);
    }
  }

  /**
   A commit that is stuck in the sense of LogLimits: the bread of the first log block panics, whatever the buffers
   are used for.
   */
  lemma StuckPanics(g: Geometry, s: State, vs: seq<Val>)
    requires Books(g, s) && Stuck(g, s) && g.size >= LOGSIZE && OneName(vs) && |vs| == NBUF && Pins(vs, s.lh)
    ensures NoneLeft(vs, DISKDEV, g.start + 1)
  {
    assert !g.Home(g.start + 1);
    AllPinned(vs, s.lh, g.start + 1);
  }
}
