/**
 The heap of umalloc.c as values: blocks of header-sized units, the circular free list through `base`,
 and the steps that free and malloc are made of.  Addresses count units of sizeof(Header).
 */
module Heap {
  import opened Common

  // addresses below KERNBASE, in units
  const LIMIT: nat := 0x1000_0000

  /** Every block that has been handed to the allocator, live or free: its header's address and its units. */
  type Blocks = map<nat, nat>

  ghost predicate Disjoint(bs: Blocks) {
    && (forall b :: b in bs ==> bs[b] > 0)
    && forall a, b :: a in bs && b in bs && a < b ==> a + bs[a] <= b
  }

  ghost function Units(bs: Blocks): (n: nat)
  {
    if bs == map[] then 0 else
      var b :| b in bs;
      bs[b] + Units(bs - {b})
  }

  lemma {:induction false} UnitsWithout(bs: Blocks, b: nat)
    requires b in bs
    ensures Units(bs) == bs[b] + Units(bs - {b})
    decreases |bs|
  {
    var a :| a in bs && Units(bs) == bs[a] + Units(bs - {a});
    if a != b {
      UnitsWithout(bs - {a}, b);
      UnitsWithout(bs - {b}, a);
      assert bs - {a} - {b} == bs - {b} - {a};
    }
  }

  lemma UnitsWith(bs: Blocks, b: nat, n: nat)
    requires b !in bs
    ensures Units(bs[b := n]) == Units(bs) + n
  {
    UnitsWithout(bs[b := n], b);
    assert bs[b := n] - {b} == bs;
  }

  lemma UnitsPut(bs: Blocks, b: nat, n: nat)
    requires b in bs
    ensures Units(bs[b := n]) == Units(bs) - bs[b] + n
  {
    UnitsWithout(bs, b);
    UnitsWithout(bs[b := n], b);
    assert bs[b := n] - {b} == bs - {b};
  }

  /** Block a takes in the block that starts where a ends. */
  function Joined(bs: Blocks, a: nat): Blocks
    requires a in bs && a + bs[a] in bs && bs[a] > 0
  {
    var c := a + bs[a];
    (bs - {c})[a := bs[a] + bs[c]]
  }

  lemma JoinedDisjoint(bs: Blocks, a: nat)
    requires Disjoint(bs) && a in bs && a + bs[a] in bs
    ensures Disjoint(Joined(bs, a))
  {
  }

  lemma JoinedUnits(bs: Blocks, a: nat)
    requires a in bs && a + bs[a] in bs && bs[a] > 0
    ensures Units(Joined(bs, a)) == Units(bs)
  {
    var c := a + bs[a];
    UnitsWithout(bs, c);
    UnitsWithout(bs - {c}, a);
    UnitsWithout(Joined(bs, a), a);
    assert Joined(bs, a) - {a} == bs - {c} - {a};
  }

  /** The last n units of block a become a block of their own. */
  function Carved(bs: Blocks, a: nat, n: nat): Blocks
    requires a in bs && n <= bs[a]
  {
    if n == bs[a] then bs else bs[a := bs[a] - n][a + (bs[a] - n) := n]
  }

  lemma CarvedDisjoint(bs: Blocks, a: nat, n: nat)
    requires Disjoint(bs) && a in bs && 0 < n <= bs[a]
    ensures Disjoint(Carved(bs, a, n))
    ensures n < bs[a] ==> a + (bs[a] - n) !in bs
  {
  }

  lemma CarvedUnits(bs: Blocks, a: nat, n: nat)
    requires a in bs && 0 < n < bs[a] && a + (bs[a] - n) !in bs
    ensures Units(Carved(bs, a, n)) == Units(bs)
  {
    UnitsPut(bs, a, bs[a] - n);
    UnitsWith(bs[a := bs[a] - n], a + (bs[a] - n), n);
  }

  // ---- the free list ----

  /** What the headers hold, and which blocks are free (in list order, after base) and live. */
  datatype State = State(ptr: map<nat, nat>, size: map<nat, nat>, fl: seq<nat>, live: set<nat>, bs: Blocks)

  function Next(fl: seq<nat>, i: nat): nat
    requires i < |fl|
  {
    if i + 1 < |fl| then fl[i + 1] else fl[0]
  }

  predicate LinkAt(fl: seq<nat>, ptr: map<nat, nat>, i: nat)
    requires i < |fl|
  {
    fl[i] in ptr && ptr[fl[i]] == Next(fl, i)
  }

  predicate Ascending(fl: seq<nat>) {
    forall i, j :: 0 <= i < j < |fl| ==> fl[i] < fl[j]
  }

  /** One cycle through base, which is fl[0], in address order. */
  predicate Circle(fl: seq<nat>, ptr: map<nat, nat>) {
    && fl != [] && Ascending(fl)
    && forall i: nat :: i < |fl| ==> LinkAt(fl, ptr, i)
  }

  /** Every block is either live or on the free list after base, which lies below them all. */
  ghost predicate Sorted(fl: seq<nat>, live: set<nat>, bs: Blocks)
    requires fl != []
  {
    && (forall b :: b in bs ==> fl[0] < b)
    && (forall b :: b in fl && b != fl[0] ==> b in bs && b !in live)
    && (forall b :: b in live ==> b in bs)
    && forall b :: b in bs && b !in live ==> b in fl
  }

  /** The headers of all blocks, and base, hold their sizes. */
  ghost predicate Sized(size: map<nat, nat>, bs: Blocks, base: nat) {
    && base in size && size[base] == 0
    && forall b :: b in bs ==> b in size && size[b] == bs[b]
  }

  ghost predicate Ok(s: State) {
    Circle(s.fl, s.ptr) && Sorted(s.fl, s.live, s.bs) && Sized(s.size, s.bs, s.fl[0]) && Disjoint(s.bs)
  }

  /** The free blocks at places i and i + 1 of the list do not touch. */
  ghost predicate Apart(s: State, i: nat)
    requires i < |s.fl|
  {
    i + 1 < |s.fl| ==> s.fl[i] in s.size && s.fl[i] + s.size[s.fl[i]] != s.fl[i + 1]
  }

  ghost predicate AllApart(s: State) {
    forall i: nat :: i < |s.fl| ==> Apart(s, i)
  }

  // ---- steps on the list ----

  function InsertAt(fl: seq<nat>, k: nat, x: nat): (r: seq<nat>)
    requires k <= |fl|
    ensures |r| == |fl| + 1
    ensures forall i :: 0 <= i < |r| ==> r[i] == if i < k then fl[i] else if i == k then x else fl[i - 1]
  {
    fl[..k] + [x] + fl[k..]
  }

  lemma InsertMembers(fl: seq<nat>, k: nat, x: nat)
    requires k <= |fl|
    ensures forall c :: c in InsertAt(fl, k, x) <==> c == x || c in fl
  {
    var r := InsertAt(fl, k, x);
    assert r[k] == x;
    forall c | c in fl
      ensures c in r
    {
      var i :| 0 <= i < |fl| && fl[i] == c;
      assert r[if i < k then i else i + 1] == c;
    }
  }

  lemma RemoveMembers(fl: seq<nat>, k: nat)
    requires k < |fl| && Ascending(fl)
    ensures forall c :: c in RemoveAt(fl, k) <==> c in fl && c != fl[k]
  {
    var r := RemoveAt(fl, k);
    forall c | c in fl && c != fl[k]
      ensures c in r
    {
      var i :| 0 <= i < |fl| && fl[i] == c;
      assert r[if i < k then i else i - 1] == c;
    }
  }

  /** The place in the list after which a block at address b belongs. */
  predicate Place(fl: seq<nat>, t: nat, b: nat) {
    t < |fl| && fl[t] < b && (t + 1 < |fl| ==> b < fl[t + 1])
  }

  lemma InsertedAscending(fl: seq<nat>, t: nat, b: nat)
    requires Ascending(fl) && Place(fl, t, b)
    ensures Ascending(InsertAt(fl, t + 1, b))
  {
    var r := InsertAt(fl, t + 1, b);
    forall i, j | 0 <= i < j < |r|
      ensures r[i] < r[j]
    {
      assert i <= t ==> r[i] <= fl[t];
      assert j > t + 1 ==> r[j] >= fl[t + 1];
    }
  }

  lemma InsertedCircle(fl: seq<nat>, ptr: map<nat, nat>, t: nat, b: nat)
    requires Circle(fl, ptr) && Place(fl, t, b)
    ensures Circle(InsertAt(fl, t + 1, b), ptr[b := Next(fl, t)][fl[t] := b])
  {
    var r := InsertAt(fl, t + 1, b);
    var q := ptr[b := Next(fl, t)][fl[t] := b];
    InsertedAscending(fl, t, b);
    forall i: nat | i < |r|
      ensures LinkAt(r, q, i)
    {
      InsertedLink(fl, ptr, t, b, i);
    }
  }

  lemma InsertedLink(fl: seq<nat>, ptr: map<nat, nat>, t: nat, b: nat, i: nat)
    requires Circle(fl, ptr) && Place(fl, t, b) && i <= |fl|
    ensures LinkAt(InsertAt(fl, t + 1, b), ptr[b := Next(fl, t)][fl[t] := b], i)
  {
    if i != t && i != t + 1 {
      assert LinkAt(fl, ptr, if i < t then i else i - 1);
    }
  }

  lemma RemovedCircle(fl: seq<nat>, ptr: map<nat, nat>, k: nat)
    requires Circle(fl, ptr) && 0 < k < |fl|
    ensures Circle(RemoveAt(fl, k), ptr[fl[k - 1] := Next(fl, k)])
  {
    var r := RemoveAt(fl, k);
    var q := ptr[fl[k - 1] := Next(fl, k)];
    forall i: nat | i < |r|
      ensures LinkAt(r, q, i)
    {
      assert LinkAt(fl, ptr, if i < k then i else i + 1);
    }
  }

  /** A live block b goes onto the free list after place t. */
  function Inserted(s: State, t: nat, b: nat): State
    requires t < |s.fl|
  {
    State(s.ptr[b := Next(s.fl, t)][s.fl[t] := b], s.size, InsertAt(s.fl, t + 1, b), s.live - {b}, s.bs)
  }

  lemma InsertedOk(s: State, t: nat, b: nat)
    requires Ok(s) && b in s.live && Place(s.fl, t, b)
    ensures LinkAt(s.fl, s.ptr, t) && Ok(Inserted(s, t, b))
    ensures AllApart(s) ==>
      forall i: nat :: i < |s.fl| + 1 && i != t && i != t + 1 ==> Apart(Inserted(s, t, b), i)
  {
    assert LinkAt(s.fl, s.ptr, t);
    InsertedCircle(s.fl, s.ptr, t, b);
    var r := Inserted(s, t, b);
    InsertedSorted(s, t, b);
    forall i: nat | AllApart(s) && i < |r.fl| && i != t && i != t + 1
      ensures Apart(r, i)
    {
      assert Apart(s, if i < t then i else i - 1);
    }
  }

  lemma InsertedSorted(s: State, t: nat, b: nat)
    requires s.fl != [] && Sorted(s.fl, s.live, s.bs) && t < |s.fl| && b in s.live && Ascending(s.fl)
    ensures Sorted(InsertAt(s.fl, t + 1, b), s.live - {b}, s.bs)
  {
    InsertMembers(s.fl, t + 1, b);
  }

  /** The free blocks at places k and k + 1 touch and become one. */
  function Merged(s: State, k: nat): State
    requires k + 1 < |s.fl| && s.fl[k] in s.bs && s.fl[k] + s.bs[s.fl[k]] == s.fl[k + 1]
    requires s.fl[k + 1] in s.bs && s.bs[s.fl[k]] > 0
  {
    var b := s.fl[k];
    State(s.ptr[b := Next(s.fl, k + 1)], s.size[b := s.bs[b] + s.bs[s.fl[k + 1]]], RemoveAt(s.fl, k + 1),
          s.live, Joined(s.bs, b))
  }

  /** After base, every place of the free list has a block. */
  lemma FreeBlock(s: State, k: nat)
    requires Ok(s) && 0 < k < |s.fl|
    ensures s.fl[k] in s.bs && s.fl[k] !in s.live && s.fl[k] != s.fl[0] && s.bs[s.fl[k]] > 0
    ensures s.fl[k] in s.size && s.size[s.fl[k]] == s.bs[s.fl[k]]
  {
    assert s.fl[k] in s.fl && s.fl[0] < s.fl[k];
  }

  lemma MergedOk(s: State, k: nat)
    requires Ok(s) && 0 < k && k + 1 < |s.fl| && s.fl[k] in s.bs && s.fl[k] + s.bs[s.fl[k]] == s.fl[k + 1]
    ensures s.fl[k + 1] in s.bs && s.bs[s.fl[k]] > 0 && Ok(Merged(s, k))
    ensures Units(Merged(s, k).bs) == Units(s.bs)
  {
    FreeBlock(s, k);
    FreeBlock(s, k + 1);
    RemovedCircle(s.fl, s.ptr, k + 1);
    RemoveMembers(s.fl, k + 1);
    JoinedDisjoint(s.bs, s.fl[k]);
    JoinedUnits(s.bs, s.fl[k]);
    MergedSorted(s, k);
  }

  lemma MergedSorted(s: State, k: nat)
    requires Ok(s) && 0 < k && k + 1 < |s.fl| && s.fl[k] in s.bs && s.fl[k] + s.bs[s.fl[k]] == s.fl[k + 1]
    requires s.fl[k + 1] in s.bs && s.bs[s.fl[k]] > 0
    ensures Sorted(RemoveAt(s.fl, k + 1), s.live, Joined(s.bs, s.fl[k]))
  {
    FreeBlock(s, k + 1);
    RemoveMembers(s.fl, k + 1);
  }

  /** A merge leaves the other gaps of the list as they were. */
  lemma MergedApart(s: State, k: nat, i: nat)
    requires Ok(s) && 0 < k && k + 1 < |s.fl| && s.fl[k] in s.bs && s.fl[k] + s.bs[s.fl[k]] == s.fl[k + 1]
    requires s.fl[k + 1] in s.bs && s.bs[s.fl[k]] > 0
    requires i < |s.fl| - 1 && Apart(s, if i < k then i else i + 1)
    ensures Apart(Merged(s, k), i)
  {
    FreeBlock(s, k);
    FreeBlock(s, k + 1);
  }

  /** The free block at place k is handed out whole. */
  function Taken(s: State, k: nat): State
    requires 0 < k < |s.fl|
  {
    State(s.ptr[s.fl[k - 1] := Next(s.fl, k)], s.size, RemoveAt(s.fl, k), s.live + {s.fl[k]}, s.bs)
  }

  lemma TakenOk(s: State, k: nat)
    requires Ok(s) && 0 < k < |s.fl|
    ensures Ok(Taken(s, k))
  {
    FreeBlock(s, k);
    RemovedCircle(s.fl, s.ptr, k);
    RemoveMembers(s.fl, k);
  }

  lemma TakenApart(s: State, k: nat)
    requires Ok(s) && 0 < k < |s.fl| && AllApart(s)
    ensures AllApart(Taken(s, k))
  {
    hide Ok;
    var r := Taken(s, k);
    forall i: nat | i < |r.fl|
      ensures Apart(r, i)
    {
      assert Apart(s, if i < k then i else i + 1);
      if i == k - 1 && k + 1 < |s.fl| {
        TwoOn(s, k);
      }
    }
  }

  /** Blocks two places apart never touch. */
  lemma TwoOn(s: State, k: nat)
    requires Ok(s) && 0 < k && k + 1 < |s.fl|
    ensures s.fl[k - 1] in s.size && s.fl[k - 1] + s.size[s.fl[k - 1]] < s.fl[k + 1]
  {
    FreeBlock(s, k);
    assert s.fl[k - 1] < s.fl[k] < s.fl[k + 1];
    if k > 1 {
      FreeBlock(s, k - 1);
    }
  }

  /** The last n units of the free block at place k are handed out. */
  function Split(s: State, k: nat, n: nat): State
    requires 0 < k < |s.fl| && s.fl[k] in s.bs && 0 < n < s.bs[s.fl[k]]
  {
    var b := s.fl[k];
    var c := b + (s.bs[b] - n);
    State(s.ptr, s.size[b := s.bs[b] - n][c := n], s.fl, s.live + {c}, Carved(s.bs, b, n))
  }

  lemma SplitOk(s: State, k: nat, n: nat)
    requires Ok(s) && 0 < k < |s.fl| && s.fl[k] in s.bs && 0 < n < s.bs[s.fl[k]]
    ensures Ok(Split(s, k, n)) && Units(Split(s, k, n).bs) == Units(s.bs)
  {
    FreeBlock(s, k);
    CarvedDisjoint(s.bs, s.fl[k], n);
    CarvedUnits(s.bs, s.fl[k], n);
    SplitSorted(s, k, n);
  }

  lemma SplitSorted(s: State, k: nat, n: nat)
    requires Ok(s) && 0 < k < |s.fl| && s.fl[k] in s.bs && 0 < n < s.bs[s.fl[k]]
    ensures Sorted(s.fl, Split(s, k, n).live, Split(s, k, n).bs)
  {
    FreeBlock(s, k);
    CarvedDisjoint(s.bs, s.fl[k], n);
  }

  lemma SplitAllApart(s: State, k: nat, n: nat)
    requires Ok(s) && 0 < k < |s.fl| && s.fl[k] in s.bs && 0 < n < s.bs[s.fl[k]] && AllApart(s)
    ensures AllApart(Split(s, k, n))
  {
    var r := Split(s, k, n);
    forall i: nat | i < |r.fl|
      ensures Apart(r, i)
    {
      assert Apart(s, i);
      SplitApart(s, k, n, i);
    }
  }

  lemma SplitApart(s: State, k: nat, n: nat, i: nat)
    requires Ok(s) && 0 < k < |s.fl| && s.fl[k] in s.bs && 0 < n < s.bs[s.fl[k]]
    requires i < |s.fl| && Apart(s, i)
    ensures Apart(Split(s, k, n), i)
  {
    FreeBlock(s, k);
    if i > 0 {
      FreeBlock(s, i);
    }
    if i + 1 < |s.fl| {
      FreeBlock(s, i + 1);
    }
  }

  /** A region beyond every block joins as one live block. */
  function Added(s: State, b: nat, n: nat): State {
    State(s.ptr, s.size[b := n], s.fl, s.live + {b}, s.bs[b := n])
  }

  lemma AddedOk(s: State, b: nat, n: nat)
    requires Ok(s) && n > 0 && s.fl[0] < b && forall a :: a in s.bs ==> a + s.bs[a] <= b
    ensures b !in s.bs && Ok(Added(s, b, n)) && Units(Added(s, b, n).bs) == Units(s.bs) + n
    ensures AllApart(s) ==> AllApart(Added(s, b, n))
  {
    UnitsWith(s.bs, b, n);
    var r := Added(s, b, n);
    assert Circle(r.fl, r.ptr);
    forall i: nat | AllApart(s) && i < |r.fl|
      ensures Apart(r, i)
    {
      assert Apart(s, i);
      if i > 0 {
        FreeBlock(s, i);
      }
    }
  }

  /** The live blocks. */
  function Only(bs: Blocks, live: set<nat>): Blocks {
    map b | b in bs && b in live :: bs[b]
  }

  lemma {:induction false} UnitsPart(bs: Blocks, live: set<nat>)
    requires live <= bs.Keys
    ensures Units(bs) == Units(Only(bs, live)) + Units(bs - live)
    decreases |live|
  {
    if live == {} {
      assert Only(bs, live) == map[] && bs - live == bs;
    } else {
      var b :| b in live;
      UnitsPart(bs - {b}, live - {b});
      UnitsWithout(bs, b);
      UnitsWithout(Only(bs, live), b);
      assert Only(bs, live) - {b} == Only(bs - {b}, live - {b}) && bs - {b} - (live - {b}) == bs - live;
    }
  }

  /** Live and free units add up to all units, and the free blocks are those on the list after base. */
  lemma Conservation(s: State)
    requires Ok(s)
    ensures Units(Only(s.bs, s.live)) + Units(s.bs - s.live) == Units(s.bs)
    ensures (s.bs - s.live).Keys == set b | b in s.fl[1..]
  {
    UnitsPart(s.bs, s.live);
    forall b | b in s.bs - s.live
      ensures b in s.fl[1..]
    {
      var i :| 0 <= i < |s.fl| && s.fl[i] == b;
      assert s.fl[1..][i - 1] == b;
    }
    forall b | b in s.fl[1..]
      ensures b in s.bs - s.live
    {
      var i :| 0 <= i < |s.fl| - 1 && s.fl[1..][i] == b;
      FreeBlock(s, i + 1);
    }
  }
}
