/**
 The allocator of umalloc.c: free, morecore and malloc over headers kept in memory, with sbrk as the
 environment.
 */
module Umalloc {
  import opened Heap

  // bytes in a header, which is also the unit of allocation
  const UNIT: nat := 8
  const WORD: nat := 0x1_0000_0000
  // morecore asks for at least this many units
  const CHUNK: nat := 4096

  // ---- free on values ----

  predicate Touch(s: State, k: nat) {
    && k + 1 < |s.fl| && s.fl[k] in s.bs && s.bs[s.fl[k]] > 0
    && s.fl[k] + s.bs[s.fl[k]] == s.fl[k + 1] && s.fl[k + 1] in s.bs
  }

  /** The merge of places k and k + 1 when their blocks touch. */
  function MergeIf(s: State, k: nat): State {
    if Touch(s, k) then Merged(s, k) else s
  }

  lemma MergeIfOk(s: State, k: nat)
    requires Ok(s)
    ensures Ok(MergeIf(s, k)) && Units(MergeIf(s, k).bs) == Units(s.bs) && MergeIf(s, k).live == s.live
    ensures Touch(s, k) ==> k > 0
  {
    if Touch(s, k) {
      MergedOk(s, k);
    }
  }

  /** The merge leaves a gap after place k, and leaves the other gaps (but j, perhaps) as they were. */
  lemma MergeIfApart(s: State, k: nat, j: int)
    requires Ok(s) && k < |s.fl| && j < k
    requires forall i: nat :: i < |s.fl| && i != k && i != j ==> Apart(s, i)
    ensures k < |MergeIf(s, k).fl|
    ensures forall i: nat :: i < |MergeIf(s, k).fl| && i != j ==> Apart(MergeIf(s, k), i)
  {
    MergeIfOk(s, k);
    var r := MergeIf(s, k);
    forall i: nat | i < |r.fl| && i != j
      ensures Apart(r, i)
    {
      if Touch(s, k) {
        MergedApart(s, k, i);
      } else if i == k && k + 1 < |s.fl| {
        FreeBlock(s, k + 1);
        if k > 0 {
          FreeBlock(s, k);
        }
      }
    }
  }

  /** What free makes of the heap: b goes onto the list after place t and merges with its neighbours. */
  function Freed(s: State, t: nat, b: nat): State
    requires t < |s.fl|
  {
    MergeIf(MergeIf(Inserted(s, t, b), t + 1), t)
  }

  /** Some free block has n units or more. */
  ghost predicate Fits(s: State, n: nat) {
    exists k: nat :: 0 < k < |s.fl| && s.fl[k] in s.bs && s.bs[s.fl[k]] >= n
  }

  lemma FreedOk(s: State, t: nat, b: nat)
    requires Ok(s) && b in s.live && Place(s.fl, t, b)
    ensures var r := Freed(s, t, b);
      Ok(r) && r.live == s.live - {b} && Units(r.bs) == Units(s.bs)
  {
    InsertedOk(s, t, b);
    var s1 := Inserted(s, t, b);
    MergeIfOk(s1, t + 1);
    MergeIfOk(MergeIf(s1, t + 1), t);
  }

  lemma FreedApart(s: State, t: nat, b: nat)
    requires Ok(s) && b in s.live && Place(s.fl, t, b) && AllApart(s)
    ensures AllApart(Freed(s, t, b))
  {
    hide MergeIf, Circle, Sorted, Sized, Disjoint;
    InsertedOk(s, t, b);
    var s1 := Inserted(s, t, b);
    MergeIfApart(s1, t + 1, t);
    MergeIfOk(s1, t + 1);
    MergeIfApart(MergeIf(s1, t + 1), t, -1);
  }

  /** Neither freeing b nor a merge changes the size of a block that is still live. */
  lemma FreedLive(s: State, t: nat, b: nat, a: nat)
    requires Ok(s) && b in s.live && Place(s.fl, t, b) && a in s.live && a != b
    ensures a in Freed(s, t, b).bs && Freed(s, t, b).bs[a] == s.bs[a]
  {
    hide MergeIf, Circle, Sorted, Sized, Disjoint;
    InsertedOk(s, t, b);
    var s1 := Inserted(s, t, b);
    MergeIfLive(s1, t + 1, a);
    MergeIfOk(s1, t + 1);
    MergeIfLive(MergeIf(s1, t + 1), t, a);
  }

  lemma MergeIfLive(s: State, k: nat, a: nat)
    requires Ok(s) && a in s.live
    ensures a in MergeIf(s, k).live && a in s.bs && a in MergeIf(s, k).bs && MergeIf(s, k).bs[a] == s.bs[a]
  {
    if Touch(s, k) {
      MergeIfOk(s, k);
      FreeBlock(s, k);
      FreeBlock(s, k + 1);
    }
  }

  /** The freed units are part of a free block. */
  lemma FreedFits(s: State, t: nat, b: nat)
    requires Ok(s) && b in s.live && Place(s.fl, t, b)
    ensures b in s.bs && Fits(Freed(s, t, b), s.bs[b])
  {
    hide MergeIf, Touch, Circle, Sorted;
    InsertedOk(s, t, b);
    var s1 := Inserted(s, t, b);
    MergeIfGrows(s1, t + 1, t + 1);
    MergeIfOk(s1, t + 1);
    var s2 := MergeIf(s1, t + 1);
    MergeIfOk(s2, t);
    MergeIfGrows(s2, t, t + 1);
    var r := MergeIf(s2, t);
    var k := if Touch(s2, t) then t else t + 1;
    assert 0 < k < |r.fl| && r.fl[k] in r.bs && r.bs[r.fl[k]] >= s.bs[b];
  }

  /** The free block at place i, which is k or k + 1, is part of a free block after the merge. */
  lemma MergeIfGrows(s: State, k: nat, i: nat)
    requires Ok(s) && (i == k || i == k + 1) && 0 < i < |s.fl|
    ensures var j := if Touch(s, k) then k else i;
      && s.fl[i] in s.bs && j < |MergeIf(s, k).fl| && MergeIf(s, k).fl[j] == s.fl[j] && s.fl[j] in MergeIf(s, k).bs
      && MergeIf(s, k).bs[s.fl[j]] >= s.bs[s.fl[i]]
  {
    FreeBlock(s, i);
  }

  lemma PutTwice(m: map<nat, nat>, a: nat, x: nat, b: nat, y: nat, z: nat)
    requires a != b
    ensures m[a := x][b := y][a := z] == m[a := z][b := y]
  {
  }

  lemma UpperTouch(s: State, t: nat, b: nat)
    requires Ok(s) && b in s.live && Place(s.fl, t, b)
    ensures Touch(Inserted(s, t, b), t + 1) <==> b + s.bs[b] == Next(s.fl, t)
  {
    if t + 1 < |s.fl| {
      FreeBlock(s, t + 1);
    } else {
      assert s.fl[0] < b;
    }
  }

  /** The first merge of free, in the terms of its code: p is the block before b, c the one after. */
  lemma UpperHeaders(s: State, t: nat, b: nat)
    requires Ok(s) && b in s.live && Place(s.fl, t, b)
    ensures var p := s.fl[t];
      var c := Next(s.fl, t);
      var up := b + s.bs[b] == c;
      var r := MergeIf(Inserted(s, t, b), t + 1);
      && (up ==> c in s.ptr && c in s.bs && c in s.size)
      && r.size == (if up then s.size[b := s.size[b] + s.size[c]] else s.size)
      && r.ptr == s.ptr[b := if up then s.ptr[c] else c][p := b]
      && t + 1 < |r.fl| && r.fl[t] == p && r.fl[t + 1] == b
  {
    UpperTouch(s, t, b);
    if b + s.bs[b] == Next(s.fl, t) {
      assert LinkAt(s.fl, s.ptr, t + 1);
      FreeBlock(s, t + 1);
      PutTwice(s.ptr, b, Next(s.fl, t), s.fl[t], b, Next(s.fl, t + 1));
    }
  }

  /** The second merge, of places t and t + 1. */
  lemma LowerHeaders(s: State, t: nat)
    requires Ok(s) && t + 1 < |s.fl|
    ensures var p := s.fl[t];
      var b := s.fl[t + 1];
      var down := p + s.size[p] == b;
      && b in s.ptr && b in s.size && p in s.size
      && MergeIf(s, t).size == (if down then s.size[p := s.size[p] + s.size[b]] else s.size)
      && MergeIf(s, t).ptr == (if down then s.ptr[p := s.ptr[b]] else s.ptr)
  {
    assert LinkAt(s.fl, s.ptr, t) && LinkAt(s.fl, s.ptr, t + 1);
    FreeBlock(s, t + 1);
    if t > 0 {
      FreeBlock(s, t);
    }
  }

  lemma PutOver(m: map<nat, nat>, p: nat, b: nat, x: nat)
    ensures m[p := b][p := x] == m[p := x]
  {
  }

  /** What free writes to the headers, in the terms of its code: after its first merge ... */
  ghost predicate UpperWrites(s: State, p: nat, b: nat, size: map<nat, nat>, ptr: map<nat, nat>)
  {
    && p in s.ptr && b in s.size
    && var c := s.ptr[p];
       if b + s.size[b] == c then
         c in s.ptr && c in s.size && size == s.size[b := s.size[b] + s.size[c]] && ptr == s.ptr[b := s.ptr[c]]
       else
         size == s.size && ptr == s.ptr[b := c]
  }

  lemma UpperDefined(s: State, t: nat, b: nat)
    requires Ok(s) && b in s.live && Place(s.fl, t, b)
    ensures s.fl[t] in s.ptr && b in s.size
    ensures b + s.size[b] == s.ptr[s.fl[t]] ==> s.ptr[s.fl[t]] in s.ptr && s.ptr[s.fl[t]] in s.size
  {
    UpperHeaders(s, t, b);
    assert LinkAt(s.fl, s.ptr, t);
  }

  lemma LowerWrites(s: State, t: nat, ptr1: map<nat, nat>)
    requires Ok(s) && t + 1 < |s.fl| && s.ptr == ptr1[s.fl[t] := s.fl[t + 1]]
    ensures var p := s.fl[t];
      var b := s.fl[t + 1];
      && b in s.size && p in s.size && b in ptr1
      && MergeIf(s, t).size == (if p + s.size[p] == b then s.size[p := s.size[p] + s.size[b]] else s.size)
      && MergeIf(s, t).ptr == ptr1[p := if p + s.size[p] == b then ptr1[b] else b]
  {
    LowerHeaders(s, t);
    assert s.fl[t] < s.fl[t + 1];
    PutOver(ptr1, s.fl[t], s.fl[t + 1], ptr1[s.fl[t + 1]]);
  }

  /** ... and after its second. */
  lemma FreedHeaders(s: State, t: nat, b: nat, size1: map<nat, nat>, ptr1: map<nat, nat>)
    requires Ok(s) && b in s.live && Place(s.fl, t, b)
    requires UpperWrites(s, s.fl[t], b, size1, ptr1)
    ensures var p := s.fl[t];
      && p in size1 && b in size1 && b in ptr1
      && Freed(s, t, b).size == (if p + size1[p] == b then size1[p := size1[p] + size1[b]] else size1)
      && Freed(s, t, b).ptr == ptr1[p := if p + size1[p] == b then ptr1[b] else b]
  {
    hide Circle, Sorted, Disjoint, Inserted, UpperWrites;
    var s2 := MergeIf(Inserted(s, t, b), t + 1);
    UpperIs(s, t, b, size1, ptr1);
    UpperOk(s, t, b);
    LowerWrites(s2, t, ptr1);
  }

  lemma UpperOk(s: State, t: nat, b: nat)
    requires Ok(s) && b in s.live && Place(s.fl, t, b)
    ensures Ok(MergeIf(Inserted(s, t, b), t + 1))
  {
    InsertedOk(s, t, b);
    MergeIfOk(Inserted(s, t, b), t + 1);
  }

  lemma UpperIs(s: State, t: nat, b: nat, size1: map<nat, nat>, ptr1: map<nat, nat>)
    requires Ok(s) && b in s.live && Place(s.fl, t, b)
    requires UpperWrites(s, s.fl[t], b, size1, ptr1)
    ensures var r := MergeIf(Inserted(s, t, b), t + 1);
      && t + 1 < |r.fl| && r.fl[t] == s.fl[t] && r.fl[t + 1] == b
      && r.size == size1 && r.ptr == ptr1[s.fl[t] := b]
  {
    UpperHeaders(s, t, b);
    assert LinkAt(s.fl, s.ptr, t);
    assert s.size[b] == s.bs[b] && s.ptr[s.fl[t]] == Next(s.fl, t);
  }

  ghost predicate Below(bs: Blocks, brk: nat) {
    forall b :: b in bs ==> b + bs[b] <= brk
  }

  /** The heap between calls: no free blocks touch, and live and free units are those obtained from sbrk. */
  ghost predicate Good(s: State, base: nat, freep: nat, obtained: nat) {
    && Ok(s) && AllApart(s) && s.fl[0] == base && freep in s.fl
    && Units(s.bs) == obtained
  }

  /** The blocks that were live and still are have their sizes. */
  ghost predicate Kept(s: State, r: State) {
    forall a :: a in r.live && a in s.live ==> a in r.bs && a in s.bs && r.bs[a] == s.bs[a]
  }

  lemma KeptTrans(s: State, t: State, u: State)
    requires Kept(s, t) && Kept(t, u) && t.live == s.live
    ensures Kept(s, u)
  {
  }

  /** Free keeps everything about the heap. */
  lemma FreedAll(s: State, t: nat, b: nat, base: nat, freep: nat, brk: nat, obtained: nat)
    requires Good(s, base, freep, obtained) && b in s.live && Place(s.fl, t, b) && Below(s.bs, brk)
    ensures var r := Freed(s, t, b);
      && Good(r, base, s.fl[t], obtained) && Below(r.bs, brk)
      && r.live == s.live - {b} && Kept(s, r)
      && b in s.bs && Fits(r, s.bs[b])
  {
    FreedOk(s, t, b);
    FreedApart(s, t, b);
    FreedFits(s, t, b);
    FreedPlaces(s, t, b, brk);
    forall a | a in s.live && a != b
      ensures a in Freed(s, t, b).bs && a in s.bs && Freed(s, t, b).bs[a] == s.bs[a]
    {
      FreedLive(s, t, b, a);
    }
  }

  lemma FreedPlaces(s: State, t: nat, b: nat, brk: nat)
    requires Ok(s) && b in s.live && Place(s.fl, t, b) && Below(s.bs, brk)
    ensures var r := Freed(s, t, b);
      r.fl != [] && r.fl[0] == s.fl[0] && s.fl[t] in r.fl && Below(r.bs, brk)
  {
    InsertedOk(s, t, b);
    var s1 := Inserted(s, t, b);
    MergeIfPlaces(s1, t + 1, t, brk);
    MergeIfOk(s1, t + 1);
    MergeIfPlaces(MergeIf(s1, t + 1), t, t, brk);
  }

  /** A merge at or after place t keeps the places up to t. */
  lemma MergeIfPlaces(s: State, k: nat, t: nat, brk: nat)
    requires Ok(s) && t <= k && t < |s.fl| && Below(s.bs, brk)
    ensures t < |MergeIf(s, k).fl| && MergeIf(s, k).fl[t] == s.fl[t] && MergeIf(s, k).fl[0] == s.fl[0]
    ensures Below(MergeIf(s, k).bs, brk)
  {
  }

  lemma TakenAll(s: State, i: nat, base: nat, freep: nat, obtained: nat)
    requires Good(s, base, freep, obtained) && 0 < i < |s.fl|
    ensures Good(Taken(s, i), base, s.fl[i - 1], obtained)
  {
    TakenOk(s, i);
    TakenApart(s, i);
    assert Taken(s, i).fl[i - 1] == s.fl[i - 1];
  }

  lemma SplitAll(s: State, i: nat, n: nat, base: nat, freep: nat, brk: nat, obtained: nat)
    requires Good(s, base, freep, obtained) && Below(s.bs, brk)
    requires 0 < i < |s.fl| && s.fl[i] in s.bs && 0 < n < s.bs[s.fl[i]]
    ensures Good(Split(s, i, n), base, s.fl[i - 1], obtained) && Below(Split(s, i, n).bs, brk)
    ensures Split(s, i, n).size == TailSize(s.size, s.fl[i], s.bs[s.fl[i]], n)
    ensures s.fl[i] in s.size && s.size[s.fl[i]] == s.bs[s.fl[i]] && s.fl[i] + (s.bs[s.fl[i]] - n) !in s.bs
  {
    SplitOk(s, i, n);
    SplitAllApart(s, i, n);
    SplitBelow(s, i, n, brk);
  }

  lemma SplitBelow(s: State, i: nat, n: nat, brk: nat)
    requires Ok(s) && Below(s.bs, brk) && 0 < i < |s.fl| && s.fl[i] in s.bs && 0 < n < s.bs[s.fl[i]]
    ensures Below(Split(s, i, n).bs, brk)
    ensures Split(s, i, n).size == TailSize(s.size, s.fl[i], s.bs[s.fl[i]], n)
    ensures s.fl[i] in s.size && s.size[s.fl[i]] == s.bs[s.fl[i]] && s.fl[i] + (s.bs[s.fl[i]] - n) !in s.bs
  {
    CarvedDisjoint(s.bs, s.fl[i], n);
  }

  /** The sizes after a split, as malloc writes them. */
  function TailSize(size: map<nat, nat>, p: nat, units: nat, n: nat): map<nat, nat>
    requires n < units
  {
    size[p := units - n][p + (units - n) := n]
  }

  // ---- the size of a request ----

  /** nunits of malloc, computed in the unsigned arithmetic of C. */
  function UnitsFor(nbytes: nat): nat {
    (nbytes + UNIT - 1) % WORD / UNIT + 1
  }

  /**
   The block that malloc looks for holds a header and the bytes asked for, unless rounding up overflows:
   the largest requests are answered with a block that holds no byte at all.
   */
  lemma BlockCovers(nbytes: nat)
    requires nbytes < WORD
    ensures (UnitsFor(nbytes) - 1) * UNIT >= nbytes <==> nbytes <= WORD - UNIT
    ensures nbytes > WORD - UNIT ==> UnitsFor(nbytes) == 1
    ensures nbytes <= WORD - UNIT ==> UnitsFor(nbytes) * UNIT < nbytes + 2 * UNIT
  {
  }

  /** Carving a free block leaves the live blocks alone. */
  lemma CarvedLive(s: State, p: nat, n: nat)
    requires Ok(s) && p in s.bs && p !in s.live && 0 < n <= s.bs[p]
    ensures forall a :: a in s.live ==> a in s.bs && a in Carved(s.bs, p, n) && Carved(s.bs, p, n)[a] == s.bs[a]
    ensures p + (s.bs[p] - n) in Carved(s.bs, p, n) && Carved(s.bs, p, n)[p + (s.bs[p] - n)] == n
  {
    CarvedDisjoint(s.bs, p, n);
  }

  /** The last place of the list whose address is below b. */
  lemma PlaceOf(fl: seq<nat>, b: nat) returns (t: nat)
    requires fl != [] && Ascending(fl) && fl[0] < b && b !in fl
    ensures Place(fl, t, b)
  {
    t := 0;
    while t + 1 < |fl| && fl[t + 1] < b
      invariant t < |fl| && fl[t] < b
    {
      t := t + 1;
    }
  }

  /** From place i round the list to place t. */
  function Distance(n: nat, i: nat, t: nat): nat
    requires i < n && t < n
  {
    if i <= t then t - i else t + n - i
  }

  function Step(n: nat, i: nat): nat
    requires i < n
  {
    if i + 1 < n then i + 1 else 0
  }

  lemma SizeAt(s: State, i: nat)
    requires Ok(s) && i < |s.fl|
    ensures s.fl[i] in s.size
    ensures i == 0 ==> s.size[s.fl[i]] == 0
    ensures i > 0 ==> s.fl[i] in s.bs && s.size[s.fl[i]] == s.bs[s.fl[i]]
  {
    if i > 0 {
      FreeBlock(s, i);
    }
  }

  /** No block is big enough among those the search has passed since it left freep, which is at place f. */
  ghost predicate Passed(s: State, n: nat, f: nat, i: nat)
    requires f < |s.fl| && i < |s.fl|
  {
    forall k: nat :: k < |s.fl| && Distance(|s.fl|, k, f) > Distance(|s.fl|, i, f) ==>
      s.fl[k] in s.size && s.size[s.fl[k]] < n
  }

  lemma PassedOne(s: State, n: nat, f: nat, i: nat)
    requires f < |s.fl| && i < |s.fl| && Passed(s, n, f, i) && s.fl[i] in s.size && s.size[s.fl[i]] < n && i != f
    ensures Passed(s, n, f, Step(|s.fl|, i))
  {
  }

  lemma PassedAll(s: State, n: nat, f: nat)
    requires Ok(s) && f < |s.fl| && Passed(s, n, f, f) && s.fl[f] in s.size && s.size[s.fl[f]] < n
    ensures !Fits(s, n)
  {
    forall k: nat | 0 < k < |s.fl| && s.fl[k] in s.bs
      ensures s.bs[s.fl[k]] < n
    {
      FreeBlock(s, k);
    }
  }

  lemma FitsAt(s: State, n: nat, i: nat)
    requires 0 < i < |s.fl| && s.fl[i] in s.bs && s.bs[s.fl[i]] >= n
    ensures Fits(s, n)
  {
  }

  lemma SamePlace(s: State, i: nat, j: nat)
    requires Ok(s) && i < |s.fl| && j < |s.fl| && s.fl[i] == s.fl[j]
    ensures i == j
  {
    assert !(s.fl[i] < s.fl[j]) && !(s.fl[j] < s.fl[i]);
  }

  /** Place i holds the first block after freep, round the list, that is big enough. */
  ghost predicate NextFit(s: State, freep: nat, n: nat, i: nat) {
    && 0 < i < |s.fl| && s.fl[i] in s.bs && s.bs[s.fl[i]] >= n
    && exists f: nat :: f < |s.fl| && s.fl[f] == freep && Passed(s, n, f, i)
  }

  /** The heap after the block at place i, or its tail, has been handed out. */
  function Given(s: State, i: nat, n: nat): State
    requires 0 < i < |s.fl| && s.fl[i] in s.bs && 0 < n <= s.bs[s.fl[i]]
  {
    if n == s.bs[s.fl[i]] then Taken(s, i) else Split(s, i, n)
  }

  /** What morecore asks sbrk for. */
  function Region(nunits: nat): nat {
    if nunits < CHUNK then CHUNK else nunits
  }

  /** A region of n units at hp has been freed into the heap s, between place t of the list and the next. */
  ghost predicate JoinedAt(s: State, r: State, freep: nat, hp: nat, n: nat, t: nat) {
    t < |s.fl| && Place(s.fl, t, hp) && freep == s.fl[t] && r == Freed(Added(s, hp, n), t, hp)
  }

  /** morecore has made r out of s, and left freep at the block before the new region. */
  ghost predicate Extended(s: State, r: State, freep: nat, hp: nat, n: nat) {
    exists t: nat :: JoinedAt(s, r, freep, hp, n, t)
  }

  /** The heap as the first call of malloc finds it once it has set up the list. */
  function Started(s: State, freep: nat, base: nat): State {
    if freep == 0 then State(s.ptr[base := base], s.size[base := 0], [base], s.live, s.bs) else s
  }

  // ---- one call after another ----

  /** The search from freep looks first at the block behind it. */
  lemma LooksFirst(s: State, freep: nat, n: nat, f: nat, i: nat)
    requires Ok(s) && f < |s.fl| && s.fl[f] == freep && NextFit(s, freep, n, i)
    ensures var k := Step(|s.fl|, f);
      k > 0 && s.fl[k] in s.bs && s.bs[s.fl[k]] >= n ==> i == k
  {
    var k := Step(|s.fl|, f);
    var g: nat :| g < |s.fl| && s.fl[g] == freep && Passed(s, n, g, i);
    SamePlace(s, g, f);
    if k > 0 {
      FreeBlock(s, k);
    }
  }

  /**
   Next fit across two calls.  The first has taken n units out of the block at place i, and left freep at the block
   before it.  If something is left of that block, the second call looks at it first, and takes its tail if it is
   big enough ...
   */
  lemma SecondCall(s: State, i: nat, n: nat, m: nat, j: nat)
    requires Ok(s) && 0 < i < |s.fl| && s.fl[i] in s.bs && 0 < n < s.bs[s.fl[i]]
    requires Ok(Given(s, i, n)) && NextFit(Given(s, i, n), s.fl[i - 1], m, j)
    ensures Given(s, i, n).fl == s.fl && (s.bs[s.fl[i]] - n >= m ==> j == i)
  {
    hide Ok, NextFit;
    var r := Given(s, i, n);
    SplitLeaves(s, i, n);
    LooksFirst(r, s.fl[i - 1], m, i - 1, j);
  }

  lemma SplitLeaves(s: State, i: nat, n: nat)
    requires Ok(s) && 0 < i < |s.fl| && s.fl[i] in s.bs && 0 < n < s.bs[s.fl[i]]
    ensures Split(s, i, n).fl == s.fl && s.fl[i] in Split(s, i, n).bs
    ensures Split(s, i, n).bs[s.fl[i]] == s.bs[s.fl[i]] - n
  {
  }

  /** ... and if nothing is left of it, the second call looks first at the block behind. */
  lemma SecondCallNext(s: State, i: nat, m: nat, j: nat)
    requires Ok(s) && 0 < i && i + 1 < |s.fl| && s.fl[i] in s.bs && 0 < s.bs[s.fl[i]]
    requires var r := Given(s, i, s.bs[s.fl[i]]);
      Ok(r) && NextFit(r, s.fl[i - 1], m, j)
    ensures var r := Given(s, i, s.bs[s.fl[i]]);
      s.fl[i + 1] in s.bs && (s.bs[s.fl[i + 1]] >= m ==> j == i && r.fl[j] == s.fl[i + 1])
  {
    hide NextFit, Circle, Sorted, Sized, Disjoint;
    var r := Given(s, i, s.bs[s.fl[i]]);
    FreeBlock(s, i + 1);
    LooksFirst(r, s.fl[i - 1], m, i - 1, j);
  }

  class Allocator {
    // the address of the static header `base`
    const base: nat
    var ptr: map<nat, nat>
    var size: map<nat, nat>
    var freep: nat
    // where the process ends; only sbrk moves it
    var brk: nat
    ghost var fl: seq<nat>
    ghost var live: set<nat>
    ghost var bs: Blocks
    // units obtained from sbrk so far
    ghost var obtained: nat

    ghost function S(): State
      reads this`ptr, this`size, this`fl, this`live, this`bs
    {
      State(ptr, size, fl, live, bs)
    }

    ghost predicate Bounded()
      reads this`brk, this`bs
    {
      0 < base < brk <= LIMIT && Below(bs, brk)
    }

    /** The list has been set up; a freed or fresh block may be on its way to it. */
    ghost predicate Ready()
      reads this
    {
      Bounded() && Good(S(), base, freep, obtained)
    }

    ghost predicate Valid()
      reads this
    {
      if freep == 0 then fl == [] && live == {} && bs == map[] && obtained == 0 && Bounded() else Ready()
    }

    constructor (base: nat, brk: nat)
      requires 0 < base < brk <= LIMIT
      ensures Valid() && live == {} && this.base == base && this.brk == brk && freep == 0
    {
      this.base, this.brk := base, brk;
      ptr, size, freep := map[], map[], 0;
      fl, live, bs, obtained := [], {}, map[], 0;
    }

    // ---- free ----

    /** The loop of free: it goes round from freep and stops at the block after which bp belongs. */
    method Search(bp: nat) returns (p: nat, ghost t: nat)
      requires Ready() && bp in live
      ensures Place(fl, t, bp) && p == fl[t]
      ensures p in fl && p < bp && forall c :: c in fl && c < bp ==> c <= p
    {
      ghost var n := |fl|;
      ghost var goal := PlaceOf(fl, bp);
      p := freep;
      ghost var i: nat :| i < n && fl[i] == p;
      assert LinkAt(fl, ptr, i);
      while !(bp > p && bp < ptr[p])
        invariant i < n && p == fl[i] && LinkAt(fl, ptr, i)
        decreases Distance(n, i, goal)
      {
        if p >= ptr[p] && (bp > p || bp < ptr[p]) {
          break;
        }
        p := ptr[p];
        i := Step(n, i);
        assert LinkAt(fl, ptr, i);
      }
      t := i;
      PlaceIsLast(t, bp);
    }

    /** No block on the list lies between a block's place and the block. */
    lemma PlaceIsLast(t: nat, b: nat)
      requires Ascending(fl) && Place(fl, t, b)
      ensures forall c :: c in fl && c < b ==> c <= fl[t]
    {
    }

    /** The assignments of free to headers: those for the block after bp ... */
    method JoinUpper(bp: nat, p: nat, ghost t: nat)
      requires Ok(S()) && bp in live && Place(fl, t, bp) && p == fl[t]
      modifies this`ptr, this`size
      ensures UpperWrites(old(S()), p, bp, size, ptr)
    {
      UpperDefined(S(), t, bp);
      hide Ok, Place;
      if bp + size[bp] == ptr[p] {
        size := size[bp := size[bp] + size[ptr[p]]];
        ptr := ptr[bp := ptr[ptr[p]]];
      } else {
        ptr := ptr[bp := ptr[p]];
      }
    }

    /** ... and those for the block before it. */
    method JoinLower(bp: nat, p: nat, ghost t: nat, ghost s: State)
      requires Ok(s) && bp in s.live && Place(s.fl, t, bp) && p == s.fl[t] && UpperWrites(s, p, bp, size, ptr)
      modifies this`ptr, this`size
      ensures ptr == Freed(s, t, bp).ptr && size == Freed(s, t, bp).size
    {
      hide Ok, Place, Freed, UpperWrites;
      FreedHeaders(s, t, bp, size, ptr);
      if p + size[p] == bp {
        size := size[p := size[p] + size[bp]];
        ptr := ptr[p := ptr[bp]];
      } else {
        ptr := ptr[p := bp];
      }
    }

    /** The last statement of free, and of a successful malloc.  The headers hold what r says; the ghost
        state follows. */
    method SetFreep(p: nat, ghost r: State)
      requires ptr == r.ptr && size == r.size && 0 < base < brk <= LIMIT
      requires Good(r, base, p, obtained) && Below(r.bs, brk)
      modifies this`freep, this`fl, this`live, this`bs
      ensures Ready() && S() == r && freep == p
    {
      freep := p;
      fl, live, bs := r.fl, r.live, r.bs;
      assert S() == r;
    }

    /** free: the whole new state, with freep at the block before the freed one, and what that keeps. */
    method Free(ap: nat) returns (ghost t: nat)
      requires Ready() && ap > 0 && ap - 1 in live
      modifies this`ptr, this`size, this`freep, this`fl, this`live, this`bs
      ensures Place(old(fl), t, ap - 1) && freep == old(fl)[t] && S() == Freed(old(S()), t, ap - 1)
      ensures Ready() && live == old(live) - {ap - 1}
      ensures Kept(old(S()), S())
      ensures ap - 1 in old(bs) && Fits(S(), old(bs)[ap - 1])
    {
      var bp := ap - 1;
      var p;
      p, t := Search(bp);
      ghost var s := S();
      ghost var r := Freed(s, t, bp);
      FreedAll(s, t, bp, base, freep, brk, obtained);
      JoinUpper(bp, p, t);
      JoinLower(bp, p, t, s);
      SetFreep(p, r);
    }

    // ---- morecore ----

    /** sbrk, which the process may also call itself: it refuses, or moves the break up. */
    method Sbrk(units: nat) returns (ok: bool, p: nat)
      requires Bounded()
      modifies this`brk
      ensures ok ==> p == old(brk) && brk == p + units
      ensures !ok ==> brk == old(brk)
      ensures Bounded()
    {
      ok := *;
      p := brk;
      if brk + units > LIMIT {
        ok := false;
      }
      if ok {
        brk := brk + units;
      }
    }

    /** The region's header is written, and the region is ready to be freed. */
    method AddRegion(hp: nat, nu: nat)
      requires Ready() && nu > 0 && hp + nu <= brk && Below(bs, hp)
      requires base < hp
      modifies this`size, this`live, this`bs, this`obtained
      ensures Ready() && live == old(live) + {hp} && bs == old(bs)[hp := nu] && hp !in old(bs)
      ensures obtained == old(obtained) + nu && S() == Added(old(S()), hp, nu)
    {
      ghost var s := S();
      AddedOk(s, hp, nu);
      size := size[hp := nu];
      live, bs, obtained := live + {hp}, bs[hp := nu], obtained + nu;
      assert S() == Added(s, hp, nu);
    }

    /** A region of nunits units or more joins the heap; the sizes in bytes stay below 2^31, so that sbrk's
        signed argument is what is meant. */
    method Morecore(nunits: nat) returns (r: nat)
      requires Ready() && 0 < nunits < LIMIT
      modifies this
      ensures Ready() && live == old(live)
      ensures Kept(old(S()), S())
      ensures r == 0 ==> S() == old(S()) && freep == old(freep) && obtained == old(obtained) && brk == old(brk)
      ensures r != 0 ==> r == freep && Fits(S(), nunits)
      ensures r != 0 ==> obtained == old(obtained) + Region(nunits) && brk == old(brk) + Region(nunits)
      ensures r != 0 ==> Extended(old(S()), S(), freep, old(brk), Region(nunits))
    {
      hide AllApart, Circle, Sized, Units, Freed, Place;
      ghost var s := S();
      var nu := if nunits < CHUNK then CHUNK else nunits;
      var ok, hp := Sbrk(nu);
      if !ok {
        return 0;
      }
      AddRegion(hp, nu);
      ghost var t := Free(hp + 1);
      assert JoinedAt(s, S(), freep, hp, nu, t);
      r := freep;
    }

    // ---- malloc ----

    /** The first call sets up a list of base alone. */
    method SetUp()
      requires Valid() && freep == 0
      modifies this`ptr, this`size, this`freep, this`fl
      ensures Ready() && live == old(live) && bs == old(bs) && obtained == old(obtained)
      ensures S() == Started(old(S()), 0, base) && freep == base
    {
      ptr := ptr[base := base];
      freep := base;
      size := size[base := 0];
      fl := [base];
      assert LinkAt(fl, ptr, 0);
    }

    /** A free block of the right size leaves the list. */
    method TakeWhole(prevp: nat, p: nat, ghost i: nat)
      requires Ready() && 0 < i < |fl| && prevp == fl[i - 1] && p == fl[i]
      modifies this`ptr, this`freep, this`fl, this`live, this`bs
      ensures Ready() && S() == Taken(old(S()), i) && freep == prevp
    {
      ghost var s := S();
      assert LinkAt(fl, ptr, i);
      TakenAll(s, i, base, freep, obtained);
      ptr := ptr[prevp := ptr[p]];
      SetFreep(prevp, Taken(s, i));
    }

    method CutTail(p: nat, ghost units: nat, nunits: nat) returns (r: nat)
      requires p in size && size[p] == units && nunits < units
      modifies this`size
      ensures r == p + (units - nunits) && size == TailSize(old(size), p, units, nunits)
    {
      size := size[p := size[p] - nunits];
      r := p + size[p];
      size := size[r := nunits];
    }

    /** A larger free block loses its tail. */
    method TakeTail(prevp: nat, p: nat, nunits: nat, ghost i: nat) returns (r: nat)
      requires Ready() && 0 < i < |fl| && prevp == fl[i - 1] && p == fl[i] && p in bs && 0 < nunits < bs[p]
      modifies this`size, this`freep, this`fl, this`live, this`bs
      ensures Ready() && r == p + (old(bs)[p] - nunits) && r !in old(bs) && freep == prevp
      ensures S() == Split(old(S()), i, nunits)
    {
      ghost var s := S();
      SplitAll(s, i, nunits, base, freep, brk, obtained);
      r := CutTail(p, bs[p], nunits);
      SetFreep(prevp, Split(s, i, nunits));
    }

    method TakeBlock(prevp: nat, p: nat, nunits: nat, ghost i: nat) returns (r: nat)
      requires Ready() && 0 < i < |fl| && prevp == fl[i - 1] && p == fl[i] && p in bs && 0 < nunits <= bs[p]
      modifies this`ptr, this`size, this`freep, this`fl, this`live, this`bs
      ensures Ready() && r == p + (old(bs)[p] - nunits) && freep == prevp && S() == Given(old(S()), i, nunits)
      ensures live == old(live) + {r} && r !in old(live) && r in bs && bs[r] == nunits && Kept(old(S()), S())
    {
      hide AllApart, Circle, Units, Disjoint;
      FreeBlock(S(), i);
      CarvedLive(S(), p, nunits);
      if size[p] == nunits {
        TakeWhole(prevp, p, i);
        r := p;
      } else {
        r := TakeTail(prevp, p, nunits, i);
      }
    }

    /** The search is at p, place i of the list, and prevp is the block before; freep is at place f. */
    ghost predicate Searching(n: nat, prevp: nat, p: nat, f: nat, i: nat)
      reads this
    {
      && Ready() && f < |fl| && i < |fl| && fl[f] == freep && fl[i] == p && (i > 0 ==> prevp == fl[i - 1])
      && Passed(S(), n, f, i)
    }

    /** The search starts, or goes on with the block after freep when morecore has been called. */
    method Start(n: nat) returns (prevp: nat, p: nat, ghost f: nat, ghost i: nat)
      requires Ready()
      ensures Searching(n, prevp, p, f, i) && prevp == freep && freep in ptr && p == ptr[freep]
    {
      prevp := freep;
      f :| f < |fl| && fl[f] == freep;
      assert LinkAt(fl, ptr, f);
      p := ptr[prevp];
      i := Step(|fl|, f);
    }

    /** The block at p, which is not freep, is too small. */
    method Advance(n: nat, p: nat, ghost f: nat, ghost i: nat, ghost q: nat) returns (prevp: nat, p': nat)
      requires Searching(n, q, p, f, i) && p in size && size[p] < n && p != freep
      ensures Searching(n, prevp, p', f, Step(|fl|, i))
      ensures Distance(|fl|, Step(|fl|, i), f) < Distance(|fl|, i, f)
    {
      assert LinkAt(fl, ptr, i);
      PassedOne(S(), n, f, i);
      prevp := p;
      p' := ptr[p];
    }

    /**
     malloc's search: from the block after freep round to freep, then, once, through a heap that has a new
     region in it.
     */
    method FindBlock(nunits: nat) returns (found: bool, prevp: nat, p: nat, ghost i: nat)
      requires Ready() && 0 < nunits < LIMIT
      modifies this
      ensures Ready() && live == old(live) && Kept(old(S()), S())
      ensures found ==> NextFit(S(), freep, nunits, i) && prevp == fl[i - 1] && p == fl[i]
      ensures found && Fits(old(S()), nunits) ==>
        S() == old(S()) && freep == old(freep) && obtained == old(obtained)
      ensures found && !Fits(old(S()), nunits) ==>
        obtained == old(obtained) + Region(nunits) && Extended(old(S()), S(), freep, old(brk), Region(nunits))
      ensures !found ==>
        !Fits(old(S()), nunits) && S() == old(S()) && freep == old(freep) && obtained == old(obtained)
    {
      hide AllApart, Circle, Sized, Disjoint, Passed, Fits, Units, Extended;
      ghost var s, start, before, hp := S(), freep, obtained, brk;
      ghost var f;
      prevp, p, f, i := Start(nunits);
      ghost var grown := false;
      while true
        invariant Searching(nunits, prevp, p, f, i)
        invariant live == s.live && Kept(s, S())
        invariant !grown ==> S() == s && freep == start && obtained == before && brk == hp
        invariant grown ==> Fits(S(), nunits) && !Fits(s, nunits)
        invariant grown ==> obtained == before + Region(nunits) && Extended(s, S(), freep, hp, Region(nunits))
        decreases if grown then 0 else 1, Distance(|fl|, i, f)
      {
        SizeAt(S(), i);
        if size[p] >= nunits {
          FitsAt(S(), nunits, i);
          return true, prevp, p, i;
        }
        if p == freep {
          SamePlace(S(), i, f);
          PassedAll(S(), nunits, f);
          p := Morecore(nunits);
          if p == 0 {
            return false, prevp, p, i;
          }
          grown := true;
          prevp, p, f, i := Start(nunits);
        } else {
          prevp, p := Advance(nunits, p, f, i, prevp);
          i := Step(|fl|, i);
        }
      }
    }

    /**
     malloc once the list is set up, with the request in units.  The heap t it takes the block from is the one
     before, or, if that has no big enough block, one with a new region.
     */
    method Allocate(nunits: nat) returns (r: nat, ghost t: State, ghost start: nat, ghost i: nat)
      requires Ready() && 0 < nunits < LIMIT
      modifies this
      ensures Ready() && Kept(old(S()), S())
      ensures r == 0 ==> S() == old(S()) && freep == old(freep) && !Fits(old(S()), nunits)
      ensures r != 0 ==> NextFit(t, start, nunits, i) && S() == Given(t, i, nunits) && freep == t.fl[i - 1]
      ensures r != 0 ==> r == t.fl[i] + (t.bs[t.fl[i]] - nunits) + 1
      ensures r != 0 && Fits(old(S()), nunits) ==> t == old(S()) && start == old(freep)
      ensures r != 0 && !Fits(old(S()), nunits) ==> Extended(old(S()), t, start, old(brk), Region(nunits))
      ensures r != 0 ==> live == old(live) + {r - 1} && r - 1 !in old(live)
      ensures r != 0 ==> r - 1 in bs && bs[r - 1] == nunits
      ensures obtained == old(obtained) + Grown(r, Fits(old(S()), nunits), nunits)
    {
      hide Ok, Good, AllApart, Given, Passed, Fits, Distance, Extended;
      ghost var s := S();
      var found, prevp, p;
      found, prevp, p, i := FindBlock(nunits);
      t, start := S(), freep;
      if !found {
        r := 0;
        return;
      }
      var b := TakeBlock(prevp, p, nunits, i);
      KeptTrans(s, t, S());
      r := b + 1;
    }

    /**
     malloc: it fails only when no free block is big enough and sbrk refuses.  Otherwise a new live block of
     nunits units appears, the tail of the first big enough block after freep, and the live blocks before keep
     their places and sizes.  freep is left at the block before, so that the next call goes on there (SecondCall).
     */
    method Malloc(nbytes: nat) returns (r: nat, ghost t: State, ghost start: nat, ghost i: nat)
      requires Valid() && nbytes < WORD && UnitsFor(nbytes) < LIMIT
      modifies this
      ensures Ready() && Kept(old(S()), S())
      ensures r == 0 ==> !Fits(old(S()), UnitsFor(nbytes)) && S() == Started(old(S()), old(freep), base)
      ensures r == 0 ==> freep == if old(freep) == 0 then base else old(freep)
      ensures r != 0 ==> NextFit(t, start, UnitsFor(nbytes), i) && S() == Given(t, i, UnitsFor(nbytes))
      ensures r != 0 ==> r == t.fl[i] + (t.bs[t.fl[i]] - UnitsFor(nbytes)) + 1 && freep == t.fl[i - 1]
      ensures r != 0 && Fits(old(S()), UnitsFor(nbytes)) ==> t == old(S()) && start == old(freep)
      ensures r != 0 && !Fits(old(S()), UnitsFor(nbytes)) ==>
        Extended(Started(old(S()), old(freep), base), t, start, old(brk), Region(UnitsFor(nbytes)))
      ensures r != 0 ==> live == old(live) + {r - 1} && r - 1 !in old(live)
      ensures r != 0 ==> r - 1 in bs && bs[r - 1] == UnitsFor(nbytes)
      ensures obtained == old(obtained) + Grown(r, Fits(old(S()), UnitsFor(nbytes)), UnitsFor(nbytes))
    {
      if freep == 0 {
        SetUp();
        assert !Fits(old(S()), UnitsFor(nbytes)) && !Fits(S(), UnitsFor(nbytes));
      }
      r, t, start, i := Allocate(UnitsFor(nbytes));
    }
  }

  /** What a call takes from sbrk: nothing when it fails or some free block is big enough. */
  function Grown(r: nat, fits: bool, nunits: nat): nat {
    if r == 0 || fits then 0 else Region(nunits)
  }
}
