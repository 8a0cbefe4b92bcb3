/**
 vm.c over kalloc.c: physical pages on a free list that runs through the pages themselves, and the
 operations that build, grow, shrink, copy and free an address space.
 */
module Vm {
  import opened Common
  import opened VmModel

  const PGSIZE: nat := 4096
  const KERNBASE: nat := 0x8000_0000

  /** An entry of kmap, in pages. */
  datatype KMap = KMap(virt: nat, physStart: nat, physEnd: nat, perm: nat)

  // PTE_W
  const W: nat := 2

  /** The first page of kernel data: the symbol `data`, which the linker aligns to a page. */
  predicate DataPage(d: nat) {
    0x80100 < d < 0x8E000
  }

  /** kmap: I/O space, kernel text, kernel data and free memory, devices.  The last ends at 2^32. */
  function Kmap(d: nat): (ks: seq<KMap>)
    requires DataPage(d)
    ensures |ks| == 4
  {
    [KMap(0x80000, 0, 0x100, W),
     KMap(0x80100, 0x100, d - 0x80000, 0),
     KMap(d, d - 0x80000, 0xE000, W),
     KMap(0xFE000, 0xFE000, 0x100000, W)]
  }

  /** The kernel half of every address space: physical memory from USER on, and the devices. */
  function KernelPte(d: nat, v: nat): Pte {
    if USER <= v < USER + 0xE000 then Map(v - USER, if 0x80100 <= v < d then 0 else W)
    else if 0xFE000 <= v < TOP then Map(v, W)
    else Absent
  }

  /** PGROUNDUP, in pages. */
  function Up(sz: nat): (n: nat)
    ensures n * PGSIZE >= sz && n * PGSIZE < sz + PGSIZE
    ensures sz <= KERNBASE ==> n <= USER
  {
    (sz + PGSIZE - 1) / PGSIZE
  }

  // ---- what the permission bits allow ----

  /** Bit 1, PTE_W, and bit 2, PTE_U, of an entry. */
  predicate WriteBit(e: Pte) {
    e.Map? && e.perm / 2 % 2 == 1
  }

  predicate UserBit(e: Pte) {
    e.Map? && e.perm / 4 % 2 == 1
  }

  /** The page can be reached from user mode, and written to: the directory and the table must both allow it. */
  predicate UserMay(s: Space, v: nat) {
    UserBit(At(s.pgs, v)) && UserBit(PdeOf(s, Pdx(v)))
  }

  predicate MayWrite(s: Space, v: nat) {
    WriteBit(At(s.pgs, v)) && WriteBit(PdeOf(s, Pdx(v)))
  }

  /** Kernel text and read-only data: from KERNLINK up to the symbol `data`. */
  predicate TextPage(d: nat, v: nat) {
    0x80100 <= v < d
  }

  /** User pages are for the user, to read and write; the kernel half is not, and its text cannot be written to. */
  ghost predicate Protected(s: Space, d: nat) {
    forall v: nat :: At(s.pgs, v).Map? ==>
      (UserMay(s, v) <==> v < USER) && (MayWrite(s, v) <==> v < USER || !TextPage(d, v))
  }

  predicate EntryOk(e: Pte, d: nat, v: nat) {
    e.Map? ==> (UserBit(e) <==> v < USER) && (WriteBit(e) <==> v < USER || !TextPage(d, v))
  }

  /** The entries of the directory allow everything. */
  lemma ProtectedIff(s: Space, d: nat)
    requires Roles(s)
    ensures Protected(s, d) <==> forall v: nat :: EntryOk(At(s.pgs, v), d, v)
  {
    forall v: nat
      ensures At(s.pgs, v).Map? ==> UserBit(PdeOf(s, Pdx(v))) && WriteBit(PdeOf(s, Pdx(v)))
    {
      assert v in s.pgs ==> PageOk(s, v);
    }
    if forall v: nat :: EntryOk(At(s.pgs, v), d, v) {
      forall v: nat | At(s.pgs, v).Map?
        ensures (UserMay(s, v) <==> v < USER) && (MayWrite(s, v) <==> v < USER || !TextPage(d, v))
      {
        assert EntryOk(At(s.pgs, v), d, v);
      }
    }
  }

  lemma KernelProtected(s: Space, d: nat)
    requires Roles(s) && DataPage(d) && forall v: nat :: At(s.pgs, v) == if v < TOP then KernelPte(d, v) else Absent
    ensures Protected(s, d)
  {
    ProtectedIff(s, d);
  }

  /** A change of an address space whose entries are old ones, absent, or those of user pages. */
  lemma StaysProtected(s: Space, t: Space, d: nat)
    requires Roles(s) && Roles(t) && Protected(s, d)
    requires forall v: nat ::
      At(t.pgs, v) == At(s.pgs, v) || At(t.pgs, v) == Absent || (v < USER && EntryOk(At(t.pgs, v), d, v))
    ensures Protected(t, d)
  {
    ProtectedIff(s, d);
    ProtectedIff(t, d);
  }

  lemma GrownProtected(mem: Memory, s: Space, lo: nat, hi: nat, t: Space, d: nat)
    requires Roles(s) && Roles(t) && Protected(s, d) && Extended(mem, s, lo, hi, t) && hi <= USER
    ensures Protected(t, d)
  {
    forall v: nat
      ensures At(t.pgs, v) == At(s.pgs, v) || (v < USER && EntryOk(At(t.pgs, v), d, v))
    {
      assert lo <= v < hi ==> Zeroed(mem, t, v);
    }
    StaysProtected(s, t, d);
  }

  lemma GrowsProtected(mem: Memory, s: Space, lo: nat, hi: nat, t: Space)
    requires Roles(s) && Roles(t) && Extended(mem, s, lo, hi, t) && hi <= USER
    ensures forall d :: Protected(s, d) ==> Protected(t, d)
  {
    forall d | Protected(s, d)
      ensures Protected(t, d)
    {
      GrownProtected(mem, s, lo, hi, t, d);
    }
  }

  lemma StillProtected(s: Space, t: Space)
    requires Roles(s) && Roles(t) && forall v: nat :: At(t.pgs, v) == At(s.pgs, v) || At(t.pgs, v) == Absent
    ensures forall d :: Protected(s, d) ==> Protected(t, d)
  {
    forall d | Protected(s, d)
      ensures Protected(t, d)
    {
      StaysProtected(s, t, d);
    }
  }

  lemma CopiedProtected(mem: Memory, p: Space, n: nat, d: nat, t: Space)
    requires Roles(p) && Roles(t) && DataPage(d) && Protected(p, d) && CopiedTo(mem, p, n, d, t) && n <= USER
    ensures Protected(t, d)
  {
    ProtectedIff(p, d);
    ProtectedIff(t, d);
    forall v: nat
      ensures EntryOk(At(t.pgs, v), d, v)
    {
      assert EntryOk(At(p.pgs, v), d, v) && (v < n ==> Copied(mem, p, t, v));
    }
  }

  ghost predicate LinkAt(mem: Memory, free: seq<nat>, k: nat)
    requires k < |free|
  {
    free[k] in mem && mem[free[k]] == Run(if k + 1 < |free| then free[k + 1] else 0)
  }

  /** The free list: each free page holds the address of the next one. */
  ghost predicate Chain(mem: Memory, head: nat, free: seq<nat>) {
    && NoRepeats(free) && head == (if free == [] then 0 else free[0])
    && forall k: nat :: k < |free| ==> LinkAt(mem, free, k)
  }

  lemma Popped(mem: Memory, head: nat, free: seq<nat>)
    requires Chain(mem, head, free) && free != []
    ensures head in mem && mem[head].Run? && Chain(mem, mem[head].next, free[1..])
    ensures head !in free[1..] && forall f :: f in free <==> f == head || f in free[1..]
  {
    assert LinkAt(mem, free, 0);
    forall k: nat | k < |free| - 1
      ensures LinkAt(mem, free[1..], k)
    {
      assert LinkAt(mem, free, k + 1);
    }
  }

  lemma Pushed(mem: Memory, head: nat, free: seq<nat>, f: nat)
    requires Chain(mem, head, free) && f !in free && 0 !in mem
    ensures Chain(mem[f := Run(head)], f, [f] + free)
  {
    var r := [f] + free;
    var m := mem[f := Run(head)];
    forall k: nat | k < |r|
      ensures LinkAt(m, r, k)
    {
      assert k > 0 ==> LinkAt(mem, free, k - 1);
    }
  }

  /** Page w is mapped for the user to a page of zeros. */
  ghost predicate Zeroed(mem: Memory, t: Space, w: nat) {
    var e := At(t.pgs, w);
    e.Map? && e.perm == WU && e.frame in mem && mem[e.frame] == Bytes(ZeroPage(PGSIZE))
  }

  /** t is s with pages of zeros from lo up to hi. */
  ghost predicate Extended(mem: Memory, s: Space, lo: nat, hi: nat, t: Space) {
    forall w: nat :: if lo <= w < hi then Zeroed(mem, t, w) else At(t.pgs, w) == At(s.pgs, w)
  }

  lemma ExtendedNext(was: Memory, s: Space, lo: nat, a: nat, u: Space, mem: Memory, t: Space, page: nat, ok: bool)
    requires Extended(was, s, lo, a, u) && Roles(u) && lo <= a < USER
    requires Ranged(u.pgs, a, if ok then 1 else 0, page, WU, t.pgs)
    requires ok ==> page in mem && mem[page] == Bytes(ZeroPage(PGSIZE))
    requires forall f :: f in u.role.Keys - InnerPages(u) && f in was ==> f in mem && mem[f] == was[f]
    ensures Extended(mem, s, lo, if ok then a + 1 else a, t)
  {
    forall w: nat | lo <= w < a
      ensures Zeroed(mem, t, w)
    {
      assert Zeroed(was, u, w) && At(t.pgs, w) == At(u.pgs, w);
      assert PageOk(u, w);
    }
  }

  /** Page w of t is a copy of page w of p, with the same permissions. */
  ghost predicate Copied(mem: Memory, p: Space, t: Space, w: nat) {
    var e, c := At(p.pgs, w), At(t.pgs, w);
    && e.Map? && c.Map? && c.perm == e.perm
    && e.frame in mem && c.frame in mem && mem[c.frame] == mem[e.frame]
  }

  /** The child t has copies of the first n pages of p, and the kernel half. */
  ghost predicate CopiedTo(mem: Memory, p: Space, n: nat, d: nat, t: Space) {
    forall w: nat :: if w < n then Copied(mem, p, t, w) else At(t.pgs, w) == KernelPte(d, w)
  }

  /** The pages of a space hold what they held. */
  ghost predicate SamePages(was: Memory, mem: Memory, pages: set<nat>) {
    forall f :: f in pages && f in was ==> f in mem && mem[f] == was[f]
  }

  lemma CopiedNext(was: Memory, p: Space, a: nat, d: nat, u: Space, mem: Memory, t: Space, page: nat, e: Pte)
    requires CopiedTo(was, p, a, d, u) && Roles(u) && Roles(p) && a < USER && e.Map? && At(p.pgs, a) == e
    requires Ranged(u.pgs, a, 1, page, e.perm, t.pgs)
    requires p.role.Keys <= was.Keys && page in mem && mem[page] == was[e.frame]
    requires SamePages(was, mem, u.role.Keys - InnerPages(u)) && SamePages(was, mem, p.role.Keys)
    ensures CopiedTo(mem, p, a + 1, d, t)
  {
    forall w: nat | w <= a
      ensures Copied(mem, p, t, w)
    {
      if w < a {
        assert Copied(was, p, u, w) && At(t.pgs, w) == At(u.pgs, w);
        assert PageOk(u, w) && PageOk(p, w);
      } else {
        assert PageOk(p, a);
      }
    }
  }

  lemma DirIsTable(mem: Memory, s: Space)
    requires Roles(s) && Holds(mem, s)
    ensures s.dir in s.role && s.dir in mem && mem[s.dir].Table? && |mem[s.dir].ptes| == NPT
  {
  }

  /** Where the entry of a mapped page is, and whose the page is. */
  lemma MappedPage(mem: Memory, s: Space, v: nat, pgtab: nat)
    requires Roles(s) && Holds(mem, s) && s.role.Keys <= mem.Keys
    requires v < USER && v in s.pgs && Pdx(v) in s.tabs && s.tabs[Pdx(v)] == pgtab
    ensures pgtab in mem && mem[pgtab].Table? && Ptx(v) < |mem[pgtab].ptes|
    ensures s.pgs[v].Map? && mem[pgtab].ptes[Ptx(v)] == s.pgs[v]
    ensures Inner(s, pgtab) && pgtab in s.role && s.pgs[v].frame in s.role && !Inner(s, s.pgs[v].frame)
  {
    assert PageOk(s, v) && PteAt(mem, s, v) && Inner(s, pgtab);
  }

  lemma Unmapped(s: Space, v: nat)
    requires Roles(s) && v < USER && v in s.pgs && s.pgs[v].Map?
    ensures var t := WithoutPage(s, v);
      && Roles(t) && t.dir == s.dir && t.tabs == s.tabs && t.pgs == s.pgs - {v}
      && t.role.Keys == s.role.Keys - {s.pgs[v].frame}
      && PteOf(t, v) == Absent && forall w: nat :: w < TOP && w != v ==> PteOf(t, w) == PteOf(s, w)
  {
    WithoutPageRoles(s, v);
  }

  lemma LooseApart(o: Origin, mem: Memory, free: set<nat>, s: Space, loose: set<nat>)
    requires Accounted(o, mem, free, s, loose)
    ensures loose !! free && loose !! s.role.Keys
  {
  }

  /** A free page f is cleared and entered in the directory as table i. */
  lemma TableAdded(o: Origin, was: Memory, free: set<nat>, s: Space, loose: set<nat>, i: nat, f: nat, mem: Memory)
    requires Roles(s) && Holds(was, s) && s.role.Keys !! free && s.role.Keys <= was.Keys
    requires Accounted(o, was, free, s, loose) && free <= o.free && f in free && f in was && i < NPT && i !in s.tabs
    requires s.dir in was && was[s.dir].Table? && |was[s.dir].ptes| == NPT && s.dir != f
    requires mem == was[f := Table(ZeroTable(NPT))][s.dir := Table(was[s.dir].ptes[i := Map(f, WU)])]
    ensures var t := WithTable(s, i, f);
      && Roles(t) && Holds(mem, t) && Accounted(o, mem, free - {f}, t, loose) && Keeps(s, t)
      && t.role.Keys !! (free - {f}) && t.role.Keys <= mem.Keys
      && i in t.tabs && t.tabs[i] == f && t.pgs == s.pgs
    ensures mem.Keys == was.Keys && forall g :: g in mem && g != f && g != s.dir ==> mem[g] == was[g]
  {
    hide Roles, Holds, Accounted, ZeroTable;
    WithTableRoles(s, i, f);
    WithTableHolds(was, s, i, f);
    AccountedTable(o, was, free, s, loose, i, f, mem);
  }

  class Kernel {
    var mem: Memory
    var freelist: nat
    ghost var free: seq<nat>

    ghost function Free(): set<nat>
      reads this`free
    {
      set f | f in free
    }

    ghost predicate Kmem()
      reads this
    {
      0 !in mem && Chain(mem, freelist, free)
    }

    ghost predicate Owns(s: Space)
      reads this
    {
      && Kmem() && Roles(s) && Holds(mem, s)
      && s.role.Keys !! Free() && s.role.Keys <= mem.Keys
    }

    /** Writes to pages that are not free leave the free list alone. */
    lemma KmemSame(was: Memory)
      requires Chain(was, freelist, free) && was.Keys == mem.Keys && 0 !in was
      requires forall f :: f in Free() && f in was ==> mem[f] == was[f]
      ensures Kmem()
    {
      forall k: nat | k < |free|
        ensures LinkAt(mem, free, k)
      {
        assert LinkAt(was, free, k) && free[k] in Free();
      }
    }

    // ---- kalloc.c ----

    /** kalloc: the first free page, or 0 when there is none. */
    method Kalloc() returns (r: nat)
      requires Kmem()
      modifies this`freelist, this`free
      ensures Kmem()
      ensures r == 0 ==> old(Free()) == {} && Free() == {}
      ensures r != 0 ==> r in mem && r in old(Free()) && Free() == old(Free()) - {r}
      ensures if r == 0 then old(free) == free == [] else old(free) == [r] + free
    {
      r := freelist;
      assert free != [] ==> LinkAt(mem, free, 0);
      if r != 0 {
        Popped(mem, freelist, free);
        freelist := mem[r].next;
        free := free[1..];
      }
    }

    /** kfree of a page that is not free already. */
    method Kfree(f: nat)
      requires Kmem() && f in mem && f !in Free()
      modifies this
      ensures Kmem() && Free() == old(Free()) + {f} && free == [f] + old(free)
      ensures mem.Keys == old(mem.Keys) && forall g :: g in mem && g != f ==> mem[g] == old(mem)[g]
    {
      Pushed(mem, freelist, free, f);
      mem := mem[f := Run(freelist)];
      freelist := f;
      free := [f] + free;
    }

    /** freerange, from page lo up to page hi. */
    method Freerange(lo: nat, hi: nat)
      requires Kmem() && lo <= hi && forall f :: lo <= f < hi ==> f in mem && f !in Free()
      modifies this
      ensures Kmem() && forall f :: f in Free() <==> f in old(Free()) || lo <= f < hi
    {
      var p := lo;
      while p < hi
        invariant lo <= p <= hi && Kmem() && mem.Keys == old(mem.Keys)
        invariant forall f :: f in Free() <==> f in old(Free()) || lo <= f < p
      {
        Kfree(p);
        p := p + 1;
      }
    }

    ghost predicate Since(o: Origin, t: Space, loose: set<nat>)
      reads this
    {
      Owns(t) && loose <= mem.Keys && Accounted(o, mem, Free(), t, loose)
    }

    /** These pages hold what they held. */
    ghost predicate Same(was: Memory, pages: set<nat>)
      reads this`mem
    {
      forall f :: f in pages && f in was ==> f in mem && mem[f] == was[f]
    }

    // ---- walkpgdir and mappages ----

    /** What walkpgdir does when the table is missing: it takes a page, clears it and enters it. */
    method AddTable(dir: nat, i: nat, ghost s: Space, ghost o: Origin, ghost loose: set<nat>)
      returns (pgtab: nat, ghost t: Space)
      requires Since(o, s, loose) && Free() <= o.free && dir == s.dir && i < NPT && i !in s.tabs
      modifies this
      ensures Since(o, t, loose) && Free() <= o.free && t.pgs == s.pgs && Keeps(s, t) && Same(old(mem), loose)
      ensures pgtab == 0 ==> t == s && Free() == {}
      ensures pgtab != 0 ==> i in t.tabs && t.tabs[i] == pgtab
    {
      hide Chain, Roles, Holds, Accounted, WithTable, Keeps;
      t := s;
      SpaceKept(s);
      pgtab := Kalloc();
      if pgtab != 0 {
        ghost var was := mem;
        DirIsTable(was, s);
        LooseApart(o, was, old(Free()), s, loose);
        t := WithTable(s, i, pgtab);
        mem := mem[pgtab := Table(ZeroTable(NPT))];
        mem := mem[dir := Table(mem[dir].ptes[i := Map(pgtab, WU)])];
        TableAdded(o, was, old(Free()), s, loose, i, pgtab, mem);
        KmemSame(was);
      }
    }

    lemma SpaceKept(s: Space)
      ensures Keeps(s, s)
    {
    }

    /** walkpgdir: the table with the entry for page v, or 0. */
    method Walk(dir: nat, v: nat, ghost s: Space) returns (pgtab: nat)
      requires Owns(s) && dir == s.dir && v < TOP
      ensures pgtab == 0 ==> Pdx(v) !in s.tabs
      ensures pgtab != 0 ==> Pdx(v) in s.tabs && s.tabs[Pdx(v)] == pgtab
    {
      assert PdeAt(mem, s, Pdx(v));
      var pde := mem[dir].ptes[Pdx(v)];
      pgtab := if pde.Map? then pde.frame else 0;
    }

    /** walkpgdir with alloc: the table is added if it is missing. */
    method WalkAlloc(dir: nat, v: nat, ghost s: Space, ghost o: Origin, ghost loose: set<nat>)
      returns (pgtab: nat, ghost t: Space)
      requires Since(o, s, loose) && Free() <= o.free && dir == s.dir && v < TOP
      modifies this
      ensures Since(o, t, loose) && Free() <= o.free && t.pgs == s.pgs && Keeps(s, t) && Same(old(mem), loose)
      ensures pgtab == 0 ==> t == s && Free() == {}
      ensures pgtab != 0 ==> Pdx(v) in t.tabs && t.tabs[Pdx(v)] == pgtab
    {
      t := s;
      pgtab := Walk(dir, v, s);
      if pgtab == 0 {
        pgtab, t := AddTable(dir, Pdx(v), s, o, loose);
      }
    }

    /** One page table entry is written. */
    method SetPte(pgtab: nat, v: nat, e: Pte, ghost s: Space, ghost t: Space)
      requires Kmem() && Roles(s) && Holds(mem, s) && v < TOP && Pdx(v) in s.tabs && s.tabs[Pdx(v)] == pgtab
      requires t.dir == s.dir && t.tabs == s.tabs && PteOf(t, v) == e && Roles(t) && pgtab !in Free()
      requires forall w: nat :: w < TOP && w != v ==> PteOf(t, w) == PteOf(s, w)
      requires t.role.Keys !! Free() && t.role.Keys <= mem.Keys
      modifies this`mem
      ensures Owns(t) && mem.Keys == old(mem.Keys)
      ensures forall f :: f in mem && f != pgtab ==> mem[f] == old(mem)[f]
    {
      ghost var was := mem;
      PutHolds(mem, s, v, e, t);
      mem := mem[pgtab := Table(mem[pgtab].ptes[Ptx(v) := e])];
      assert Inner(s, pgtab);
      KmemSame(was);
    }

    /** mappages enters a page: a user page out of the caller's hands, or a kernel page, which is nobody's. */
    method EnterPage(pgtab: nat, v: nat, frame: nat, perm: nat, ghost s: Space, ghost o: Origin)
      returns (ghost t: Space)
      requires Since(o, s, Taken(v, frame)) && v < TOP && v !in s.pgs
      requires Pdx(v) in s.tabs && s.tabs[Pdx(v)] == pgtab
      modifies this`mem
      ensures Since(o, t, {}) && t.pgs == s.pgs[v := Map(frame, perm)] && Keeps(s, t)
      ensures Same(old(mem), Taken(v, frame))
    {
      t := WithPage(s, v, Map(frame, perm));
      WithPageRoles(s, v, Map(frame, perm));
      assert Inner(s, pgtab);
      ghost var was := mem;
      SetPte(pgtab, v, Map(frame, perm), s, t);
      AccountedPage(o, was, Free(), s, v, Map(frame, perm), pgtab, mem);
    }

    /** The body of mappages' loop. */
    method MapPage(dir: nat, v: nat, frame: nat, perm: nat, ghost s: Space, ghost o: Origin)
      returns (ok: bool, ghost t: Space)
      requires Since(o, s, Taken(v, frame)) && Free() <= o.free && dir == s.dir && v < TOP && v !in s.pgs
      modifies this
      ensures Since(o, t, if ok then {} else Taken(v, frame)) && Free() <= o.free && Keeps(s, t)
      ensures Same(old(mem), Taken(v, frame))
      ensures ok ==> t.pgs == s.pgs[v := Map(frame, perm)]
      ensures !ok ==> t.pgs == s.pgs
    {
      var pgtab;
      pgtab, t := WalkAlloc(dir, v, s, o, Taken(v, frame));
      ok := pgtab != 0;
      if ok {
        t := EnterPage(pgtab, v, frame, perm, t, o);
      }
    }

    /** One turn of mappages' loop, which has mapped `done` pages of n. */
    method MapNext(dir: nat, v: nat, n: nat, frame: nat, perm: nat, ghost done: nat, a: nat, pa: nat,
                   ghost pgs: map<nat, Pte>, ghost s: Space, ghost o: Origin)
      returns (ok: bool, ghost t: Space)
      requires Since(o, s, Taken(a, pa)) && Free() <= o.free && dir == s.dir
      requires done < n && v + n <= TOP && (USER <= v || n == 1) && a == v + done && pa == frame + done
      requires Ranged(pgs, v, done, frame, perm, s.pgs) && forall w :: v <= w < v + n ==> w !in pgs
      modifies this
      ensures Since(o, t, if ok then {} else Taken(a, pa)) && Free() <= o.free && Keeps(s, t)
      ensures Same(old(mem), Taken(a, pa))
      ensures Ranged(pgs, v, if ok then done + 1 else done, frame, perm, t.pgs)
      ensures done + 1 < n ==> Taken(a, pa) == Taken(a + 1, pa + 1) == {}
    {
      RangedNext(pgs, v, done, frame, perm, s.pgs, a, pa);
      assert At(s.pgs, a) == Absent;
      assert a in s.pgs ==> PageOk(s, a);
      ok, t := MapPage(dir, a, pa, perm, s, o);
    }

    /**
     mappages, in pages: it maps page v + k to page frame + k, for all k < n, or, when it cannot get a page
     for a table, only for the first `done` of them.
     */
    method Mappages(dir: nat, v: nat, n: nat, frame: nat, perm: nat, ghost s: Space, ghost o: Origin)
      returns (ok: bool, ghost t: Space, ghost done: nat)
      requires Since(o, s, Taken(v, frame)) && Free() <= o.free && dir == s.dir && 0 < n && v + n <= TOP
      requires forall w :: v <= w < v + n ==> w !in s.pgs
      requires USER <= v || n == 1
      modifies this
      ensures Since(o, t, if ok then {} else Taken(v, frame)) && Free() <= o.free && Keeps(s, t)
      ensures Same(old(mem), Taken(v, frame))
      ensures done <= n && (ok <==> done == n) && Ranged(s.pgs, v, done, frame, perm, t.pgs)
    {
      var a, pa := v, frame;
      t, done := s, 0;
      while true
        invariant Since(o, t, Taken(a, pa)) && Free() <= o.free && Keeps(s, t)
        invariant done < n && a == v + done && pa == frame + done
        invariant Taken(a, pa) == Taken(v, frame) && Same(old(mem), Taken(v, frame))
        invariant Ranged(s.pgs, v, done, frame, perm, t.pgs)
        decreases n - done
      {
        ok, t := MapNext(dir, v, n, frame, perm, done, a, pa, s.pgs, t, o);
        if !ok {
          return;
        }
        done := done + 1;
        if a == v + n - 1 {
          break;
        }
        a := a + 1;
        pa := pa + 1;
      }
    }

    // ---- deallocuvm ----

    /** A page that is mapped goes back to the free list, and its entry is cleared. */
    method DropPage(pgtab: nat, v: nat, ghost s: Space, ghost o: Origin, ghost loose: set<nat>)
      returns (ghost t: Space)
      requires Since(o, s, loose) && v < USER && v in s.pgs && Pdx(v) in s.tabs && s.tabs[Pdx(v)] == pgtab
      modifies this
      ensures Since(o, t, loose) && t.dir == s.dir && t.tabs == s.tabs && t.pgs == s.pgs - {v}
    {
      hide Chain, Roles, Holds, Accounted, WithoutPage, PteOf;
      ghost var was, free0 := mem, Free();
      MappedPage(was, s, v, pgtab);
      Unmapped(s, v);
      var pa := mem[pgtab].ptes[Ptx(v)].frame;
      Kfree(pa);
      HoldsSame(was, mem, s);
      t := WithoutPage(s, v);
      SetPte(pgtab, v, Absent, s, t);
      AccountedFreed(o, was, free0, s, loose, v, pgtab, mem);
    }

    /** One turn of deallocuvm's loop: page a is dropped, or, where there is no table, every page up to the
        next table is skipped. */
    method DropNext(dir: nat, a: nat, ghost s: Space, ghost o: Origin, ghost loose: set<nat>)
      returns (a': nat, ghost t: Space)
      requires Since(o, s, loose) && dir == s.dir && a < USER
      modifies this
      ensures Since(o, t, loose) && t.dir == s.dir && t.tabs == s.tabs
      ensures a < a' && Dropped(s.pgs, a, a', t.pgs) && forall w: nat :: a < w < a' ==> At(s.pgs, w) == Absent
    {
      hide RoleOk, LinkAt, Accounted;
      t := s;
      a' := a;
      var pgtab := Walk(dir, a, s);
      if pgtab == 0 {
        a' := (Pdx(a) + 1) * NPT - 1;
        forall w: nat | a <= w <= a'
          ensures At(s.pgs, w) == Absent
        {
          assert w in s.pgs ==> PageOk(s, w);
        }
      } else {
        assert PteAt(mem, s, a);
        if mem[pgtab].ptes[Ptx(a)].Map? {
          t := DropPage(pgtab, a, s, o, loose);
        }
      }
      a' := a' + 1;
    }

    /** deallocuvm frees exactly the pages that are mapped between the two sizes, whatever tables are missing. */
    method Deallocuvm(dir: nat, oldsz: nat, newsz: nat, ghost s: Space, ghost o: Origin, ghost loose: set<nat>)
      returns (r: nat, ghost t: Space)
      requires Since(o, s, loose) && dir == s.dir && oldsz <= KERNBASE
      modifies this
      ensures r == if newsz >= oldsz then oldsz else newsz
      ensures Since(o, t, loose) && t.dir == s.dir && t.tabs == s.tabs
      ensures Dropped(s.pgs, Up(newsz), Up(oldsz), t.pgs)
      ensures forall d :: Protected(s, d) ==> Protected(t, d)
    {
      hide Holds, Roles, LinkAt, Protected;
      t := s;
      if newsz >= oldsz {
        return oldsz, t;
      }
      var a := Up(newsz);
      ghost var lo, hi := a, Up(oldsz);
      while a * PGSIZE < oldsz
        invariant Since(o, t, loose) && t.dir == dir && t.tabs == s.tabs && lo <= a
        invariant Dropped(s.pgs, lo, if a < hi then a else hi, t.pgs)
        decreases oldsz - a * PGSIZE
      {
        assert a < hi;
        a, t := DropNext(dir, a, t, o, loose);
      }
      StillProtected(s, t);
      r := newsz;
    }

    // ---- freevm ----

    /** The tables at directory entries below i. */
    ghost function Tables(s: Space, i: nat): set<nat> {
      set j | j in s.tabs && j < i :: s.tabs[j]
    }

    /** The second loop of freevm: the tables go, entry by entry, while the directory is still there. */
    method FreeTables(dir: nat, ghost s: Space)
      requires Owns(s) && dir == s.dir
      modifies this
      ensures Kmem() && Free() == old(Free()) + Tables(s, NPT) && mem.Keys == old(mem.Keys) && dir !in Free()
      ensures forall f :: f in mem && f !in Free() ==> mem[f] == old(mem)[f]
    {
      var i := 0;
      ghost var was, free0 := mem, Free();
      while i < NPT
        invariant i <= NPT && Kmem() && mem.Keys == was.Keys && dir !in Free()
        invariant Free() == free0 + Tables(s, i)
        invariant forall f :: f in mem && f !in Free() ==> mem[f] == was[f]
      {
        assert PdeAt(was, s, i);
        var pde := mem[dir].ptes[i];
        if pde.Map? {
          assert pde.frame == s.tabs[i];
          assert pde.frame !in Tables(s, i) && Tables(s, i + 1) == Tables(s, i) + {pde.frame};
          Kfree(pde.frame);
        } else {
          assert Tables(s, i + 1) == Tables(s, i);
        }
        i := i + 1;
      }
    }

    /** freevm: every page of the space becomes free. */
    method Freevm(dir: nat, ghost s: Space, ghost o: Origin, ghost loose: set<nat>)
      requires Since(o, s, loose) && dir == s.dir
      modifies this
      ensures Kmem() && Free() + loose == o.own + o.free && Free() !! loose && mem.Keys == o.mem.Keys
      ensures forall f :: f in mem && f !in o.free && f !in o.inner && f !in Free() ==> mem[f] == o.mem[f]
    {
      hide Holds, PageOk, RoleOk, LinkAt, Protected, Roles, Dropped;
      var r;
      ghost var t;
      r, t := Deallocuvm(dir, KERNBASE, 0, s, o, loose);
      AllDropped(s, t);
      Bare(t);
      FreeTables(dir, t);
      Kfree(dir);
    }

    lemma AllDropped(s: Space, t: Space)
      requires Dropped(s.pgs, Up(0), Up(KERNBASE), t.pgs)
      ensures forall w: nat :: w < USER ==> At(t.pgs, w) == Absent
    {
    }

    /** A space without user pages consists of its directory and its tables. */
    lemma Bare(s: Space)
      requires Roles(s) && forall w: nat :: w < USER ==> At(s.pgs, w) == Absent
      ensures s.role.Keys == Tables(s, NPT) + {s.dir} && s.dir !in Tables(s, NPT)
    {
      forall f | f in s.role
        ensures f in Tables(s, NPT) + {s.dir}
      {
        assert RoleOk(s, f);
        if s.role[f].Leaf? {
          assert At(s.pgs, s.role[f].v) == Absent;
        }
      }
    }

    // ---- setupkvm ----

    /** The first entries of kmap, which is sorted by address, have been mapped: what is below `end`. */
    ghost predicate KernelBelow(s: Space, d: nat, end: nat) {
      forall v: nat :: At(s.pgs, v) == if v < end then KernelPte(d, v) else Absent
    }

    /** The next entry of kmap lies above what has been mapped. */
    lemma NextEntry(s: Space, d: nat, end: nat)
      requires Roles(s) && KernelBelow(s, d, end)
      ensures forall w :: w in s.pgs ==> w < end
    {
      forall w | w in s.pgs
        ensures w < end
      {
        assert PageOk(s, w) && At(s.pgs, w) == s.pgs[w];
      }
    }

    /** Mapping entry k of kmap. */
    lemma EntryMapped(s: Space, d: nat, k: nat, t: Space)
      requires DataPage(d) && k < 4 && KernelBelow(s, d, Kmap(d)[k].virt)
      requires var e := Kmap(d)[k]; Ranged(s.pgs, e.virt, e.physEnd - e.physStart, e.physStart, e.perm, t.pgs)
      ensures KernelBelow(t, d, if k < 3 then Kmap(d)[k + 1].virt else TOP)
    {
    }

    /** The loop of setupkvm over kmap. */
    method MapKernel(dir: nat, d: nat, ghost s: Space, ghost o: Origin) returns (ok: bool, ghost t: Space)
      requires Since(o, s, {}) && Free() <= o.free && dir == s.dir && DataPage(d) && s.pgs == map[]
      modifies this
      ensures Since(o, t, {}) && Free() <= o.free && t.dir == dir
      ensures ok ==> KernelBelow(t, d, TOP)
    {
      hide Holds, Roles, LinkAt, Accounted;
      var kmap := Kmap(d);
      var k := 0;
      t := s;
      ghost var done;
      while k < 4
        invariant k <= 4 && Since(o, t, {}) && Free() <= o.free && t.dir == dir
        invariant KernelBelow(t, d, if k < 4 then kmap[k].virt else TOP)
      {
        var e := kmap[k];
        ghost var u := t;
        NextEntry(u, d, e.virt);
        ok, t, done := Mappages(dir, e.virt, e.physEnd - e.physStart, e.physStart, e.perm, u, o);
        if !ok {
          return;
        }
        EntryMapped(u, d, k, t);
        k := k + 1;
      }
      ok := true;
    }

    /** setupkvm: a space with the kernel half alone, or 0 and not a page taken. */
    method Setupkvm(d: nat) returns (dir: nat, ghost s: Space)
      requires Kmem() && DataPage(d)
      modifies this
      ensures Kmem() && Free() <= old(Free()) && mem.Keys == old(mem.Keys)
      ensures dir == 0 ==> Free() == old(Free())
      ensures dir == 0 ==> forall f :: f in mem && f !in Free() ==> mem[f] == old(mem)[f]
      ensures dir != 0 ==> Since(Origin(old(mem), old(Free()), {}, {}), s, {}) && s.dir == dir
      ensures dir != 0 ==> KernelBelow(s, d, TOP) && Protected(s, d)
    {
      ghost var o := Origin(mem, Free(), {}, {});
      s := Space(0, map[], map[], map[]);
      dir := Kalloc();
      if dir == 0 {
        return;
      }
      ghost var was := mem;
      mem := mem[dir := Table(ZeroTable(NPT))];
      KmemSame(was);
      s := Space(dir, map[], map[], map[dir := Dir]);
      assert Since(o, s, {});
      var ok;
      ok, s := MapKernel(dir, d, s, o);
      if !ok {
        Freevm(dir, s, o, {});
        dir := 0;
      } else {
        KernelProtected(s, d);
      }
    }

    // ---- allocuvm ----

    /** A page is taken and filled. */
    method TakePage(content: Page, ghost s: Space, ghost o: Origin) returns (page: nat)
      requires Since(o, s, {}) && Free() <= o.free
      modifies this
      ensures Since(o, s, if page == 0 then {} else {page}) && Free() <= o.free
      ensures page != 0 ==> page in mem && mem[page] == content
    {
      page := Kalloc();
      if page != 0 {
        ghost var was := mem;
        mem := mem[page := content];
        KmemSame(was);
        HoldsSame(was, mem, s);
      }
    }

    /**
     A page is taken, filled and mapped at a, as in the loops of allocuvm and copyuvm.  When there is no page
     for a table, the page is left in the caller's hands.
     */
    method AddPage(dir: nat, a: nat, content: Page, perm: nat, ghost s: Space, ghost o: Origin)
      returns (page: nat, ok: bool, ghost t: Space)
      requires Since(o, s, {}) && Free() <= o.free && dir == s.dir && a < USER && At(s.pgs, a) == Absent
      modifies this
      ensures Since(o, t, if ok || page == 0 then {} else {page}) && Free() <= o.free && Keeps(s, t)
      ensures Same(old(mem), s.role.Keys - InnerPages(s)) && (page == 0 ==> !ok)
      ensures ok ==> Ranged(s.pgs, a, 1, page, perm, t.pgs) && page in mem && mem[page] == content
      ensures !ok ==> Ranged(s.pgs, a, 0, page, perm, t.pgs)
    {
      hide Holds, RoleOk, LinkAt, Accounted;
      ghost var m1, f1 := mem, Free();
      ghost var o1 := OriginOf(m1, f1, s);
      AccountedStart(m1, f1, s);
      ok, t := false, s;
      page := TakePage(content, s, o1);
      if page != 0 {
        assert a in s.pgs ==> PageOk(s, a);
        ghost var done;
        ok, t, done := Mappages(dir, a, 1, page, perm, s, o1);
      }
      ghost var loose := if ok || page == 0 then {} else {page};
      AccountedTrans(o, m1, f1, s, mem, Free(), t, loose);
      AccountedLeaves(m1, f1, s, mem, Free(), t, loose);
    }

    /** One turn of allocuvm's loop, short of what it does when memory runs out. */
    method GrowPage(dir: nat, ghost lo: nat, a: nat, ghost s: Space, ghost u: Space, ghost o: Origin)
      returns (page: nat, ok: bool, ghost t: Space)
      requires Since(o, u, {}) && Free() <= o.free && dir == u.dir && lo <= a < USER && At(s.pgs, a) == Absent
      requires Extended(mem, s, lo, a, u)
      modifies this
      ensures Since(o, t, if ok || page == 0 then {} else {page}) && Free() <= o.free && Keeps(u, t)
      ensures Extended(mem, s, lo, if ok then a + 1 else a, t) && (ok ==> page != 0)
    {
      ghost var was := mem;
      page, ok, t := AddPage(dir, a, Bytes(ZeroPage(PGSIZE)), WU, u, o);
      ExtendedNext(was, s, lo, a, u, mem, t, page, ok);
    }

    /** What allocuvm does when it runs out of memory: every page it has mapped goes again. */
    method Undo(dir: nat, ghost lo: nat, ghost a: nat, newsz: nat, oldsz: nat, ghost s: Space, ghost u: Space,
                ghost o: Origin, ghost loose: set<nat>)
      returns (ghost t: Space)
      requires Since(o, u, loose) && dir == u.dir && oldsz <= newsz < KERNBASE && lo == Up(oldsz) <= a <= Up(newsz)
      requires Extended(mem, s, lo, a, u) && Keeps(s, u)
      requires forall w: nat :: lo <= w < Up(newsz) ==> At(s.pgs, w) == Absent
      modifies this
      ensures Since(o, t, loose) && Keeps(s, t) && forall w: nat :: At(t.pgs, w) == At(s.pgs, w)
    {
      var r;
      r, t := Deallocuvm(dir, newsz, oldsz, u, o, loose);
    }

    /** A page in the operation's hands goes back. */
    method PutBack(page: nat, ghost s: Space, ghost o: Origin)
      requires Since(o, s, {page})
      modifies this
      ensures Since(o, s, {})
    {
      ghost var was := mem;
      Kfree(page);
      HoldsSame(was, mem, s);
    }

    /** The body of allocuvm's loop. */
    method GrowOrUndo(dir: nat, ghost lo: nat, a: nat, newsz: nat, oldsz: nat, ghost s: Space, ghost u: Space,
                      ghost o: Origin)
      returns (ok: bool, ghost t: Space)
      requires Since(o, u, {}) && Free() <= o.free && dir == u.dir && Keeps(s, u)
      requires oldsz <= newsz < KERNBASE && lo == Up(oldsz) <= a < Up(newsz)
      requires Extended(mem, s, lo, a, u)
      requires forall w: nat :: lo <= w < Up(newsz) ==> At(s.pgs, w) == Absent
      modifies this
      ensures Since(o, t, {}) && Keeps(s, t)
      ensures ok ==> Extended(mem, s, lo, a + 1, t) && Free() <= o.free
      ensures !ok ==> forall w: nat :: At(t.pgs, w) == At(s.pgs, w)
    {
      var page;
      page, ok, t := GrowPage(dir, lo, a, s, u, o);
      if page == 0 {
        t := Undo(dir, lo, a, newsz, oldsz, s, t, o, {});
      } else if !ok {
        t := Undo(dir, lo, a, newsz, oldsz, s, t, o, {page});
        PutBack(page, t, o);
      }
    }

    /**
     allocuvm: on success the pages between the two sizes are there, full of zeros; when memory runs out, the
     mappings are as before, and the space has grown by page tables at most.
     */
    method Allocuvm(dir: nat, oldsz: nat, newsz: nat, ghost s: Space)
      returns (r: nat, failed: bool, ghost t: Space)
      requires Owns(s) && dir == s.dir
      requires newsz < KERNBASE ==> forall w: nat :: Up(oldsz) <= w < Up(newsz) ==> At(s.pgs, w) == Absent
      modifies this
      ensures Since(OriginOf(old(mem), old(Free()), s), t, {}) && Keeps(s, t)
      ensures r == if newsz >= KERNBASE || failed then 0 else if newsz < oldsz then oldsz else newsz
      ensures newsz >= KERNBASE || newsz < oldsz ==> t == s && mem == old(mem) && Free() == old(Free())
      ensures newsz < KERNBASE && !failed ==> Extended(mem, s, Up(oldsz), Up(newsz), t)
      ensures failed ==> (forall w: nat :: At(t.pgs, w) == At(s.pgs, w)) && MoreTables(s, t)
      ensures forall d :: Protected(s, d) ==> Protected(t, d)
    {
      hide Protected;
      ghost var o := OriginOf(mem, Free(), s);
      AccountedStart(mem, Free(), s);
      t, failed := s, false;
      if newsz >= KERNBASE {
        return 0, false, t;
      }
      if newsz < oldsz {
        return oldsz, false, t;
      }
      var a := Up(oldsz);
      ghost var lo, hi := a, Up(newsz);
      while a * PGSIZE < newsz
        invariant Since(o, t, {}) && Free() <= o.free && Keeps(s, t) && lo <= a <= hi
        invariant Extended(mem, s, lo, a, t)
      {
        var ok;
        ok, t := GrowOrUndo(dir, lo, a, newsz, oldsz, s, t, o);
        if !ok {
          SameMappings(s, t);
          StillProtected(s, t);
          return 0, true, t;
        }
        a := a + 1;
      }
      GrowsProtected(mem, s, lo, hi, t);
      r := newsz;
    }

    // ---- copyuvm ----

    /** Whatever happens to a new space, a space that was there before stays as it is. */
    lemma OtherSpace(o: Origin, t: Space, loose: set<nat>, p: Space)
      requires Since(o, t, loose) && Free() <= o.free && o.inner == {}
      requires Roles(p) && Holds(o.mem, p) && p.role.Keys !! o.free && p.role.Keys <= o.mem.Keys
      ensures Owns(p) && SamePages(o.mem, mem, p.role.Keys)
    {
      HoldsSame(o.mem, mem, p);
    }

    /** One turn of copyuvm's loop, short of what it does when memory runs out. */
    method CopyPage(dir: nat, ghost d: nat, a: nat, src: nat, perm: nat, ghost p: Space, ghost u: Space,
                    ghost o: Origin)
      returns (ok: bool, ghost t: Space)
      requires Since(o, u, {}) && Free() <= o.free && dir == u.dir && o.inner == {} && a < USER
      requires Roles(p) && Holds(o.mem, p) && p.role.Keys !! o.free && p.role.Keys <= o.mem.Keys
      requires CopiedTo(mem, p, a, d, u) && At(p.pgs, a) == Map(src, perm) && src in mem
      modifies this
      ensures Since(o, t, {}) && Free() <= o.free && Keeps(u, t)
      ensures ok ==> CopiedTo(mem, p, a + 1, d, t)
    {
      ghost var was := mem;
      OtherSpace(o, u, {}, p);
      var page;
      page, ok, t := AddPage(dir, a, mem[src], perm, u, o);
      OtherSpace(o, t, if ok || page == 0 then {} else {page}, p);
      if ok {
        CopiedNext(was, p, a, d, u, mem, t, page, Map(src, perm));
      } else if page != 0 {
        PutBack(page, t, o);
      }
    }

    /** The lookup of copyuvm in the parent: the panics are for pages that are missing. */
    method Source(pgdir: nat, a: nat, ghost p: Space) returns (src: nat, perm: nat)
      requires Owns(p) && pgdir == p.dir && a < USER && At(p.pgs, a).Map?
      ensures At(p.pgs, a) == Map(src, perm) && src in mem
    {
      assert PageOk(p, a) && PteAt(mem, p, a);
      var pgtab := Walk(pgdir, a, p);
      var pte := mem[pgtab].ptes[Ptx(a)];
      src, perm := pte.frame, pte.perm;
    }

    /**
     copyuvm of a parent that maps all its pages: a child with copies of them in pages of its own, or, when
     memory runs out anywhere, 0 and exactly the free pages there were before.
     */
    method Copyuvm(pgdir: nat, sz: nat, d: nat, ghost p: Space) returns (r: nat, ghost t: Space)
      requires Owns(p) && pgdir == p.dir && sz <= KERNBASE && DataPage(d)
      requires forall w: nat :: w < Up(sz) ==> At(p.pgs, w).Map?
      modifies this
      ensures Owns(p) && SamePages(old(mem), mem, p.role.Keys)
      ensures r == 0 ==> Free() == old(Free())
      ensures r != 0 ==> Since(Origin(old(mem), old(Free()), {}, {}), t, {}) && t.dir == r
      ensures r != 0 ==> CopiedTo(mem, p, Up(sz), d, t) && (Protected(p, d) ==> Protected(t, d))
    {
      hide Protected, Holds, Roles, KernelPte, KernelBelow, CopiedTo, Accounted, LinkAt;
      ghost var o := Origin(mem, Free(), {}, {});
      r, t := Setupkvm(d);
      if r == 0 {
        SameOwner(o, p);
        return;
      }
      NoneCopied(mem, p, d, t);
      var a := 0;
      while a * PGSIZE < sz
        invariant Since(o, t, {}) && Free() <= o.free && t.dir == r && a <= Up(sz)
        invariant CopiedTo(mem, p, a, d, t)
      {
        OtherSpace(o, t, {}, p);
        var src, perm := Source(pgdir, a, p);
        var ok;
        ok, t := CopyPage(r, d, a, src, perm, p, t, o);
        if !ok {
          Freevm(r, t, o, {});
          SameOwner(o, p);
          return 0, t;
        }
        a := a + 1;
      }
      OtherSpace(o, t, {}, p);
      if Protected(p, d) {
        CopiedProtected(mem, p, Up(sz), d, t);
      }
    }

    lemma NoneCopied(mem: Memory, p: Space, d: nat, t: Space)
      requires Roles(t) && DataPage(d) && KernelBelow(t, d, TOP)
      ensures CopiedTo(mem, p, 0, d, t)
    {
    }

    /** The same for a new space that is gone again. */
    lemma SameOwner(o: Origin, p: Space)
      requires Kmem() && Free() == o.free && mem.Keys == o.mem.Keys
      requires forall f :: f in mem && f !in Free() ==> mem[f] == o.mem[f]
      requires Roles(p) && Holds(o.mem, p) && p.role.Keys !! o.free && p.role.Keys <= o.mem.Keys
      ensures Owns(p) && SamePages(o.mem, mem, p.role.Keys)
    {
      HoldsSame(o.mem, mem, p);
    }
  }

  function Taken(v: nat, frame: nat): set<nat> {
    if v < USER then {frame} else {}
  }
}
