/**
 Two-level page tables as values: what the page directory and the page tables of vm.c hold, which physical
 page plays which part in one address space, and the two kinds of entry updates.
 Virtual and physical addresses count pages.
 */
module VmModel {
  // entries in a page directory, and in a page table
  const NPT: nat := 1024
  // the address space, and the user part of it
  const TOP: nat := 0x100000
  const USER: nat := 0x80000
  // PTE_W | PTE_U
  const WU: nat := 6

  datatype Pte = Absent | Map(frame: nat, perm: nat)

  /** A page of physical memory: on the free list, a directory or table, or bytes. */
  datatype Page = Run(next: nat) | Table(ptes: seq<Pte>) | Bytes(data: seq<bv8>)

  type Memory = map<nat, Page>

  datatype Role = Dir | Tab(i: nat) | Leaf(v: nat)

  /**
   One address space: its directory, its page tables, everything they map, and the pages of physical memory
   that belong to it.  The kernel half maps pages that belong to nobody.
   */
  datatype Space = Space(dir: nat, tabs: map<nat, nat>, pgs: map<nat, Pte>, role: map<nat, Role>)

  function Pdx(v: nat): nat {
    v / NPT
  }

  function Ptx(v: nat): (j: nat)
    ensures j < NPT
  {
    v % NPT
  }

  /** The table is chosen by the high part of the page number, and the entry in it by the low part. */
  lemma Indices(v: nat)
    ensures v == Pdx(v) * NPT + Ptx(v) && (v < TOP <==> Pdx(v) < NPT)
  {
  }

  lemma Vpn(v: nat, w: nat)
    requires Pdx(v) == Pdx(w) && Ptx(v) == Ptx(w)
    ensures v == w
  {
  }

  function ZeroTable(n: nat): (t: seq<Pte>)
    ensures |t| == n && forall i :: 0 <= i < n ==> t[i] == Absent
  {
    if n == 0 then [] else ZeroTable(n - 1) + [Absent]
  }

  function ZeroPage(n: nat): (b: seq<bv8>)
    ensures |b| == n && forall i :: 0 <= i < n ==> b[i] == 0
  {
    if n == 0 then [] else ZeroPage(n - 1) + [0]
  }

  predicate IsTable(mem: Memory, f: nat) {
    f in mem && mem[f].Table? && |mem[f].ptes| == NPT
  }

  ghost predicate RoleOk(s: Space, f: nat)
    requires f in s.role
  {
    match s.role[f]
    case Dir => f == s.dir
    case Tab(i) => i in s.tabs && s.tabs[i] == f
    case Leaf(v) => v < USER && v in s.pgs && s.pgs[v].Map? && s.pgs[v].frame == f
  }

  ghost predicate PageOk(s: Space, v: nat)
    requires v in s.pgs
  {
    && v < TOP && Pdx(v) in s.tabs && s.pgs[v].Map?
    && (v < USER ==> s.pgs[v].frame in s.role && s.role[s.pgs[v].frame] == Leaf(v))
  }

  /** Every page of the space has exactly one part in it: no page is shared, and none is lost. */
  ghost predicate Roles(s: Space) {
    && s.dir in s.role && s.role[s.dir] == Dir
    && (forall i :: i in s.tabs ==> i < NPT && s.tabs[i] in s.role && s.role[s.tabs[i]] == Tab(i))
    && (forall v :: v in s.pgs ==> PageOk(s, v))
    && forall f :: f in s.role ==> RoleOk(s, f)
  }

  function PdeOf(s: Space, i: nat): Pte {
    if i in s.tabs then Map(s.tabs[i], WU) else Absent
  }

  function PteOf(s: Space, v: nat): Pte {
    At(s.pgs, v)
  }

  ghost predicate PdeAt(mem: Memory, s: Space, i: nat)
    requires IsTable(mem, s.dir) && i < NPT
  {
    mem[s.dir].ptes[i] == PdeOf(s, i)
  }

  ghost predicate PteAt(mem: Memory, s: Space, v: nat) {
    Pdx(v) in s.tabs ==> IsTable(mem, s.tabs[Pdx(v)]) && mem[s.tabs[Pdx(v)]].ptes[Ptx(v)] == PteOf(s, v)
  }

  /** The directory and the tables in memory hold exactly the mappings of the space. */
  ghost predicate Holds(mem: Memory, s: Space) {
    && IsTable(mem, s.dir)
    && (forall i: nat :: i < NPT ==> PdeAt(mem, s, i))
    && (forall i :: i in s.tabs ==> IsTable(mem, s.tabs[i]))
    && forall v: nat :: v < TOP ==> PteAt(mem, s, v)
  }

  /** f is the directory or a table. */
  predicate Inner(s: Space, f: nat) {
    f in s.role && !s.role[f].Leaf?
  }

  lemma HoldsSame(mem: Memory, mem': Memory, s: Space)
    requires Roles(s) && Holds(mem, s)
    requires forall f :: Inner(s, f) && f in mem ==> f in mem' && mem'[f] == mem[f]
    ensures Holds(mem', s)
  {
    assert Inner(s, s.dir);
    forall i: nat | i < NPT
      ensures PdeAt(mem', s, i)
    {
      assert PdeAt(mem, s, i);
    }
    forall i | i in s.tabs
      ensures IsTable(mem', s.tabs[i])
    {
      assert Inner(s, s.tabs[i]);
    }
    forall v: nat | v < TOP
      ensures PteAt(mem', s, v)
    {
      assert PteAt(mem, s, v);
    }
  }

  /** walkpgdir adds a table at directory entry i. */
  function WithTable(s: Space, i: nat, f: nat): Space {
    s.(tabs := s.tabs[i := f], role := s.role[f := Tab(i)])
  }

  lemma WithTableRoles(s: Space, i: nat, f: nat)
    requires Roles(s) && i < NPT && i !in s.tabs && f !in s.role
    ensures Roles(WithTable(s, i, f))
  {
    var t := WithTable(s, i, f);
    forall v | v in t.pgs
      ensures PageOk(t, v)
    {
      assert PageOk(s, v);
    }
    forall g | g in t.role
      ensures RoleOk(t, g)
    {
      assert g != f ==> RoleOk(s, g);
    }
  }

  lemma WithTableHolds(mem: Memory, s: Space, i: nat, f: nat)
    requires Roles(s) && Holds(mem, s) && i < NPT && i !in s.tabs && f !in s.role
    ensures Holds(mem[f := Table(ZeroTable(NPT))][s.dir := Table(mem[s.dir].ptes[i := Map(f, WU)])], WithTable(s, i, f))
  {
    var t := WithTable(s, i, f);
    var mem' := mem[f := Table(ZeroTable(NPT))][s.dir := Table(mem[s.dir].ptes[i := Map(f, WU)])];
    forall j: nat | j < NPT
      ensures PdeAt(mem', t, j)
    {
      assert PdeAt(mem, s, j);
    }
    forall v: nat | v < TOP
      ensures PteAt(mem', t, v)
    {
      assert PteAt(mem, s, v);
      if Pdx(v) == i {
        assert v in s.pgs ==> PageOk(s, v);
      }
    }
  }

  /** An entry of a table that exists is set: v maps to e, which for a user page is a page of nobody's. */
  function WithPage(s: Space, v: nat, e: Pte): Space
    requires e.Map?
  {
    s.(pgs := s.pgs[v := e], role := if v < USER then s.role[e.frame := Leaf(v)] else s.role)
  }

  function WithoutPage(s: Space, v: nat): Space
    requires v in s.pgs && s.pgs[v].Map?
  {
    s.(pgs := s.pgs - {v}, role := s.role - {s.pgs[v].frame})
  }

  lemma WithPageRoles(s: Space, v: nat, e: Pte)
    requires Roles(s) && v < TOP && v !in s.pgs && Pdx(v) in s.tabs && e.Map? && (v < USER ==> e.frame !in s.role)
    ensures Roles(WithPage(s, v, e))
  {
    var t := WithPage(s, v, e);
    forall w | w in t.pgs
      ensures PageOk(t, w)
    {
      assert w != v ==> PageOk(s, w);
    }
    forall g | g in t.role
      ensures RoleOk(t, g)
    {
      assert g in s.role && (v < USER ==> g != e.frame) ==> RoleOk(s, g);
    }
  }

  lemma WithoutPageRoles(s: Space, v: nat)
    requires Roles(s) && v < USER && v in s.pgs && s.pgs[v].Map?
    ensures Roles(WithoutPage(s, v))
  {
    assert PageOk(s, v);
    var t := WithoutPage(s, v);
    forall w | w in t.pgs
      ensures PageOk(t, w)
    {
      assert PageOk(s, w);
    }
    forall g | g in t.role
      ensures RoleOk(t, g)
    {
      assert RoleOk(s, g);
    }
  }

  /** Writing the entry of page v changes what the tables hold for v and for no other page. */
  lemma PutHolds(mem: Memory, s: Space, v: nat, e: Pte, t: Space)
    requires Roles(s) && Holds(mem, s) && v < TOP && Pdx(v) in s.tabs && IsTable(mem, s.tabs[Pdx(v)])
    requires t.dir == s.dir && t.tabs == s.tabs && PteOf(t, v) == e
    requires forall w: nat :: w < TOP && w != v ==> PteOf(t, w) == PteOf(s, w)
    ensures Holds(mem[s.tabs[Pdx(v)] := Table(mem[s.tabs[Pdx(v)]].ptes[Ptx(v) := e])], t)
  {
    var f := s.tabs[Pdx(v)];
    var mem' := mem[f := Table(mem[f].ptes[Ptx(v) := e])];
    assert f != s.dir;
    forall j: nat | j < NPT
      ensures PdeAt(mem', t, j)
    {
      assert PdeAt(mem, s, j);
    }
    forall w: nat | w < TOP
      ensures PteAt(mem', t, w)
    {
      assert PteAt(mem, s, w);
      if w != v && Pdx(w) in s.tabs && s.tabs[Pdx(w)] == f {
        if Ptx(w) == Ptx(v) {
          Vpn(v, w);
        }
      }
    }
  }

  // ---- what an operation changes ----

  /** The directory and the tables of s are still in place. */
  ghost predicate Keeps(s: Space, t: Space) {
    t.dir == s.dir && forall i :: i in s.tabs ==> i in t.tabs && t.tabs[i] == s.tabs[i]
  }

  /**
   The state an operation started from: memory, the free pages, the pages of the space it works on, and which
   of these were its directory and tables.
   */
  datatype Origin = Origin(mem: Memory, free: set<nat>, own: set<nat>, inner: set<nat>)

  /**
   What may have happened since: pages neither vanish nor appear (`loose` ones are in the operation's own
   hands), and only pages that were or are free, and the directory and tables, have been written.
   */
  ghost predicate Accounted(o: Origin, mem: Memory, free: set<nat>, t: Space, loose: set<nat>) {
    && t.role.Keys + free + loose == o.own + o.free
    && loose <= o.free && loose !! free && loose !! t.role.Keys && o.own !! o.free
    && mem.Keys == o.mem.Keys
    && (forall f :: f in o.mem && f !in o.free && f !in o.inner && f !in free ==> mem[f] == o.mem[f])
    && forall f :: Inner(t, f) ==> f in o.inner || f in o.free
  }

  lemma AccountedTable(o: Origin, mem: Memory, free: set<nat>, s: Space, loose: set<nat>, i: nat, f: nat,
                       mem': Memory)
    requires Accounted(o, mem, free, s, loose) && Roles(s) && s.role.Keys !! free && free <= o.free && f in free
    requires mem'.Keys == mem.Keys && forall g :: g in mem && g != f && g != s.dir ==> mem'[g] == mem[g]
    ensures Accounted(o, mem', free - {f}, WithTable(s, i, f), loose)
  {
    assert Inner(s, s.dir);
    var t := WithTable(s, i, f);
    forall g | Inner(t, g)
      ensures g in o.inner || g in o.free
    {
      assert g != f ==> Inner(s, g);
    }
  }

  lemma AccountedPage(o: Origin, mem: Memory, free: set<nat>, s: Space, v: nat, e: Pte, pgtab: nat, mem': Memory)
    requires e.Map? && Accounted(o, mem, free, s, if v < USER then {e.frame} else {}) && Inner(s, pgtab)
    requires mem'.Keys == mem.Keys && forall g :: g in mem && g != pgtab ==> mem'[g] == mem[g]
    ensures Accounted(o, mem', free, WithPage(s, v, e), {})
  {
    var t := WithPage(s, v, e);
    forall g | Inner(t, g)
      ensures g in o.inner || g in o.free
    {
      assert Inner(s, g);
    }
  }

  /** The pages of s are still pages of t, and what t has besides are page tables. */
  ghost predicate MoreTables(s: Space, t: Space) {
    && (forall f :: f in s.role ==> f in t.role && t.role[f] == s.role[f])
    && forall f :: f in t.role && f !in s.role ==> t.role[f].Tab?
  }

  /** A space that keeps its tables and its mappings has grown by page tables at most. */
  lemma SameMappings(s: Space, t: Space)
    requires Roles(s) && Roles(t) && Keeps(s, t) && forall w: nat :: At(t.pgs, w) == At(s.pgs, w)
    ensures MoreTables(s, t)
  {
    forall f | f in s.role
      ensures f in t.role && t.role[f] == s.role[f]
    {
      assert RoleOk(s, f);
      if s.role[f].Leaf? {
        var v := s.role[f].v;
        assert At(t.pgs, v) == At(s.pgs, v);
        assert PageOk(t, v);
      }
    }
    forall f | f in t.role && f !in s.role
      ensures t.role[f].Tab?
    {
      assert RoleOk(t, f);
      assert t.role[f].Leaf? ==> At(t.pgs, t.role[f].v) == At(s.pgs, t.role[f].v);
    }
  }

  function At(pgs: map<nat, Pte>, w: nat): Pte {
    if w in pgs then pgs[w] else Absent
  }

  /** r is pgs with page v + k mapped to the physical page frame + k, for all k < n. */
  ghost predicate Ranged(pgs: map<nat, Pte>, v: nat, n: nat, frame: nat, perm: nat, r: map<nat, Pte>) {
    forall w: nat :: At(r, w) == if v <= w < v + n then Map(frame + (w - v), perm) else At(pgs, w)
  }

  lemma RangedNext(pgs: map<nat, Pte>, v: nat, n: nat, frame: nat, perm: nat, r: map<nat, Pte>, a: nat, pa: nat)
    requires Ranged(pgs, v, n, frame, perm, r) && a == v + n && pa == frame + n
    ensures Ranged(pgs, v, n + 1, frame, perm, r[a := Map(pa, perm)])
  {
    var q := r[a := Map(pa, perm)];
    forall w: nat
      ensures At(q, w) == if v <= w < v + n + 1 then Map(frame + (w - v), perm) else At(pgs, w)
    {
      assert w != a ==> At(q, w) == At(r, w);
    }
  }

  /** r is pgs without the pages from lo up to hi. */
  ghost predicate Dropped(pgs: map<nat, Pte>, lo: nat, hi: nat, r: map<nat, Pte>) {
    forall w: nat :: At(r, w) == if lo <= w < hi then Absent else At(pgs, w)
  }

  lemma AccountedFreed(o: Origin, mem: Memory, free: set<nat>, s: Space, loose: set<nat>, v: nat, pgtab: nat,
                       mem': Memory)
    requires Accounted(o, mem, free, s, loose) && Roles(s) && s.role.Keys !! free
    requires v in s.pgs && s.pgs[v].Map? && s.pgs[v].frame in s.role && Inner(s, pgtab)
    requires mem'.Keys == mem.Keys
    requires forall g :: g in mem && g != pgtab && g != s.pgs[v].frame ==> mem'[g] == mem[g]
    ensures Accounted(o, mem', free + {s.pgs[v].frame}, WithoutPage(s, v), loose)
  {
    var t := WithoutPage(s, v);
    forall g | Inner(t, g)
      ensures g in o.inner || g in o.free
    {
      assert Inner(s, g);
    }
  }

  ghost function InnerPages(s: Space): set<nat> {
    set f | f in s.role && !s.role[f].Leaf?
  }

  /** The state in which an operation on s starts. */
  ghost function OriginOf(mem: Memory, free: set<nat>, s: Space): Origin {
    Origin(mem, free, s.role.Keys, InnerPages(s))
  }

  lemma AccountedStart(mem: Memory, free: set<nat>, s: Space)
    requires s.role.Keys !! free
    ensures Accounted(OriginOf(mem, free, s), mem, free, s, {})
  {
  }

  /** While a space only grows, its leaves are not written. */
  lemma AccountedLeaves(m1: Memory, f1: set<nat>, s: Space, m2: Memory, f2: set<nat>, t: Space, loose: set<nat>)
    requires Accounted(OriginOf(m1, f1, s), m2, f2, t, loose) && f2 <= f1 && s.role.Keys !! f1
    ensures forall f :: f in s.role.Keys - InnerPages(s) && f in m1 ==> f in m2 && m2[f] == m1[f]
  {
  }

  /** While a space only grows, what has happened since one state and what happened before it add up. */
  lemma AccountedTrans(o: Origin, m1: Memory, f1: set<nat>, t1: Space,
                       m2: Memory, f2: set<nat>, t2: Space, loose: set<nat>)
    requires Accounted(o, m1, f1, t1, {}) && f1 <= o.free
    requires Accounted(OriginOf(m1, f1, t1), m2, f2, t2, loose)
    ensures Accounted(o, m2, f2, t2, loose)
  {
    forall f | Inner(t2, f)
      ensures f in o.inner || f in o.free
    {
      if f !in f1 {
        assert Inner(t1, f);
      }
    }
    forall f | f in o.mem && f !in o.free && f !in o.inner && f !in f2
      ensures m2[f] == o.mem[f]
    {
      assert !Inner(t1, f);
    }
  }
}
