/**
 The process table of proc.c: what each loop over ptable.proc makes of the table, as a function of the
 table, and the loops themselves.
 */
module ProcTable {
  const NPROC: nat := 64
  // userinit is the first to call allocproc
  const INIT: nat := 0

  datatype PState = UNUSED | EMBRYO | SLEEPING | RUNNABLE | RUNNING | ZOMBIE

  /** What a process sleeps on: in wait, on its own slot; elsewhere, on something else. */
  datatype Chan = NoChan | OfProc(i: nat) | Other(n: nat)

  /** struct proc, as far as the table's loops use it; parent is a slot, or -1. */
  datatype Proc = Proc(state: PState, pid: int, parent: int, chan: Chan, killed: bool, ticket: nat)

  type Table = seq<Proc>

  // ---- wakeup1 ----

  function Woken(p: Proc, chan: Chan): Proc {
    if p.state == SLEEPING && p.chan == chan then p.(state := RUNNABLE) else p
  }

  function Wakeup1(t: Table, chan: Chan): (r: Table)
    ensures |r| == |t| && forall i :: 0 <= i < |t| ==> r[i] == Woken(t[i], chan)
  {
    if t == [] then [] else Wakeup1(t[..|t| - 1], chan) + [Woken(t[|t| - 1], chan)]
  }

  /** Slot i runs on if it was asleep on chan, and has not changed otherwise. */
  predicate WokenAt(was: Table, now: Table, chan: Chan, i: nat)
    requires i < |was| == |now|
  {
    && now[i].state == (if was[i].state == SLEEPING && was[i].chan == chan then RUNNABLE else was[i].state)
    && SameBut(was[i], now[i]) && now[i].parent == was[i].parent
  }

  /** State and parent may differ. */
  predicate SameBut(p: Proc, q: Proc) {
    q.pid == p.pid && q.chan == p.chan && q.killed == p.killed && q.ticket == p.ticket
  }

  // ---- allocproc ----

  /** The first slot from k on that is UNUSED, or the length of the table. */
  function FirstUnused(t: Table, k: nat): (r: nat)
    requires k <= |t|
    ensures k <= r <= |t|
    ensures r < |t| ==> t[r].state == UNUSED
    ensures forall i :: k <= i < r ==> t[i].state != UNUSED
    decreases |t| - k
  {
    if k == |t| || t[k].state == UNUSED then k else FirstUnused(t, k + 1)
  }

  /** allocproc takes a slot: pid and state are new, the rest is what the last process left there. */
  function Embryo(p: Proc, pid: int): Proc {
    p.(state := EMBRYO, pid := pid, ticket := 10)
  }

  // ---- exit ----

  predicate ZombieChild(t: Table, p: nat, i: nat) {
    i < |t| && t[i].parent == p && t[i].state == ZOMBIE
  }

  /** Exit by p passes its children to init, and wakes init if there is a zombie among them. */
  function Passed(q: Proc, p: nat, wake: bool): Proc {
    var r := if q.parent == p then q.(parent := INIT) else q;
    if wake then Woken(r, OfProc(INIT)) else r
  }

  /** A child of p has become a child of init, and init has been woken if it waits and has got a zombie by that. */
  ghost predicate PassedOn(was: Table, now: Table, p: nat, i: nat)
    requires i < |was| == |now|
  {
    && now[i].parent == (if was[i].parent == p then INIT else was[i].parent)
    && now[i].state == (if WaitsAs(was, INIT, i) && HasZombieChild(was, p) then RUNNABLE else was[i].state)
    && SameBut(was[i], now[i])
  }

  /** Slot i is asleep in the wait of process p. */
  predicate WaitsAs(t: Table, p: int, i: nat)
    requires i < |t|
  {
    t[i].state == SLEEPING && p >= 0 && t[i].chan == OfProc(p)
  }

  /** What exit by p makes of slot i: it wakes p's parent if that waits, and it wakes init if that gets a zombie. */
  ghost predicate OrphanedAt(was: Table, now: Table, p: nat, i: nat)
    requires i < |was| == |now| && p < |was|
  {
    && now[i].parent == (if was[i].parent == p then INIT else was[i].parent)
    && now[i].state ==
         (if WaitsAs(was, was[p].parent, i) || (WaitsAs(was, INIT, i) && HasZombieChild(was, p)) then RUNNABLE
          else was[i].state)
    && SameBut(was[i], now[i])
  }

  function PassChildren(t: Table, p: nat, wake: bool): (r: Table)
    ensures |r| == |t| && forall i :: 0 <= i < |t| ==> r[i] == Passed(t[i], p, wake)
  {
    if t == [] then [] else PassChildren(t[..|t| - 1], p, wake) + [Passed(t[|t| - 1], p, wake)]
  }

  predicate HasZombieChild(t: Table, p: nat) {
    exists i: nat :: i < |t| && ZombieChild(t, p, i)
  }

  /** The table after exit by p, before p becomes a zombie itself. */
  function Orphaned(t: Table, p: nat): Table
    requires p < |t|
  {
    var w := if t[p].parent >= 0 then Wakeup1(t, OfProc(t[p].parent)) else t;
    PassChildren(w, p, HasZombieChild(w, p))
  }

  /** exit's loop has passed on the children of p among the first i slots of `was`, and woken init if one of them is
      a zombie. */
  ghost predicate PassedTo(was: Table, t: Table, p: nat, i: nat, wake: bool) {
    && |t| == |was| && i <= |t|
    && (wake ==> HasZombieChild(was, p))
    && (!wake ==> forall j: nat :: j < i ==> !ZombieChild(was, p, j))
    && forall j :: 0 <= j < |t| ==>
         t[j] == if j < i then Passed(was[j], p, wake) else if wake then Woken(was[j], OfProc(INIT)) else was[j]
  }

  lemma PassStart(was: Table, p: nat)
    ensures PassedTo(was, was, p, 0, false)
  {
  }

  lemma PassStep(was: Table, t: Table, p: nat, i: nat, wake: bool)
    requires PassedTo(was, t, p, i, wake) && i < |t|
    ensures var u := if t[i].parent == p then t[i := t[i].(parent := INIT)] else t;
      var zombie := t[i].parent == p && t[i].state == ZOMBIE;
      PassedTo(was, if zombie then Wakeup1(u, OfProc(INIT)) else u, p, i + 1, wake || zombie)
  {
    assert ZombieChild(was, p, i) <==> t[i].parent == p && t[i].state == ZOMBIE;
  }

  lemma PassEnd(was: Table, t: Table, p: nat, wake: bool)
    requires PassedTo(was, t, p, |t|, wake)
    ensures t == PassChildren(was, p, HasZombieChild(was, p))
  {
    assert wake == HasZombieChild(was, p);
  }

  lemma OrphanedAll(was: Table, p: nat)
    requires p < |was|
    ensures |Orphaned(was, p)| == |was| && forall i: nat :: i < |was| ==> OrphanedAt(was, Orphaned(was, p), p, i)
  {
    var w := if was[p].parent >= 0 then Wakeup1(was, OfProc(was[p].parent)) else was;
    assert HasZombieChild(w, p) <==> HasZombieChild(was, p) by {
      forall i: nat
        ensures ZombieChild(w, p, i) <==> ZombieChild(was, p, i)
      {
      }
    }
  }

  // ---- wait ----

  /** What wait's scan finds: a zombie child, only other children, or none. */
  datatype Scan = Reap(z: nat) | Kids | NoKids

  function WaitScan(t: Table, p: nat, k: nat, kids: bool): (r: Scan)
    requires k <= |t|
    ensures r.Reap? ==> k <= r.z < |t| && ZombieChild(t, p, r.z)
    ensures r.Reap? ==> forall i: nat :: k <= i < r.z ==> !ZombieChild(t, p, i)
    ensures !r.Reap? ==> forall i: nat :: k <= i < |t| ==> !ZombieChild(t, p, i)
    ensures r.NoKids? ==> !kids && forall i :: k <= i < |t| ==> t[i].parent != p
    ensures r.Kids? ==> kids || exists i :: k <= i < |t| && t[i].parent == p
    decreases |t| - k
  {
    if k == |t| then (if kids then Kids else NoKids)
    else if t[k].parent != p then WaitScan(t, p, k + 1, kids)
    else if t[k].state == ZOMBIE then Reap(k)
    else WaitScan(t, p, k + 1, true)
  }

  /** The first zombie child of p, in slot z, has been reaped: the slot is free, without pid, parent or mark, and no
      other slot has changed. */
  ghost predicate ReapedAt(was: Table, now: Table, p: nat, z: nat, pid: int) {
    && z < |was| == |now| && ZombieChild(was, p, z) && was[z].pid == pid
    && (forall i: nat :: i < z ==> !ZombieChild(was, p, i))
    && now[z].state == UNUSED && now[z].pid == 0 && now[z].parent == -1 && !now[z].killed
    && now[z].chan == was[z].chan && now[z].ticket == was[z].ticket
    && forall i: nat :: i < |was| && i != z ==> now[i] == was[i]
  }

  function Reaped(q: Proc): Proc {
    q.(pid := 0, parent := -1, killed := false, state := UNUSED)
  }

  // ---- kill ----

  function FirstPid(t: Table, pid: int, k: nat): (r: nat)
    requires k <= |t|
    ensures k <= r <= |t|
    ensures r < |t| ==> t[r].pid == pid
    ensures forall i :: k <= i < r ==> t[i].pid != pid
    decreases |t| - k
  {
    if k == |t| || t[k].pid == pid then k else FirstPid(t, pid, k + 1)
  }

  /** The first slot with the pid. */
  predicate IsFirst(t: Table, pid: int, k: nat) {
    k < |t| && t[k].pid == pid && forall i: nat :: i < k ==> t[i].pid != pid
  }

  /** Slot k is marked and does not sleep; a sleeper has become runnable, and nothing else about it has changed. */
  predicate MarkedAwake(was: Table, now: Table, k: nat)
    requires k < |was| == |now|
  {
    && now[k].killed && now[k].state != SLEEPING
    && now[k].state == (if was[k].state == SLEEPING then RUNNABLE else was[k].state)
    && now[k].pid == was[k].pid && now[k].parent == was[k].parent && now[k].chan == was[k].chan
    && now[k].ticket == was[k].ticket
  }

  function Killed(q: Proc): Proc {
    q.(killed := true, state := if q.state == SLEEPING then RUNNABLE else q.state)
  }

  // ---- the loops ----

  class Ptable {
    const proc: array<Proc>
    var nextpid: int

    /** The scan of allocproc, under ptable.lock. */
    method Allocproc() returns (k: nat)
      requires proc.Length == NPROC
      modifies this`nextpid, proc
      ensures k == FirstUnused(old(proc[..]), 0)
      ensures k == NPROC ==> proc[..] == old(proc[..]) && nextpid == old(nextpid)
      ensures k < NPROC ==>
        proc[..] == old(proc[..])[k := Embryo(old(proc[k]), old(nextpid))] && nextpid == old(nextpid) + 1
      ensures forall i: nat :: i < k ==> proc[i].state != UNUSED
      ensures k < NPROC ==>
        && old(proc[k].state) == UNUSED && proc[k].state == EMBRYO && proc[k].pid == old(nextpid)
        && proc[k].ticket == 10 && proc[k].parent == old(proc[k].parent) && proc[k].chan == old(proc[k].chan)
        && proc[k].killed == old(proc[k].killed)
      ensures forall i: nat :: i < NPROC && i != k ==> proc[i] == old(proc[i])
    {
      k := 0;
      while k < proc.Length && proc[k].state != UNUSED
        invariant k <= proc.Length && FirstUnused(proc[..], 0) == FirstUnused(proc[..], k)
      {
        k := k + 1;
      }
      if k < proc.Length {
        proc[k] := Embryo(proc[k], nextpid);
        nextpid := nextpid + 1;
      }
    }

    method WakeAll(chan: Chan)
      modifies proc
      ensures proc[..] == Wakeup1(old(proc[..]), chan)
      ensures forall i: nat :: i < proc.Length ==> WokenAt(old(proc[..]), proc[..], chan, i)
    {
      var i := 0;
      while i < proc.Length
        invariant i <= proc.Length
        invariant forall j :: 0 <= j < i ==> proc[j] == Woken(old(proc[j]), chan)
        invariant forall j :: i <= j < proc.Length ==> proc[j] == old(proc[j])
      {
        if proc[i].state == SLEEPING && proc[i].chan == chan {
          proc[i] := proc[i].(state := RUNNABLE);
        }
        i := i + 1;
      }
    }

    /** The scan of kill: the first slot with the pid is marked, and woken if it sleeps. */
    method Kill(pid: int) returns (r: int)
      modifies proc
      ensures r == if exists i: nat :: i < proc.Length && old(proc[i].pid) == pid then 0 else -1
      ensures forall i: nat :: i < proc.Length && IsFirst(old(proc[..]), pid, i) ==>
        MarkedAwake(old(proc[..]), proc[..], i)
      ensures forall i: nat :: i < proc.Length && !IsFirst(old(proc[..]), pid, i) ==> proc[i] == old(proc[i])
      ensures var k := FirstPid(old(proc[..]), pid, 0);
        r == (if k < proc.Length then 0 else -1) &&
        proc[..] == if k < proc.Length then old(proc[..])[k := Killed(old(proc[k]))] else old(proc[..])
    {
      var k := 0;
      while k < proc.Length
        invariant k <= proc.Length && FirstPid(proc[..], pid, 0) == FirstPid(proc[..], pid, k)
        invariant proc[..] == old(proc[..])
      {
        if proc[k].pid == pid {
          proc[k] := proc[k].(killed := true);
          if proc[k].state == SLEEPING {
            proc[k] := proc[k].(state := RUNNABLE);
          }
          return 0;
        }
        k := k + 1;
      }
      r := -1;
    }

    /** One scan of wait: a zombie child is reaped on the spot. */
    method Scan(p: nat) returns (found: bool, kids: bool, pid: int)
      modifies proc
      ensures var s := WaitScan(old(proc[..]), p, 0, false);
        && found == s.Reap? && (!found ==> kids == s.Kids? && proc[..] == old(proc[..]))
        && (found ==> pid == old(proc[..])[s.z].pid &&
                      proc[..] == old(proc[..])[s.z := Reaped(old(proc[..])[s.z])])
      ensures found <==> exists z: nat :: ZombieChild(old(proc[..]), p, z)
      ensures !found ==> (kids <==> exists i: nat :: i < proc.Length && old(proc[i].parent) == p)
      ensures found ==> exists z: nat :: ReapedAt(old(proc[..]), proc[..], p, z, pid)
    {
      found, kids, pid := false, false, -1;
      var k := 0;
      while k < proc.Length
        invariant k <= proc.Length && !found && proc[..] == old(proc[..])
        invariant WaitScan(proc[..], p, 0, false) == WaitScan(proc[..], p, k, kids)
      {
        if proc[k].parent == p {
          kids := true;
          if proc[k].state == ZOMBIE {
            pid := proc[k].pid;
            proc[k] := Reaped(proc[k]);
            assert ReapedAt(old(proc[..]), proc[..], p, k, pid);
            return true, true, pid;
          }
        }
        k := k + 1;
      }
    }

    /** exit's loop, which may wake init in the middle. */
    method PassAll(p: nat)
      modifies proc
      ensures proc[..] == PassChildren(old(proc[..]), p, HasZombieChild(old(proc[..]), p))
      ensures forall i: nat :: i < proc.Length ==> PassedOn(old(proc[..]), proc[..], p, i)
    {
      hide PassedTo, PassChildren, HasZombieChild, Wakeup1;
      ghost var was := proc[..];
      ghost var wake := false;
      var i := 0;
      PassStart(was, p);
      while i < proc.Length
        invariant i <= proc.Length && PassedTo(was, proc[..], p, i, wake)
      {
        PassStep(was, proc[..], p, i, wake);
        if proc[i].parent == p {
          proc[i] := proc[i].(parent := INIT);
          if proc[i].state == ZOMBIE {
            WakeAll(OfProc(INIT));
            wake := true;
          }
        }
        i := i + 1;
      }
      PassEnd(was, proc[..], p, wake);
    }

    /** exit, before it becomes a zombie. */
    method Orphan(p: nat)
      requires p < proc.Length
      modifies proc
      ensures proc[..] == Orphaned(old(proc[..]), p)
      ensures forall i: nat :: i < proc.Length ==> OrphanedAt(old(proc[..]), proc[..], p, i)
    {
      OrphanedAll(proc[..], p);
      if proc[p].parent >= 0 {
        WakeAll(OfProc(proc[p].parent));
      }
      PassAll(p);
    }
  }
}
