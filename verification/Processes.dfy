/**
 All processes and CPUs of proc.c as one state machine.  A step is one critical section under ptable.lock,
 or one write made without it; the lock is in the state, because a process that goes to sleep hands it to
 the scheduler, and the scheduler hands it to the process that it runs next.
 */
module Processes {
  import opened ProcTable

  /** Where a process will go on when it is dispatched; Awake: it is running its own code. */
  datatype Susp = Awake | Fresh | Yielded | Asleep | Waiting

  /**
   cpu: the slot each CPU runs, or -1 for its scheduler.  fork: the slot each process is filling in fork, or
   -1.  lock: the CPU that holds ptable.lock, or -1.
   */
  datatype Sys = Sys(t: Table, cpu: seq<int>, fork: seq<int>, susp: seq<Susp>, lock: int, nextpid: int)

  predicate Live(p: Proc) {
    p.state == SLEEPING || p.state == RUNNABLE || p.state == RUNNING
  }

  // ---- what holds of the table ----

  predicate ParentOk(t: Table, k: nat)
    requires k < |t|
  {
    var p := t[k].parent;
    && (p == -1 || (0 <= p < |t| && p != k && Live(t[p])))
    && (t[k].state == UNUSED ==> p == -1)
    && (k == INIT ==> p == -1 && Live(t[k]))
    && (k != INIT && (Live(t[k]) || t[k].state == ZOMBIE) ==> p != -1)
  }

  /** Parents are live, and every process but init, from its first run to its end, has one. */
  ghost predicate Parents(t: Table) {
    forall k: nat :: k < |t| ==> ParentOk(t, k)
  }

  predicate WaitsFor(t: Table, k: nat)
    requires k < |t|
  {
    t[k].state == SLEEPING && t[k].chan == OfProc(k)
  }

  predicate ChildOf(t: Table, k: nat, j: nat) {
    j < |t| && t[j].parent == k
  }

  ghost predicate NoChildren(t: Table, k: nat) {
    forall j: nat :: !ChildOf(t, k, j)
  }

  ghost predicate HasChild(t: Table, k: nat) {
    exists j: nat :: ChildOf(t, k, j)
  }

  ghost predicate WaitOk(t: Table, k: nat)
    requires k < |t|
  {
    WaitsFor(t, k) ==> HasChild(t, k) && forall j: nat :: !ZombieChild(t, k, j)
  }

  /** A process asleep in wait has a child to wait for, and no child that has exited. */
  ghost predicate Waits(t: Table) {
    forall k: nat :: k < |t| ==> WaitOk(t, k)
  }

  lemma PutParents(t: Table, k: nat, v: Proc)
    requires Parents(t) && k < |t| && ParentOk(t[k := v], k)
    requires Live(t[k]) && !Live(v) ==> NoChildren(t, k)
    ensures Parents(t[k := v])
  {
    var r := t[k := v];
    forall j: nat | j < |r|
      ensures ParentOk(r, j)
    {
      assert ParentOk(t, j);
      assert j != k && t[j].parent == k ==> ChildOf(t, k, j);
    }
  }

  lemma PutWaits(t: Table, k: nat, v: Proc)
    requires Waits(t) && k < |t| && WaitOk(t[k := v], k)
    requires v.state == ZOMBIE && 0 <= v.parent < |t| ==>
      !WaitsFor(t, v.parent) || (v.parent == k && !WaitsFor(t[k := v], k))
    requires v.parent == t[k].parent || t[k].parent < 0 || t[k].parent >= |t| || !WaitsFor(t, t[k].parent)
    ensures Waits(t[k := v])
  {
    var r := t[k := v];
    forall i: nat | i < |r|
      ensures WaitOk(r, i)
    {
      if i != k && WaitsFor(r, i) {
        assert WaitOk(t, i);
        var j: nat :| ChildOf(t, i, j);
        assert ChildOf(r, i, j);
        forall j: nat
          ensures !ZombieChild(r, i, j)
        {
          assert !ZombieChild(t, i, j);
        }
      }
    }
  }

  /** Waking processes. */
  lemma WakeKeeps(t: Table, chan: Chan)
    requires Parents(t) && Waits(t)
    ensures Parents(Wakeup1(t, chan)) && Waits(Wakeup1(t, chan))
  {
    var r := Wakeup1(t, chan);
    forall k: nat | k < |r|
      ensures ParentOk(r, k)
    {
      assert ParentOk(t, k);
    }
    forall k: nat | k < |r|
      ensures WaitOk(r, k)
    {
      if WaitsFor(r, k) {
        assert WaitOk(t, k);
        var j: nat :| ChildOf(t, k, j);
        assert ChildOf(r, k, j);
        forall j: nat
          ensures !ZombieChild(r, k, j)
        {
          assert !ZombieChild(t, k, j);
        }
      }
    }
  }

  /** Passing the children of p to init, and waking init if one of them is a zombie. */
  lemma PassKeeps(t: Table, p: nat)
    requires Parents(t) && Waits(t) && INIT < |t| && p < |t| && p != INIT && !WaitsFor(t, p)
    ensures var r := PassChildren(t, p, HasZombieChild(t, p));
      Parents(r) && Waits(r) && NoChildren(r, p)
  {
    var wake := HasZombieChild(t, p);
    var r := PassChildren(t, p, wake);
    assert ParentOk(t, INIT);
    forall k: nat | k < |r|
      ensures ParentOk(r, k)
    {
      assert ParentOk(t, k);
    }
    forall k: nat | k < |r|
      ensures WaitOk(r, k)
    {
      if WaitsFor(r, k) {
        assert WaitOk(t, k) && k != p;
        var j: nat :| ChildOf(t, k, j);
        assert ChildOf(r, k, j);
        forall j: nat
          ensures !ZombieChild(r, k, j)
        {
          assert !ZombieChild(t, k, j) && (j < |t| ==> r[j] == Passed(t[j], p, wake));
          assert k == INIT ==> !wake;
          assert !wake && j < |t| ==> !ZombieChild(t, p, j);
        }
      }
    }
  }

  /** exit up to the moment before p is a zombie: nobody is p's child, and its parent is awake. */
  lemma OrphanedKeeps(t: Table, p: nat)
    requires Parents(t) && Waits(t) && p < |t| && p != INIT && t[p].state == RUNNING
    ensures var r := Orphaned(t, p);
      && |r| == |t| && Parents(r) && Waits(r) && r[p] == t[p] && NoChildren(r, p)
      && 0 <= t[p].parent < |t| && !WaitsFor(r, t[p].parent)
  {
    assert ParentOk(t, p);
    var w := Wakeup1(t, OfProc(t[p].parent));
    WakeKeeps(t, OfProc(t[p].parent));
    assert ParentOk(t, t[p].parent);
    PassKeeps(w, p);
    assert ParentOk(w, p);
  }

  // ---- what holds of CPUs, forks and suspended processes ----

  predicate On(s: Sys, c: nat) {
    c < |s.cpu| && 0 <= s.cpu[c] < |s.t|
  }

  predicate CpuOk(t: Table, cpu: seq<int>, c: nat)
    requires c < |cpu|
  {
    cpu[c] == -1 || (0 <= cpu[c] < |t| && t[cpu[c]].state == RUNNING)
  }

  predicate Apart(cpu: seq<int>, c: nat, d: nat)
    requires c < |cpu| && d < |cpu|
  {
    c != d && cpu[c] == cpu[d] ==> cpu[c] == -1
  }

  predicate RunsOn(cpu: seq<int>, k: nat, c: nat) {
    c < |cpu| && cpu[c] == k
  }

  /** Each CPU runs nothing or a RUNNING process, and each RUNNING process runs on exactly one CPU. */
  ghost predicate Cpus(t: Table, cpu: seq<int>) {
    && (forall c: nat :: c < |cpu| ==> CpuOk(t, cpu, c))
    && (forall c: nat, d: nat :: c < |cpu| && d < |cpu| ==> Apart(cpu, c, d))
    && forall k: nat :: k < |t| && t[k].state == RUNNING ==> exists c: nat :: RunsOn(cpu, k, c)
  }

  predicate ForkOk(t: Table, fork: seq<int>, p: nat)
    requires p < |fork| == |t|
  {
    var k := fork[p];
    k == -1 || (0 <= k < |t| && t[k].state == EMBRYO && Live(t[p]) && (t[k].parent == -1 || t[k].parent == p))
  }

  predicate Fills(fork: seq<int>, k: nat, p: nat) {
    p < |fork| && fork[p] == k
  }

  /** Each EMBRYO is being filled by one live process, in fork. */
  ghost predicate Forks(t: Table, fork: seq<int>) {
    && |fork| == |t|
    && (forall p: nat :: p < |fork| ==> ForkOk(t, fork, p))
    && (forall p: nat, q: nat :: p < |fork| && q < |fork| ==> Apart(fork, p, q))
    && forall k: nat :: k < |t| && t[k].state == EMBRYO ==> exists p: nat :: Fills(fork, k, p)
  }

  predicate SuspOk(t: Table, susp: seq<Susp>, k: nat)
    requires k < |t| == |susp|
  {
    && (t[k].state == SLEEPING ==>
          (susp[k] == Waiting && t[k].chan == OfProc(k)) || (susp[k] == Asleep && t[k].chan.Other?))
    && (t[k].state == RUNNABLE ==> susp[k] != Awake)
  }

  /** Only the process that has just been dispatched, and holds the lock for that, is running without being
      awake. */
  predicate Resuming(s: Sys, k: nat)
    requires k < |s.t| == |s.susp|
  {
    s.t[k].state == RUNNING ==> (s.susp[k] != Awake <==> 0 <= s.lock < |s.cpu| && s.cpu[s.lock] == k)
  }

  ghost predicate Susps(s: Sys) {
    && |s.susp| == |s.t| && -1 <= s.lock < |s.cpu|
    && (forall k: nat :: k < |s.t| ==> SuspOk(s.t, s.susp, k))
    && forall k: nat :: k < |s.t| ==> Resuming(s, k)
  }

  ghost predicate Inv(s: Sys) {
    && |s.t| == NPROC && Parents(s.t) && Waits(s.t) && Cpus(s.t, s.cpu) && Forks(s.t, s.fork) && Susps(s)
  }

  /** The table userinit leaves behind: init is about to run for the first time, and there is nothing else. */
  function Boot(ncpu: nat): Sys {
    var unused := Proc(UNUSED, 0, -1, NoChan, false, 0);
    Sys([Proc(RUNNABLE, 1, -1, NoChan, false, 10)] + Copies(unused, NPROC - 1), Copies(-1, ncpu), Copies(-1, NPROC),
        [Fresh] + Copies(Awake, NPROC - 1), -1, 2)
  }

  function Copies<T>(x: T, n: nat): (r: seq<T>)
    ensures |r| == n && forall i :: 0 <= i < n ==> r[i] == x
  {
    if n == 0 then [] else Copies(x, n - 1) + [x]
  }

  lemma BootInv(ncpu: nat)
    ensures Inv(Boot(ncpu))
  {
    var s := Boot(ncpu);
    forall k: nat | k < NPROC
      ensures ParentOk(s.t, k) && WaitOk(s.t, k) && ForkOk(s.t, s.fork, k) && SuspOk(s.t, s.susp, k) && Resuming(s, k)
    {
    }
  }

  // ---- steps ----

  datatype Step =
    // fork, by the process on CPU c: allocproc; a failure of kalloc or copyuvm; the write of the parent;
    // the write of RUNNABLE
    | Alloc(c: nat) | ForkFails(c: nat) | ForkParent(c: nat) | ForkRun(c: nat)
    | Exit(c: nat) | Wait(c: nat) | Sleep(c: nat, n: nat) | Yield(c: nat)
    // by a process or an interrupt handler
    | Wake(n: nat) | Kill(pid: int)
    // the scheduler of CPU c
    | SchedLock(c: nat) | Dispatch(c: nat, k: nat) | SchedUnlock(c: nat)
    // the process that has been dispatched goes on, up to the next release of ptable.lock
    | Resume(c: nat)

  /** The process on CPU c runs its own code, and ptable.lock is free. */
  predicate Acquires(s: Sys, c: nat) {
    s.lock == -1 && On(s, c) && |s.susp| == |s.t| == |s.fork| && s.susp[s.cpu[c]] == Awake
  }

  predicate Filling(s: Sys, c: nat) {
    && On(s, c) && |s.susp| == |s.t| == |s.fork| && s.susp[s.cpu[c]] == Awake
    && 0 <= s.fork[s.cpu[c]] < |s.t|
  }

  predicate Enabled(s: Sys, e: Step) {
    match e
    case Alloc(c) => Acquires(s, c) && s.fork[s.cpu[c]] == -1
    case ForkFails(c) => Filling(s, c) && s.t[s.fork[s.cpu[c]]].parent == -1
    case ForkParent(c) => Filling(s, c)
    case ForkRun(c) => Acquires(s, c) && Filling(s, c) && s.t[s.fork[s.cpu[c]]].parent == s.cpu[c]
    case Exit(c) => Acquires(s, c) && s.fork[s.cpu[c]] == -1 && s.cpu[c] != INIT
    case Wait(c) => Acquires(s, c) && s.fork[s.cpu[c]] == -1
    case Sleep(c, n) => Acquires(s, c) && s.fork[s.cpu[c]] == -1
    case Yield(c) => Acquires(s, c)
    case Wake(n) => s.lock == -1
    case Kill(pid) => s.lock == -1
    case SchedLock(c) => s.lock == -1 && c < |s.cpu| && s.cpu[c] == -1
    case Dispatch(c, k) => s.lock == c && c < |s.cpu| && s.cpu[c] == -1 && k < |s.t| && s.t[k].state == RUNNABLE
    case SchedUnlock(c) => s.lock == c && c < |s.cpu| && s.cpu[c] == -1
    case Resume(c) => s.lock == c && On(s, c) && |s.susp| == |s.t|
  }

  /** sched: the process on CPU c gives way to the scheduler, which finds the lock held. */
  function Leave(s: Sys, c: nat, t: Table, why: Susp): Sys
    requires On(s, c) && |s.susp| == |s.t|
  {
    s.(t := t, cpu := s.cpu[c := -1], susp := s.susp[s.cpu[c] := why], lock := c)
  }

  /** wait from its scan on. */
  function AfterScan(s: Sys, c: nat): Sys
    requires On(s, c) && |s.susp| == |s.t|
  {
    var p: nat := s.cpu[c];
    match WaitScan(s.t, p, 0, false)
    case Reap(z) => s.(t := s.t[z := Reaped(s.t[z])])
    case NoKids => s
    case Kids =>
      if s.t[p].killed then s
      else Leave(s, c, s.t[p := s.t[p].(chan := OfProc(p), state := SLEEPING)], Waiting)
  }

  /** A process that has been dispatched leaves sleep or yield, or starts, and ptable.lock is released. */
  function Resumed(s: Sys, c: nat): Sys
    requires On(s, c) && |s.susp| == |s.t|
  {
    var k: nat := s.cpu[c];
    var why := s.susp[k];
    var t := if why == Asleep || why == Waiting then s.t[k := s.t[k].(chan := NoChan)] else s.t;
    s.(t := t, susp := s.susp[k := Awake], lock := -1)
  }

  function Next(s: Sys, e: Step): Sys
    requires Enabled(s, e)
  {
    match e
    case Alloc(c) =>
      var k := FirstUnused(s.t, 0);
      if k == |s.t| then s
      else s.(t := s.t[k := Embryo(s.t[k], s.nextpid)], fork := s.fork[s.cpu[c] := k], nextpid := s.nextpid + 1)
    case ForkFails(c) =>
      var k := s.fork[s.cpu[c]];
      s.(t := s.t[k := s.t[k].(state := UNUSED)], fork := s.fork[s.cpu[c] := -1])
    case ForkParent(c) =>
      var k := s.fork[s.cpu[c]];
      s.(t := s.t[k := s.t[k].(parent := s.cpu[c])])
    case ForkRun(c) =>
      var k := s.fork[s.cpu[c]];
      s.(t := s.t[k := s.t[k].(state := RUNNABLE)], fork := s.fork[s.cpu[c] := -1], susp := s.susp[k := Fresh])
    case Exit(c) =>
      Leave(s, c, Exited(s.t, s.cpu[c]), Awake)
    case Wait(c) => AfterScan(s, c)
    case Sleep(c, n) => Leave(s, c, s.t[s.cpu[c] := s.t[s.cpu[c]].(chan := Other(n), state := SLEEPING)], Asleep)
    case Yield(c) => Leave(s, c, s.t[s.cpu[c] := s.t[s.cpu[c]].(state := RUNNABLE)], Yielded)
    case Wake(n) => s.(t := Wakeup1(s.t, Other(n)))
    case Kill(pid) =>
      var k := FirstPid(s.t, pid, 0);
      if k == |s.t| then s else s.(t := s.t[k := Killed(s.t[k])])
    case SchedLock(c) => s.(lock := c)
    case Dispatch(c, k) => s.(t := s.t[k := s.t[k].(state := RUNNING)], cpu := s.cpu[c := k])
    case SchedUnlock(c) => s.(lock := -1)
    case Resume(c) => if s.susp[s.cpu[c]] == Waiting then AfterScan(Resumed(s, c), c) else Resumed(s, c)
  }

  // ---- steps keep what holds of CPUs and forks ----

  lemma SameCpus(t: Table, r: Table, cpu: seq<int>)
    requires Cpus(t, cpu) && |r| == |t|
    requires forall k: nat :: k < |t| ==> (r[k].state == RUNNING <==> t[k].state == RUNNING)
    ensures Cpus(r, cpu)
  {
    forall c: nat | c < |cpu|
      ensures CpuOk(r, cpu, c)
    {
      assert CpuOk(t, cpu, c);
    }
  }

  lemma LeaveCpus(t: Table, r: Table, cpu: seq<int>, c: nat)
    requires Cpus(t, cpu) && |r| == |t| && c < |cpu| && 0 <= cpu[c] < |t|
    requires forall k: nat :: k < |t| ==> (r[k].state == RUNNING <==> t[k].state == RUNNING && k != cpu[c])
    ensures Cpus(r, cpu[c := -1])
  {
    var cpu' := cpu[c := -1];
    forall d: nat | d < |cpu'|
      ensures CpuOk(r, cpu', d)
    {
      assert CpuOk(t, cpu, d) && Apart(cpu, c, d);
    }
    forall d: nat, e: nat | d < |cpu'| && e < |cpu'|
      ensures Apart(cpu', d, e)
    {
      assert Apart(cpu, d, e);
    }
    forall k: nat | k < |r| && r[k].state == RUNNING
      ensures exists d: nat :: RunsOn(cpu', k, d)
    {
      var d: nat :| RunsOn(cpu, k, d);
      assert RunsOn(cpu', k, d);
    }
  }

  lemma EnterCpus(t: Table, cpu: seq<int>, c: nat, k: nat)
    requires Cpus(t, cpu) && c < |cpu| && cpu[c] == -1 && k < |t| && t[k].state != RUNNING
    ensures Cpus(t[k := t[k].(state := RUNNING)], cpu[c := k])
  {
    var r, cpu' := t[k := t[k].(state := RUNNING)], cpu[c := k];
    forall d: nat | d < |cpu'|
      ensures CpuOk(r, cpu', d)
    {
      assert CpuOk(t, cpu, d);
    }
    forall d: nat, e: nat | d < |cpu'| && e < |cpu'|
      ensures Apart(cpu', d, e)
    {
      assert Apart(cpu, d, e) && CpuOk(t, cpu, d) && CpuOk(t, cpu, e);
    }
    forall j: nat | j < |r| && r[j].state == RUNNING
      ensures exists d: nat :: RunsOn(cpu', j, d)
    {
      if j == k {
        assert RunsOn(cpu', j, c);
      } else {
        var d: nat :| RunsOn(cpu, j, d);
        assert RunsOn(cpu', j, d);
      }
    }
  }

  /** The embryos are the same, and processes in fork stay live. */
  lemma SameForks(t: Table, r: Table, fork: seq<int>)
    requires Forks(t, fork) && |r| == |t|
    requires forall k: nat :: k < |t| ==> (r[k].state == EMBRYO <==> t[k].state == EMBRYO)
    requires forall k: nat :: k < |t| && t[k].state == EMBRYO ==> r[k].parent == t[k].parent
    requires forall p: nat :: p < |t| && fork[p] != -1 && Live(t[p]) ==> Live(r[p])
    ensures Forks(r, fork)
  {
    forall p: nat | p < |fork|
      ensures ForkOk(r, fork, p)
    {
      assert ForkOk(t, fork, p);
    }
  }

  lemma AddFork(t: Table, fork: seq<int>, p: nat, k: nat, v: Proc)
    requires Forks(t, fork) && p < |t| && fork[p] == -1 && Live(t[p]) && k < |t| && t[k].state == UNUSED
    requires v.state == EMBRYO && v.parent == -1
    ensures Forks(t[k := v], fork[p := k])
  {
    var r, fork' := t[k := v], fork[p := k];
    forall q: nat | q < |fork'|
      ensures ForkOk(r, fork', q)
    {
      assert ForkOk(t, fork, q);
    }
    forall q: nat, o: nat | q < |fork'| && o < |fork'|
      ensures Apart(fork', q, o)
    {
      assert Apart(fork, q, o) && ForkOk(t, fork, q) && ForkOk(t, fork, o);
    }
    forall j: nat | j < |r| && r[j].state == EMBRYO
      ensures exists q: nat :: Fills(fork', j, q)
    {
      if j == k {
        assert Fills(fork', j, p);
      } else {
        var q: nat :| Fills(fork, j, q);
        assert Fills(fork', j, q);
      }
    }
  }

  lemma DropFork(t: Table, fork: seq<int>, p: nat, v: Proc)
    requires Forks(t, fork) && p < |t| && 0 <= fork[p] < |t| && v.state != EMBRYO
    ensures Forks(t[fork[p] := v], fork[p := -1])
  {
    var r, fork' := t[fork[p] := v], fork[p := -1];
    forall q: nat | q < |fork'|
      ensures ForkOk(r, fork', q)
    {
      assert ForkOk(t, fork, q) && Apart(fork, p, q) && ForkOk(t, fork, p);
    }
    forall q: nat, o: nat | q < |fork'| && o < |fork'|
      ensures Apart(fork', q, o)
    {
      assert Apart(fork, q, o);
    }
    forall j: nat | j < |r| && r[j].state == EMBRYO
      ensures exists q: nat :: Fills(fork', j, q)
    {
      var q: nat :| Fills(fork, j, q);
      assert Fills(fork', j, q);
    }
  }

  /** What is known of the process on a CPU. */
  lemma OnCpu(s: Sys, c: nat)
    requires Inv(s) && On(s, c)
    ensures var p := s.cpu[c];
      && s.t[p].state == RUNNING && ParentOk(s.t, p) && ForkOk(s.t, s.fork, p) && Resuming(s, p)
      && (s.lock == c ==> s.susp[p] != Awake)
  {
    assert CpuOk(s.t, s.cpu, c);
  }

  /** The table changes, but not for the processes that are running or suspended. */
  lemma SameSusps(s: Sys, r: Sys)
    requires Susps(s) && |r.t| == |s.t| && r.cpu == s.cpu && r.susp == s.susp && r.lock == s.lock
    requires forall k: nat :: k < |s.t| ==> SuspOk(r.t, s.susp, k) || r.t[k] == s.t[k]
    requires forall k: nat :: k < |s.t| ==> (r.t[k].state == RUNNING <==> s.t[k].state == RUNNING)
    ensures Susps(r)
  {
    forall k: nat | k < |r.t|
      ensures SuspOk(r.t, r.susp, k) && Resuming(r, k)
    {
      assert SuspOk(s.t, s.susp, k) && Resuming(s, k);
    }
  }

  /** The process on CPU c leaves it while nobody else is resuming. */
  lemma LeaveSusps(s: Sys, c: nat, t: Table, why: Susp)
    requires Susps(s) && s.lock == -1 && On(s, c) && |t| == |s.t|
    requires forall k: nat :: k < |t| && k != s.cpu[c] ==> SuspOk(t, s.susp, k)
    requires SuspOk(t, s.susp[s.cpu[c] := why], s.cpu[c]) && t[s.cpu[c]].state != RUNNING
    requires forall k: nat :: k < |t| && t[k].state == RUNNING ==> s.t[k].state == RUNNING
    ensures Susps(Leave(s, c, t, why))
  {
    var r := Leave(s, c, t, why);
    forall k: nat | k < |t|
      ensures SuspOk(r.t, r.susp, k) && Resuming(r, k)
    {
      assert Resuming(s, k) && (k != s.cpu[c] ==> SuspOk(t, s.susp, k));
    }
  }

  // ---- each step keeps the invariant ----

  lemma KeepAlloc(s: Sys, c: nat)
    requires Inv(s) && Enabled(s, Alloc(c))
    ensures Inv(Next(s, Alloc(c)))
  {
    OnCpu(s, c);
    var r := Next(s, Alloc(c));
    var k := FirstUnused(s.t, 0);
    if k < |s.t| {
      var v := Embryo(s.t[k], s.nextpid);
      assert ParentOk(s.t, k);
      PutParents(s.t, k, v);
      PutWaits(s.t, k, v);
      SameCpus(s.t, r.t, s.cpu);
      AddFork(s.t, s.fork, s.cpu[c], k, v);
      SameSusps(s, r);
    }
  }

  lemma KeepForkFails(s: Sys, c: nat)
    requires Inv(s) && Enabled(s, ForkFails(c))
    ensures Inv(Next(s, ForkFails(c)))
  {
    OnCpu(s, c);
    var r := Next(s, ForkFails(c));
    var k := s.fork[s.cpu[c]];
    var v := s.t[k].(state := UNUSED);
    assert ParentOk(s.t, k) && ParentOk(s.t, INIT);
    PutParents(s.t, k, v);
    PutWaits(s.t, k, v);
    SameCpus(s.t, r.t, s.cpu);
    DropFork(s.t, s.fork, s.cpu[c], v);
    SameSusps(s, r);
  }

  lemma KeepForkParent(s: Sys, c: nat)
    requires Inv(s) && Enabled(s, ForkParent(c))
    ensures Inv(Next(s, ForkParent(c)))
  {
    OnCpu(s, c);
    var r := Next(s, ForkParent(c));
    var k := s.fork[s.cpu[c]];
    var v := s.t[k].(parent := s.cpu[c]);
    assert ParentOk(s.t, k) && ParentOk(s.t, INIT);
    PutParents(s.t, k, v);
    PutWaits(s.t, k, v);
    SameCpus(s.t, r.t, s.cpu);
    forall p: nat | p < |s.fork|
      ensures ForkOk(r.t, r.fork, p)
    {
      assert ForkOk(s.t, s.fork, p) && Apart(s.fork, p, s.cpu[c]);
    }
    SameSusps(s, r);
  }

  lemma KeepForkRun(s: Sys, c: nat)
    requires Inv(s) && Enabled(s, ForkRun(c))
    ensures Inv(Next(s, ForkRun(c)))
  {
    OnCpu(s, c);
    var r := Next(s, ForkRun(c));
    var k := s.fork[s.cpu[c]];
    var v := s.t[k].(state := RUNNABLE);
    assert ParentOk(s.t, k) && ParentOk(s.t, INIT);
    PutParents(s.t, k, v);
    PutWaits(s.t, k, v);
    SameCpus(s.t, r.t, s.cpu);
    DropFork(s.t, s.fork, s.cpu[c], v);
    forall j: nat | j < |r.t|
      ensures SuspOk(r.t, r.susp, j) && Resuming(r, j)
    {
      assert SuspOk(s.t, s.susp, j) && Resuming(s, j);
    }
  }

  /** The table after exit by p. */
  function Exited(t: Table, p: nat): Table
    requires p < |t|
  {
    var u := Orphaned(t, p);
    u[p := u[p].(state := ZOMBIE)]
  }

  lemma ExitedKeeps(t: Table, p: nat)
    requires Parents(t) && Waits(t) && p < |t| && p != INIT && t[p].state == RUNNING
    ensures Parents(Exited(t, p)) && Waits(Exited(t, p))
  {
    var u := Orphaned(t, p);
    OrphanedKeeps(t, p);
    assert ParentOk(u, p);
    PutParents(u, p, u[p].(state := ZOMBIE));
    PutWaits(u, p, u[p].(state := ZOMBIE));
  }

  /** Exit changes states only from SLEEPING to RUNNABLE, and p's; parents only from p to init. */
  lemma ExitedStates(t: Table, p: nat)
    requires p < |t|
    ensures var r := Exited(t, p);
      && |r| == |t| && r[p].state == ZOMBIE
      && forall k: nat :: k < |t| && k != p ==>
           && (r[k].state == t[k].state || (t[k].state == SLEEPING && r[k].state == RUNNABLE))
           && r[k].chan == t[k].chan && (t[k].parent != p ==> r[k].parent == t[k].parent)
  {
  }

  lemma KeepExit(s: Sys, c: nat)
    requires Inv(s) && Enabled(s, Exit(c))
    ensures Inv(Next(s, Exit(c)))
  {
    hide WaitOk, ParentOk, Exited;
    OnCpu(s, c);
    var p := s.cpu[c];
    var t := Exited(s.t, p);
    ExitedKeeps(s.t, p);
    ExitedStates(s.t, p);
    LeaveCpus(s.t, t, s.cpu, c);
    EmbryosKept(s, p);
    SameForks(s.t, t, s.fork);
    forall k: nat | k < |t| && k != p
      ensures SuspOk(t, s.susp, k)
    {
      assert SuspOk(s.t, s.susp, k);
    }
    LeaveSusps(s, c, t, Awake);
  }

  /** A process that is not in fork is no embryo's parent. */
  lemma EmbryosKept(s: Sys, p: nat)
    requires Inv(s) && p < |s.t| && s.fork[p] == -1
    ensures forall k: nat :: k < |s.t| && s.t[k].state == EMBRYO ==> s.t[k].parent != p
  {
    forall k: nat | k < |s.t| && s.t[k].state == EMBRYO
      ensures s.t[k].parent != p
    {
      var q: nat :| Fills(s.fork, k, q);
      assert ForkOk(s.t, s.fork, q);
    }
  }

  /** The process on CPU c, awake, goes to sleep or yields. */
  lemma KeepLeave(s: Sys, c: nat, v: Proc, why: Susp)
    requires Inv(s) && Acquires(s, c) && Live(v) && v.state != RUNNING && v.parent == s.t[s.cpu[c]].parent
    requires WaitOk(s.t[s.cpu[c] := v], s.cpu[c])
    requires SuspOk(s.t[s.cpu[c] := v], s.susp[s.cpu[c] := why], s.cpu[c])
    ensures Inv(Leave(s, c, s.t[s.cpu[c] := v], why))
  {
    OnCpu(s, c);
    var p := s.cpu[c];
    var t := s.t[p := v];
    PutParents(s.t, p, v);
    PutWaits(s.t, p, v);
    LeaveCpus(s.t, t, s.cpu, c);
    SameForks(s.t, t, s.fork);
    forall k: nat | k < |t| && k != p
      ensures SuspOk(t, s.susp, k)
    {
      assert SuspOk(s.t, s.susp, k);
    }
    LeaveSusps(s, c, t, why);
  }

  lemma KeepAfterScan(s: Sys, c: nat)
    requires Inv(s) && Acquires(s, c)
    ensures Inv(AfterScan(s, c))
  {
    OnCpu(s, c);
    var p: nat := s.cpu[c];
    match WaitScan(s.t, p, 0, false)
    case Reap(z) =>
      KeepReap(s, c, z);
    case NoKids =>
    case Kids =>
      if !s.t[p].killed {
        var v := s.t[p].(chan := OfProc(p), state := SLEEPING);
        var t := s.t[p := v];
        var i: nat :| i < |s.t| && s.t[i].parent == p;
        assert ChildOf(t, p, i);
        forall j: nat
          ensures !ZombieChild(t, p, j)
        {
          assert j < |s.t| ==> !ZombieChild(s.t, p, j);
        }
        KeepLeave(s, c, v, Waiting);
      }
  }

  lemma KeepReap(s: Sys, c: nat, z: nat)
    requires Inv(s) && Acquires(s, c) && ZombieChild(s.t, s.cpu[c], z)
    ensures Inv(s.(t := s.t[z := Reaped(s.t[z])]))
  {
    OnCpu(s, c);
    var r := s.(t := s.t[z := Reaped(s.t[z])]);
    assert ParentOk(s.t, z) && ParentOk(s.t, INIT);
    PutParents(s.t, z, Reaped(s.t[z]));
    PutWaits(s.t, z, Reaped(s.t[z]));
    SameCpus(s.t, r.t, s.cpu);
    forall p: nat | p < |s.t|
      ensures s.fork[p] != -1 && Live(s.t[p]) ==> Live(r.t[p])
    {
      assert ForkOk(s.t, s.fork, p);
    }
    SameForks(s.t, r.t, s.fork);
    SameSusps(s, r);
  }

  lemma KeepWake(s: Sys, n: nat)
    requires Inv(s) && Enabled(s, Wake(n))
    ensures Inv(Next(s, Wake(n)))
  {
    var r := Next(s, Wake(n));
    WakeKeeps(s.t, Other(n));
    SameCpus(s.t, r.t, s.cpu);
    SameForks(s.t, r.t, s.fork);
    forall k: nat | k < |s.t|
      ensures SuspOk(r.t, s.susp, k)
    {
      assert SuspOk(s.t, s.susp, k);
    }
    SameSusps(s, r);
  }

  lemma KeepKill(s: Sys, pid: int)
    requires Inv(s) && Enabled(s, Kill(pid))
    ensures Inv(Next(s, Kill(pid)))
  {
    var r := Next(s, Kill(pid));
    var k := FirstPid(s.t, pid, 0);
    if k < |s.t| {
      var v := Killed(s.t[k]);
      assert ParentOk(s.t, k) && SuspOk(s.t, s.susp, k) && WaitOk(s.t, k);
      PutParents(s.t, k, v);
      assert v.state == ZOMBIE ==> ZombieChild(s.t, s.t[k].parent, k);
      assert v.state == ZOMBIE ==> WaitOk(s.t, s.t[k].parent);
      PutWaits(s.t, k, v);
      SameCpus(s.t, r.t, s.cpu);
      SameForks(s.t, r.t, s.fork);
      SameSusps(s, r);
    }
  }

  lemma KeepDispatch(s: Sys, c: nat, k: nat)
    requires Inv(s) && Enabled(s, Dispatch(c, k))
    ensures Inv(Next(s, Dispatch(c, k)))
  {
    var r := Next(s, Dispatch(c, k));
    var v := s.t[k].(state := RUNNING);
    assert ParentOk(s.t, k) && SuspOk(s.t, s.susp, k);
    PutParents(s.t, k, v);
    PutWaits(s.t, k, v);
    EnterCpus(s.t, s.cpu, c, k);
    SameForks(s.t, r.t, s.fork);
    forall j: nat | j < |r.t|
      ensures SuspOk(r.t, r.susp, j) && Resuming(r, j)
    {
      assert SuspOk(s.t, s.susp, j) && Resuming(s, j);
    }
  }

  lemma KeepResumed(s: Sys, c: nat)
    requires Inv(s) && Enabled(s, Resume(c))
    ensures Inv(Resumed(s, c)) && Acquires(Resumed(s, c), c)
  {
    OnCpu(s, c);
    var r := Resumed(s, c);
    var k: nat := s.cpu[c];
    var v := r.t[k];
    assert r.t == s.t[k := v];
    PutParents(s.t, k, v);
    PutWaits(s.t, k, v);
    SameCpus(s.t, r.t, s.cpu);
    SameForks(s.t, r.t, s.fork);
    forall j: nat | j < |r.t|
      ensures SuspOk(r.t, r.susp, j) && Resuming(r, j)
    {
      assert SuspOk(s.t, s.susp, j) && Resuming(s, j);
    }
  }

  /** The scheduler takes the lock, or gives it back. */
  lemma KeepLock(s: Sys, c: nat, lock: int)
    requires Inv(s) && c < |s.cpu| && s.cpu[c] == -1
    requires (s.lock == -1 || s.lock == c) && (lock == -1 || lock == c)
    ensures Inv(s.(lock := lock))
  {
    var r := s.(lock := lock);
    forall j: nat | j < |r.t|
      ensures SuspOk(r.t, r.susp, j) && Resuming(r, j)
    {
      assert SuspOk(s.t, s.susp, j) && Resuming(s, j);
    }
  }

  /** Every step of every process, CPU and interrupt handler keeps the invariant. */
  lemma Keep(s: Sys, e: Step)
    requires Inv(s) && Enabled(s, e)
    ensures Inv(Next(s, e))
  {
    match e
    case Alloc(c) => KeepAlloc(s, c);
    case ForkFails(c) => KeepForkFails(s, c);
    case ForkParent(c) => KeepForkParent(s, c);
    case ForkRun(c) => KeepForkRun(s, c);
    case Exit(c) => KeepExit(s, c);
    case Wait(c) => KeepAfterScan(s, c);
    case Sleep(c, n) => OnCpu(s, c); KeepLeave(s, c, s.t[s.cpu[c]].(chan := Other(n), state := SLEEPING), Asleep);
    case Yield(c) => OnCpu(s, c); KeepLeave(s, c, s.t[s.cpu[c]].(state := RUNNABLE), Yielded);
    case Wake(n) => KeepWake(s, n);
    case Kill(pid) => KeepKill(s, pid);
    case SchedLock(c) => KeepLock(s, c, c);
    case Dispatch(c, k) => KeepDispatch(s, c, k);
    case SchedUnlock(c) => KeepLock(s, c, -1);
    case Resume(c) =>
      KeepResumed(s, c);
      if s.susp[s.cpu[c]] == Waiting {
        KeepAfterScan(Resumed(s, c), c);
      }
  }

  // ---- whole runs ----

  /** A run: each state follows from the one before by an enabled step. */
  ghost predicate Run(ss: seq<Sys>, es: seq<Step>) {
    && |ss| == |es| + 1 && (exists ncpu: nat :: ss[0] == Boot(ncpu))
    && forall i :: 0 <= i < |es| ==> Enabled(ss[i], es[i]) && ss[i + 1] == Next(ss[i], es[i])
  }

  lemma {:induction false} RunInv(ss: seq<Sys>, es: seq<Step>, i: nat)
    requires Run(ss, es) && i < |ss|
    ensures Inv(ss[i])
  {
    if i == 0 {
      var ncpu: nat :| ss[0] == Boot(ncpu);
      BootInv(ncpu);
    } else {
      RunInv(ss, es, i - 1);
      Keep(ss[i - 1], es[i - 1]);
    }
  }

  /**
   In every state of every run: a zombie has no children, and its parent is live and not asleep in wait, so
   that the parent's next wait can reap it; every process but init has a live parent from its first run to
   its end; and a RUNNING process is on one CPU, and only there.
   */
  lemma Supervised(ss: seq<Sys>, es: seq<Step>, i: nat, k: nat)
    requires Run(ss, es) && i < |ss| && k < NPROC
    ensures |ss[i].t| == NPROC
    ensures ss[i].t[k].state == ZOMBIE ==> NoChildren(ss[i].t, k)
    ensures var p := ss[i].t[k].parent;
      (ss[i].t[k].state == ZOMBIE || (Live(ss[i].t[k]) && k != INIT)) ==>
        (0 <= p < NPROC && Live(ss[i].t[p]) && (ss[i].t[k].state == ZOMBIE ==> !WaitsFor(ss[i].t, p)))
    ensures WaitsFor(ss[i].t, k) ==> HasChild(ss[i].t, k) && forall j: nat :: !ZombieChild(ss[i].t, k, j)
    ensures ss[i].t[k].state == RUNNING <==> exists c: nat :: RunsOn(ss[i].cpu, k, c)
    ensures forall c: nat, d: nat :: RunsOn(ss[i].cpu, k, c) && RunsOn(ss[i].cpu, k, d) ==> c == d
  {
    RunInv(ss, es, i);
    var s := ss[i];
    var t := s.t;
    assert ParentOk(t, k) && ParentOk(t, INIT) && WaitOk(t, k);
    forall j: nat
      ensures t[k].state == ZOMBIE ==> !ChildOf(t, k, j)
    {
      assert j < |t| ==> ParentOk(t, j);
    }
    if t[k].state == ZOMBIE {
      assert ZombieChild(t, t[k].parent, k) && WaitOk(t, t[k].parent);
    }
    forall c: nat | RunsOn(s.cpu, k, c)
      ensures t[k].state == RUNNING
    {
      assert CpuOk(t, s.cpu, c);
    }
    forall c: nat, d: nat | RunsOn(s.cpu, k, c) && RunsOn(s.cpu, k, d)
      ensures c == d
    {
      assert Apart(s.cpu, c, d);
    }
  }

  // ---- what the steps do to a process ----

  /** Slot k has not changed. */
  predicate Same(was: Table, now: Table, k: nat) {
    k < |was| == |now| && now[k] == was[k]
  }

  /** exit by p: p is a zombie, and the others are as they were, but for its children and those it wakes. */
  ghost predicate ExitedAt(was: Table, now: Table, p: nat, k: nat)
    requires k < |was| == |now| && p < |was|
  {
    if k == p then now[p].state == ZOMBIE && now[p].parent == was[p].parent && SameBut(was[p], now[p])
    else OrphanedAt(was, now, p, k)
  }

  /** A scan of wait by the process in slot p: it reaps, or gives up, or goes to sleep on its own slot. */
  ghost predicate ScannedBy(was: Table, now: Table, p: nat)
    requires p < |was| == |now|
  {
    if HasZombieChild(was, p) then exists z: nat, pid :: ReapedAt(was, now, p, z, pid)
    else if HasChild(was, p) && !was[p].killed then
      && now[p].state == SLEEPING && now[p].chan == OfProc(p) && now[p].parent == was[p].parent
      && now[p].pid == was[p].pid && !now[p].killed && now[p].ticket == was[p].ticket
      && forall k: nat :: k < |was| && k != p ==> Same(was, now, k)
    else now == was
  }

  lemma Scanned(s: Sys, c: nat)
    requires On(s, c) && |s.susp| == |s.t|
    ensures |AfterScan(s, c).t| == |s.t| && ScannedBy(s.t, AfterScan(s, c).t, s.cpu[c])
  {
    var p: nat := s.cpu[c];
    var t := AfterScan(s, c).t;
    match WaitScan(s.t, p, 0, false)
    case Reap(z) =>
      assert ReapedAt(s.t, t, p, z, s.t[z].pid);
    case Kids =>
      var i :| 0 <= i < |s.t| && s.t[i].parent == p;
      assert ChildOf(s.t, p, i);
    case NoKids =>
  }

  /** Kill marks the first slot with the pid, and changes no other. */
  ghost predicate KilledIn(was: Table, now: Table, pid: int) {
    && |now| == |was|
    && forall k: nat :: k < |was| ==> if IsFirst(was, pid, k) then MarkedAwake(was, now, k) else Same(was, now, k)
  }

  ghost predicate WokenIn(was: Table, now: Table, chan: Chan) {
    |now| == |was| && forall k: nat :: k < |was| ==> WokenAt(was, now, chan, k)
  }

  ghost predicate ExitedIn(was: Table, now: Table, p: int) {
    |now| == |was| && 0 <= p < |was| && forall k: nat :: k < |was| ==> ExitedAt(was, now, p, k)
  }

  lemma KillFields(s: Sys, pid: int)
    requires Enabled(s, Kill(pid))
    ensures var r := Next(s, Kill(pid));
      r == s.(t := r.t) && KilledIn(s.t, r.t, pid)
  {
  }

  lemma ExitFields(s: Sys, c: nat)
    requires Inv(s) && Enabled(s, Exit(c))
    ensures var r := Next(s, Exit(c));
      ExitedIn(s.t, r.t, s.cpu[c])
  {
    var p: nat := s.cpu[c];
    assert ParentOk(s.t, p);
    OrphanedAll(s.t, p);
    assert OrphanedAt(s.t, Orphaned(s.t, p), p, p);
    forall k: nat | k < |s.t|
      ensures ExitedAt(s.t, Exited(s.t, p), p, k)
    {
      assert OrphanedAt(s.t, Orphaned(s.t, p), p, k);
    }
  }

  /**
   In every run from boot: kill marks the first process with the pid and takes it out of its sleep; a wakeup
   makes its sleepers runnable; exit passes on the children, and wakes whoever waits for what has become of them;
   and nothing else changes.
   */
  lemma StepFields(ss: seq<Sys>, es: seq<Step>, i: nat)
    requires Run(ss, es) && i < |es|
    ensures |ss[i].t| == |ss[i + 1].t| == NPROC
    ensures es[i].Kill? ==> ss[i + 1] == ss[i].(t := ss[i + 1].t) && KilledIn(ss[i].t, ss[i + 1].t, es[i].pid)
    ensures es[i].Wake? ==> ss[i + 1] == ss[i].(t := ss[i + 1].t) && WokenIn(ss[i].t, ss[i + 1].t, Other(es[i].n))
    ensures es[i].Exit? ==> On(ss[i], es[i].c) && ExitedIn(ss[i].t, ss[i + 1].t, ss[i].cpu[es[i].c])
    ensures es[i].Wait? ==> On(ss[i], es[i].c) && ScannedBy(ss[i].t, ss[i + 1].t, ss[i].cpu[es[i].c])
  {
    RunInv(ss, es, i);
    RunInv(ss, es, i + 1);
    var s, e := ss[i], es[i];
    assert Enabled(s, e) && ss[i + 1] == Next(s, e);
    hide Run, Inv;
    match e
    case Kill(pid) => KillFields(s, pid);
    case Wake(n) =>
    case Exit(c) => ExitFields(s, c);
    case Wait(c) => Scanned(s, c);
    case _ =>
  }

  // ---- pids ----

  predicate PidOk(p: Proc, nextpid: int) {
    0 <= p.pid < nextpid && (p.state != UNUSED ==> p.pid > 0)
  }

  predicate PidApart(t: Table, k: nat, l: nat)
    requires k < |t| && l < |t|
  {
    k != l && t[k].pid == t[l].pid ==> t[k].pid == 0
  }

  /** Pids are given out once, and every process has one. */
  ghost predicate Pids(t: Table, nextpid: int) {
    && (forall k: nat :: k < |t| ==> PidOk(t[k], nextpid))
    && forall k: nat, l: nat :: k < |t| && l < |t| ==> PidApart(t, k, l)
  }

  lemma SamePids(t: Table, r: Table, nextpid: int)
    requires Pids(t, nextpid) && |r| == |t|
    requires forall k: nat :: k < |t| ==> r[k].pid == t[k].pid && (t[k].state == UNUSED ==> r[k].state == UNUSED)
    ensures Pids(r, nextpid)
  {
    forall k: nat, l: nat | k < |r| && l < |r|
      ensures PidOk(r[k], nextpid) && PidApart(r, k, l)
    {
      assert PidOk(t[k], nextpid) && PidApart(t, k, l);
    }
  }

  lemma PutPid(t: Table, k: nat, v: Proc, nextpid: int, next: int)
    requires Pids(t, nextpid) && k < |t| && nextpid <= next && PidOk(v, next) && (v.pid == 0 || v.pid >= nextpid)
    ensures Pids(t[k := v], next)
  {
    var r := t[k := v];
    forall i: nat, j: nat | i < |r| && j < |r|
      ensures PidOk(r[i], next) && PidApart(r, i, j)
    {
      assert PidOk(t[i], nextpid) && PidOk(t[j], nextpid) && PidApart(t, i, j);
    }
  }

  lemma ScanPids(s: Sys, c: nat)
    requires On(s, c) && |s.susp| == |s.t| && Pids(s.t, s.nextpid) && 0 < s.nextpid && s.t[s.cpu[c]].state == RUNNING
    ensures Pids(AfterScan(s, c).t, s.nextpid)
  {
    match WaitScan(s.t, s.cpu[c], 0, false)
    case Reap(z) => PutPid(s.t, z, Reaped(s.t[z]), s.nextpid, s.nextpid);
    case _ => SamePids(s.t, AfterScan(s, c).t, s.nextpid);
  }

  /** Steps that neither give out a pid nor take one back. */
  lemma OtherPids(s: Sys, e: Step)
    requires Inv(s) && Enabled(s, e) && !e.Alloc? && !e.Wait? && !e.Resume? && !e.Exit? && !e.Wake? && !e.Kill?
    ensures var r := Next(s, e);
      && |r.t| == |s.t| && r.nextpid == s.nextpid
      && forall k: nat :: k < |s.t| ==> r.t[k].pid == s.t[k].pid && (s.t[k].state == UNUSED ==> r.t[k].state == UNUSED)
  {
    hide Parents, Waits, Susps;
    match e
    case ForkRun(c) => assert ForkOk(s.t, s.fork, s.cpu[c]);
    case ForkParent(c) => assert ForkOk(s.t, s.fork, s.cpu[c]);
    case Sleep(c, n) => assert CpuOk(s.t, s.cpu, c);
    case Yield(c) => assert CpuOk(s.t, s.cpu, c);
    case _ =>
  }

  lemma ExitPids(s: Sys, c: nat)
    requires Inv(s) && Enabled(s, Exit(c)) && Pids(s.t, s.nextpid)
    ensures Pids(Next(s, Exit(c)).t, s.nextpid)
  {
    OnCpu(s, c);
    ExitFields(s, c);
    var t := Next(s, Exit(c)).t;
    hide Inv, Next, Pids;
    assert forall k: nat :: k < |s.t| ==> ExitedAt(s.t, t, s.cpu[c], k);
    SamePids(s.t, t, s.nextpid);
  }

  lemma KeepPids(s: Sys, e: Step)
    requires Inv(s) && Enabled(s, e) && Pids(s.t, s.nextpid) && 0 < s.nextpid
    ensures Pids(Next(s, e).t, Next(s, e).nextpid) && s.nextpid <= Next(s, e).nextpid
  {
    hide Pids, Inv, FirstPid, WaitScan, Exited, Wakeup1;
    var r := Next(s, e);
    match e
    case Alloc(c) =>
      var k := FirstUnused(s.t, 0);
      if k < |s.t| {
        PutPid(s.t, k, Embryo(s.t[k], s.nextpid), s.nextpid, s.nextpid + 1);
      }
    case Exit(c) => ExitPids(s, c);
    case Wait(c) =>
      OnCpu(s, c);
      ScanPids(s, c);
    case Resume(c) =>
      OnCpu(s, c);
      SamePids(s.t, Resumed(s, c).t, s.nextpid);
      if s.susp[s.cpu[c]] == Waiting {
        ScanPids(Resumed(s, c), c);
      }
    case Kill(pid) => SamePids(s.t, r.t, s.nextpid);
    case Wake(n) => SamePids(s.t, r.t, s.nextpid);
    case _ =>
      OtherPids(s, e);
      SamePids(s.t, r.t, s.nextpid);
  }

  lemma {:induction false} RunPids(ss: seq<Sys>, es: seq<Step>, i: nat)
    requires Run(ss, es) && i < |ss|
    ensures Pids(ss[i].t, ss[i].nextpid) && 0 < ss[i].nextpid
  {
    if i > 0 {
      RunPids(ss, es, i - 1);
      RunInv(ss, es, i - 1);
      KeepPids(ss[i - 1], es[i - 1]);
    }
  }

  /** Slot k is marked and awake, and no other slot has changed. */
  ghost predicate OnlyKilled(was: Table, now: Table, k: nat) {
    && k < |was| == |now| && MarkedAwake(was, now, k)
    && forall l: nat :: l < |was| && l != k ==> Same(was, now, l)
  }

  /**
   In every state of every run from boot every process has a pid above 0 that no other slot has, so that kill of
   its pid marks it, takes it out of its sleep, and changes no other slot.
   */
  lemma KillReaches(ss: seq<Sys>, es: seq<Step>, i: nat, k: nat)
    requires Run(ss, es) && i < |ss| && k < NPROC
    ensures |ss[i].t| == NPROC
    ensures ss[i].t[k].state != UNUSED ==>
      && ss[i].t[k].pid > 0
      && forall l: nat :: l < NPROC && l != k ==> ss[i].t[l].pid != ss[i].t[k].pid
    ensures i < |es| && ss[i].t[k].state != UNUSED && es[i] == Kill(ss[i].t[k].pid) ==>
      OnlyKilled(ss[i].t, ss[i + 1].t, k)
  {
    RunInv(ss, es, i);
    RunPids(ss, es, i);
    hide Run, Inv;
    var t := ss[i].t;
    assert PidOk(t[k], ss[i].nextpid);
    forall l: nat | l < NPROC && l != k && t[k].state != UNUSED
      ensures t[l].pid != t[k].pid
    {
      assert PidApart(t, l, k);
    }
    if i < |es| && t[k].state != UNUSED && es[i] == Kill(t[k].pid) {
      StepFields(ss, es, i);
      assert IsFirst(t, t[k].pid, k);
    }
  }

  // ---- the killed flag of a new process ----

  /** No free slot is marked killed, so a process that takes one is not born killed. */
  ghost predicate Clean(t: Table) {
    forall k: nat :: k < |t| && t[k].state == UNUSED ==> !t[k].killed
  }

  /** kill finds the pid on a free slot, or fork fails for a process that has been killed while it was filled. */
  predicate Marks(s: Sys, e: Step)
    requires Enabled(s, e)
  {
    match e
    case Kill(pid) => FirstPid(s.t, pid, 0) < |s.t| && s.t[FirstPid(s.t, pid, 0)].state == UNUSED
    case ForkFails(c) => s.t[s.fork[s.cpu[c]]].killed
    case _ => false
  }

  /** Free slots stay clean exactly as long as neither happens: allocproc never clears the flag. */
  lemma CleanUnless(s: Sys, e: Step)
    requires Inv(s) && Clean(s.t) && Enabled(s, e)
    ensures Clean(Next(s, e).t) <==> !Marks(s, e)
  {
    var r := Next(s, e);
    match e
    case Kill(pid) =>
      var k := FirstPid(s.t, pid, 0);
      assert k < |s.t| ==> r.t[k].killed;
    case ForkFails(c) =>
      var k := s.fork[s.cpu[c]];
      assert r.t[k].state == UNUSED && r.t[k].killed == s.t[k].killed;
    case Resume(c) => OnCpu(s, c);
    case _ =>
  }

  lemma {:induction false} CleanRun(ss: seq<Sys>, es: seq<Step>, i: nat)
    requires Run(ss, es) && i < |ss| && forall j :: 0 <= j < i ==> !Marks(ss[j], es[j])
    ensures Clean(ss[i].t)
  {
    if i > 0 {
      hide Inv, Next, Enabled, Marks, Clean;
      CleanRun(ss, es, i - 1);
      RunInv(ss, es, i - 1);
      CleanUnless(ss[i - 1], es[i - 1]);
    }
  }

  lemma NewProcess(s: Sys, c: nat)
    requires Enabled(s, Alloc(c)) && Clean(s.t) && FirstUnused(s.t, 0) < |s.t| <= NPROC
    ensures var k := FirstUnused(s.t, 0);
      k < |Next(s, Alloc(c)).t| && Next(s, Alloc(c)).t[k].state == EMBRYO && !Next(s, Alloc(c)).t[k].killed
  {
  }

  /**
   In a run from boot no process is born killed before the first step that marks a free slot, and that step does
   leave a marked free slot, which allocproc hands out as it is.
   */
  lemma BornKilled(ss: seq<Sys>, es: seq<Step>, i: nat)
    requires Run(ss, es) && i < |es| && forall j :: 0 <= j < i ==> !Marks(ss[j], es[j])
    ensures es[i].Alloc? && FirstUnused(ss[i].t, 0) < NPROC ==>
      (var k := FirstUnused(ss[i].t, 0);
       k < |ss[i + 1].t| && ss[i + 1].t[k].state == EMBRYO && !ss[i + 1].t[k].killed)
    ensures Marks(ss[i], es[i]) <==> !Clean(ss[i + 1].t)
  {
    CleanRun(ss, es, i);
    RunInv(ss, es, i);
    CleanUnless(ss[i], es[i]);
    assert |ss[i].t| == NPROC && Enabled(ss[i], es[i]) && ss[i + 1] == Next(ss[i], es[i]);
    hide Inv, Run, Next, Enabled, Marks, Clean;
    if es[i].Alloc? && FirstUnused(ss[i].t, 0) < NPROC {
      NewProcess(ss[i], es[i].c);
    }
  }

  /** Init runs, calls kill(0), and forks. */
  ghost predicate KillsNewborn(ss: seq<Sys>, es: seq<Step>) {
    && Run(ss, es) && es == [SchedLock(0), Dispatch(0, 0), Resume(0), Kill(0), Alloc(0)]
    && |ss[5].t| == NPROC && ss[5].t[1].state == EMBRYO && ss[5].t[1].killed
  }

  /** Init running for the first time. */
  lemma InitRuns() returns (ss: seq<Sys>, es: seq<Step>)
    ensures Run(ss, es) && es == [SchedLock(0), Dispatch(0, 0), Resume(0)] && |ss[3].cpu| == 1 && Acquires(ss[3], 0)
    ensures |ss[3].t| == NPROC && ss[3].cpu[0] == 0 && ss[3].fork[0] == -1 && ss[3].t[0].pid == 1
    ensures ss[3].t[0].state == RUNNING && ss[3].t[1] == Proc(UNUSED, 0, -1, NoChan, false, 0)
  {
    hide AfterScan, Exited, Copies, WaitScan, FirstPid, FirstUnused, Wakeup1;
    var s0 := Boot(1);
    var s1 := Next(s0, SchedLock(0));
    var s2 := Next(s1, Dispatch(0, 0));
    var s3 := Next(s2, Resume(0));
    ss, es := [s0, s1, s2, s3], [SchedLock(0), Dispatch(0, 0), Resume(0)];
  }

  lemma RunMore(ss: seq<Sys>, es: seq<Step>, e: Step)
    requires Run(ss, es) && Enabled(ss[|es|], e)
    ensures Run(ss + [Next(ss[|es|], e)], es + [e])
  {
    var rs, fs := ss + [Next(ss[|es|], e)], es + [e];
    forall i | 0 <= i < |fs|
      ensures Enabled(rs[i], fs[i]) && rs[i + 1] == Next(rs[i], fs[i])
    {
      assert i < |es| ==> rs[i] == ss[i] && rs[i + 1] == ss[i + 1] && fs[i] == es[i];
    }
  }

  /** kill(0) marks a free slot: the next child of init is born killed. */
  lemma KillZero()
    ensures exists ss: seq<Sys>, es: seq<Step> :: KillsNewborn(ss, es)
  {
    var ss, es := InitRuns();
    var s3 := ss[3];
    assert FirstPid(s3.t, 0, 0) == FirstPid(s3.t, 0, 1) == 1;
    var s4 := Next(s3, Kill(0));
    RunMore(ss, es, Kill(0));
    assert FirstUnused(s4.t, 0) == FirstUnused(s4.t, 1) == 1;
    RunMore(ss + [s4], es + [Kill(0)], Alloc(0));
    assert KillsNewborn(ss + [s4] + [Next(s4, Alloc(0))], es + [Kill(0)] + [Alloc(0)]);
  }
}
