/**
 The hand-over of locks in sleep and wakeup of proc.c: a sleeper tests a condition under its lock lk, and
 sleep takes ptable.lock before it lets go of lk.  Each acquire, release and write is a step of its own.
 */
module SleepWakeup {
  /**
   Where a process is.  Holds: it holds lk, and may test or change the condition.  In sleep: ToSleep holds lk
   and wants ptable.lock; Locked holds both; Released holds ptable.lock and is about to be SLEEPING; Asleep;
   Woken is RUNNABLE and wants lk again.  MustWake has made the condition true under lk and has not called
   wakeup yet; Waking holds ptable.lock, too, inside wakeup.
   */
  datatype Pc = Out | Holds | ToSleep | Locked | Released | Asleep | Woken | MustWake | Waking

  /** lk, ptable: which process holds the lock, or -1. */
  datatype State = State(pc: seq<Pc>, lk: int, ptable: int, cond: bool)

  datatype Step =
    | Acquire(i: nat) | Release(i: nat) | FallFor(i: nat) | Announce(i: nat) | Withdraw(i: nat)
    | LockTable(i: nat) | LetGo(i: nat) | FallAsleep(i: nat) | WakeAll(i: nat) | Kill(i: nat)

  predicate HasLk(p: Pc) {
    p == Holds || p == ToSleep || p == Locked || p == MustWake || p == Waking
  }

  predicate HasTable(p: Pc) {
    p == Locked || p == Released || p == Waking
  }

  predicate Enabled(s: State, e: Step) {
    match e
    case Acquire(i) => i < |s.pc| && (s.pc[i] == Out || s.pc[i] == Woken) && s.lk == -1
    case Release(i) => i < |s.pc| && s.pc[i] == Holds
    case FallFor(i) => i < |s.pc| && s.pc[i] == Holds && !s.cond
    case Announce(i) => i < |s.pc| && s.pc[i] == Holds
    case Withdraw(i) => i < |s.pc| && s.pc[i] == Holds
    case LockTable(i) => i < |s.pc| && (s.pc[i] == ToSleep || s.pc[i] == MustWake) && s.ptable == -1
    case LetGo(i) => i < |s.pc| && s.pc[i] == Locked
    case FallAsleep(i) => i < |s.pc| && s.pc[i] == Released
    case WakeAll(i) => i < |s.pc| && s.pc[i] == Waking
    case Kill(i) => i < |s.pc| && s.pc[i] == Asleep && s.ptable == -1
  }

  function Wake(p: Pc): Pc {
    if p == Asleep then Woken else p
  }

  function WakeEach(pc: seq<Pc>): (r: seq<Pc>)
    ensures |r| == |pc| && forall i :: 0 <= i < |pc| ==> r[i] == Wake(pc[i])
  {
    if pc == [] then [] else WakeEach(pc[..|pc| - 1]) + [Wake(pc[|pc| - 1])]
  }

  function Next(s: State, e: Step): State
    requires Enabled(s, e)
  {
    match e
    case Acquire(i) => s.(pc := s.pc[i := Holds], lk := i)
    case Release(i) => s.(pc := s.pc[i := Out], lk := -1)
    // the test found the condition false: sleep is called
    case FallFor(i) => s.(pc := s.pc[i := ToSleep])
    case Announce(i) => s.(pc := s.pc[i := MustWake], cond := true)
    case Withdraw(i) => s.(cond := false)
    case LockTable(i) => s.(pc := s.pc[i := if s.pc[i] == ToSleep then Locked else Waking], ptable := i)
    case LetGo(i) => s.(pc := s.pc[i := Released], lk := -1)
    case FallAsleep(i) => s.(pc := s.pc[i := Asleep], ptable := -1)
    case WakeAll(i) => s.(pc := WakeEach(s.pc)[i := Holds], ptable := -1)
    case Kill(i) => s.(pc := s.pc[i := Woken])
  }

  predicate LocksOk(s: State, i: nat)
    requires i < |s.pc|
  {
    && (HasLk(s.pc[i]) <==> s.lk == i)
    && (HasTable(s.pc[i]) <==> s.ptable == i)
    && ((s.pc[i] == ToSleep || s.pc[i] == Locked) ==> !s.cond)
  }

  predicate Announced(s: State) {
    0 <= s.lk < |s.pc| && (s.pc[s.lk] == MustWake || s.pc[s.lk] == Waking)
  }

  /** A process that sleeps, or cannot be stopped from sleeping, does so for a reason, or will be woken by the
      process that holds lk. */
  predicate SleepOk(s: State, i: nat)
    requires i < |s.pc|
  {
    (s.pc[i] == Asleep || s.pc[i] == Released) && s.cond ==> Announced(s)
  }

  ghost predicate Inv(s: State) {
    && -1 <= s.lk < |s.pc| && -1 <= s.ptable < |s.pc|
    && (forall i: nat :: i < |s.pc| ==> LocksOk(s, i))
    && forall i: nat :: i < |s.pc| ==> SleepOk(s, i)
  }

  lemma Keep(s: State, e: Step)
    requires Inv(s) && Enabled(s, e)
    ensures Inv(Next(s, e))
  {
    var r := Next(s, e);
    assert forall j: nat :: j < |s.pc| ==> LocksOk(s, j) && SleepOk(s, j);
    forall j: nat | j < |r.pc|
      ensures LocksOk(r, j) && SleepOk(r, j)
    {
      assert LocksOk(s, j) && SleepOk(s, j) && LocksOk(s, e.i);
      assert s.ptable >= 0 ==> LocksOk(s, s.ptable);
      assert s.lk >= 0 ==> LocksOk(s, s.lk);
    }
  }

  /** A run from a state in which nobody holds a lock or sleeps. */
  ghost predicate Run(ss: seq<State>, es: seq<Step>) {
    && |ss| == |es| + 1 && ss[0].lk == ss[0].ptable == -1
    && (forall i :: 0 <= i < |ss[0].pc| ==> ss[0].pc[i] == Out)
    && forall i :: 0 <= i < |es| ==> Enabled(ss[i], es[i]) && ss[i + 1] == Next(ss[i], es[i])
  }

  lemma {:induction false} RunInv(ss: seq<State>, es: seq<Step>, i: nat)
    requires Run(ss, es) && i < |ss|
    ensures Inv(ss[i])
  {
    if i > 0 {
      RunInv(ss, es, i - 1);
      Keep(ss[i - 1], es[i - 1]);
    }
  }

  /** No wakeup is lost: in no run does a process sleep while the condition holds and lk is free. */
  lemma NoLostWakeup(ss: seq<State>, es: seq<Step>, i: nat, k: nat)
    requires Run(ss, es) && i < |ss| && k < |ss[i].pc|
    ensures ss[i].pc[k] == Asleep && ss[i].lk == -1 ==> !ss[i].cond
  {
    RunInv(ss, es, i);
    assert SleepOk(ss[i], k);
  }
}
