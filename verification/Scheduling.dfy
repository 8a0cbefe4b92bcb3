/**
 The two schedulers of proc.c: the lottery, whose draw goes through random_at_most of rand.c, and the
 round-robin scan.
 */
module Scheduling {
  import opened ProcTable

  // ---- random_at_most ----

  // RAND_MAX + 1: genrand returns 31 bits
  const NUM_RAND: nat := 0x8000_0000

  function BinSize(max: nat): nat {
    NUM_RAND / (max + 1)
  }

  predicate Accepted(max: nat, x: nat) {
    x < NUM_RAND - NUM_RAND % (max + 1)
  }

  /** The loop of random_at_most over the values genrand will return: the first one accepted decides. */
  method RandomAtMost(max: nat, draws: seq<nat>) returns (ok: bool, r: nat, ghost n: nat)
    requires max < NUM_RAND
    ensures ok <==> exists i :: 0 <= i < |draws| && Accepted(max, draws[i])
    ensures ok ==> n < |draws| && Accepted(max, draws[n]) && r == draws[n] / BinSize(max) <= max
    ensures ok ==> forall i :: 0 <= i < n ==> !Accepted(max, draws[i])
  {
    var numBins := max + 1;
    var binSize, defect := NUM_RAND / numBins, NUM_RAND % numBins;
    var i := 0;
    while i < |draws|
      invariant i <= |draws| && forall j :: 0 <= j < i ==> !Accepted(max, draws[j])
    {
      var x := draws[i];
      if !(NUM_RAND - defect <= x) {
        InBin(max, x, x / BinSize(max));
        return true, x / binSize, i;
      }
      i := i + 1;
    }
    ok, r, n := false, 0, 0;
  }

  lemma Bins(max: nat)
    requires max < NUM_RAND
    ensures BinSize(max) > 0 && NUM_RAND - NUM_RAND % (max + 1) == BinSize(max) * (max + 1)
  {
  }

  /** The values that give y are one bin, and all bins have the same size. */
  lemma InBin(max: nat, x: nat, y: nat)
    requires max < NUM_RAND
    ensures BinSize(max) > 0
    ensures Accepted(max, x) && x / BinSize(max) == y <==> y <= max && y * BinSize(max) <= x < (y + 1) * BinSize(max)
  {
    Bins(max);
    var b := BinSize(max);
    Quotient(x, b, y);
    if y <= max && x < (y + 1) * b {
      Monotone(y + 1, max + 1, b);
    }
    if Accepted(max, x) && x / b == y && y > max {
      Monotone(max + 1, y, b);
      assert false;
    }
  }

  lemma Quotient(x: nat, b: nat, y: nat)
    requires b > 0
    ensures x / b == y <==> y * b <= x < (y + 1) * b
  {
    var q := x / b;
    assert x == q * b + x % b;
    if q < y {
      Monotone(q + 1, y, b);
    } else if q > y {
      Monotone(y + 1, q, b);
    }
  }

  lemma Monotone(x: nat, y: nat, b: nat)
    requires x <= y
    ensures x * b <= y * b
  {
  }

  function Upto(n: nat): (s: set<nat>)
    ensures forall x: nat :: x in s <==> x < n
    ensures |s| == n
  {
    if n == 0 then {} else Upto(n - 1) + {n - 1}
  }

  /** A set that is an interval has as many members as the interval is long. */
  lemma IntervalSize(s: set<nat>, lo: nat, hi: nat)
    requires lo <= hi && forall x: nat :: x in s <==> lo <= x < hi
    ensures |s| == hi - lo
  {
    assert s == Upto(hi) - Upto(lo);
    assert Upto(lo) <= Upto(hi);
  }

  /** The values of genrand from which random_at_most makes y. */
  function Draws(max: nat, y: nat): set<nat>
    requires max < NUM_RAND
  {
    Bins(max);
    set x: nat | x < NUM_RAND && Accepted(max, x) && x / BinSize(max) == y
  }

  /** Every y up to max comes from exactly BinSize(max) of the accepted values, and more than half of all
      values are accepted. */
  lemma ExactBins(max: nat, y: nat)
    requires y <= max < NUM_RAND
    ensures |Draws(max, y)| == BinSize(max)
    ensures 2 * (NUM_RAND - NUM_RAND % (max + 1)) > NUM_RAND
  {
    var b := BinSize(max);
    Bins(max);
    forall x: nat
      ensures x in Draws(max, y) <==> y * b <= x < (y + 1) * b
    {
      InBin(max, x, y);
    }
    IntervalSize(Draws(max, y), y * b, (y + 1) * b);
  }

  // ---- the lottery ----

  /** The tickets of the RUNNABLE processes in the first k slots. */
  function Tickets(t: Table, k: nat): nat
    requires k <= |t|
  {
    if k == 0 then 0 else Tickets(t, k - 1) + if t[k - 1].state == RUNNABLE then t[k - 1].ticket else 0
  }

  lemma {:induction false} TicketsGrow(t: Table, j: nat, k: nat)
    requires j <= k <= |t|
    ensures Tickets(t, j) <= Tickets(t, k)
  {
    if j < k {
      TicketsGrow(t, j, k - 1);
    }
  }

  /** The slot that the scan picks for a draw: the first RUNNABLE one whose running sum reaches it. */
  ghost predicate Wins(t: Table, chance: nat, k: nat) {
    && k < |t| && t[k].state == RUNNABLE && chance <= Tickets(t, k + 1)
    && forall j: nat :: j < k && t[j].state == RUNNABLE ==> Tickets(t, j + 1) < chance
  }

  ghost predicate FirstRunnable(t: Table, k: nat) {
    k < |t| && t[k].state == RUNNABLE && forall j: nat :: j < k ==> t[j].state != RUNNABLE
  }

  /** The smallest draw that slot k wins. */
  ghost function Least(t: Table, k: nat): nat
    requires k < |t|
  {
    if FirstRunnable(t, k) then 0 else Tickets(t, k) + 1
  }

  lemma {:induction false} TicketsBefore(t: Table, k: nat)
    requires k < |t| && forall j: nat :: j < k ==> t[j].state != RUNNABLE
    ensures Tickets(t, k) == 0
  {
    if k > 0 {
      TicketsBefore(t, k - 1);
    }
  }

  /** Slot k wins exactly the draws from Least up to its running sum. */
  lemma WinsExactly(t: Table, chance: nat, k: nat)
    requires k < |t| && t[k].state == RUNNABLE
    ensures Wins(t, chance, k) <==> Least(t, k) <= chance <= Tickets(t, k + 1)
  {
    if FirstRunnable(t, k) {
    } else {
      var j := LastRunnable(t, k);
      if Wins(t, chance, k) {
        assert Tickets(t, j + 1) < chance;
      }
      if Tickets(t, k) < chance {
        forall i: nat | i <= k
          ensures Tickets(t, i) < chance
        {
          TicketsGrow(t, i, k);
        }
      }
    }
  }

  /** The last RUNNABLE slot before k: the sum does not change between it and k. */
  lemma {:induction false} LastRunnable(t: Table, k: nat) returns (j: nat)
    requires k < |t| && exists i: nat :: i < k && t[i].state == RUNNABLE
    ensures j < k && t[j].state == RUNNABLE && Tickets(t, j + 1) == Tickets(t, k)
  {
    if t[k - 1].state == RUNNABLE {
      j := k - 1;
    } else {
      j := LastRunnable(t, k - 1);
    }
  }

  /** Every draw up to the total has a winner, if any process is RUNNABLE. */
  lemma {:induction false} SomeoneWins(t: Table, chance: nat, k: nat)
    requires k <= |t| && chance <= Tickets(t, k) && exists i: nat :: i < k && t[i].state == RUNNABLE
    ensures exists w: nat :: Wins(t, chance, w)
  {
    if (exists i: nat :: i < k - 1 && t[i].state == RUNNABLE) && chance <= Tickets(t, k - 1) {
      SomeoneWins(t, chance, k - 1);
    } else {
      var j: nat := k - 1;
      if t[j].state == RUNNABLE {
        forall i: nat | i < j && t[i].state == RUNNABLE
          ensures Tickets(t, i + 1) < chance
        {
          TicketsGrow(t, i + 1, j);
        }
        assert Wins(t, chance, j);
      } else {
        assert false;
      }
    }
  }

  /** One draw has one winner. */
  lemma OneWinner(t: Table, chance: nat, j: nat, k: nat)
    requires Wins(t, chance, j) && Wins(t, chance, k)
    ensures j == k
  {
  }

  /**
   The weights: with the tickets counted on the table that the scan sees, slot k wins as many of the draws from
   0 up to the total as it has tickets, and the first RUNNABLE slot one more.
   */
  lemma TicketWeight(t: Table, k: nat, draws: set<nat>)
    requires k < |t| && t[k].state == RUNNABLE
    requires forall y: nat :: y in draws <==> y <= Tickets(t, |t|) && Wins(t, y, k)
    ensures |draws| == t[k].ticket + if FirstRunnable(t, k) then 1 else 0
  {
    forall y: nat
      ensures y in draws <==> Least(t, k) <= y < Tickets(t, k + 1) + 1
    {
      WinsExactly(t, y, k);
      TicketsGrow(t, k + 1, |t|);
    }
    if FirstRunnable(t, k) {
      TicketsBefore(t, k);
    }
    IntervalSize(draws, Least(t, k), Tickets(t, k + 1) + 1);
  }

  /** The accepted values whose bins are numbered from lo up to hi. */
  lemma BinsSize(max: nat, lo: nat, hi: nat, xs: set<nat>)
    requires max < NUM_RAND && lo <= hi <= max + 1
    requires forall x: nat :: x in xs <==> Accepted(max, x) && lo <= Bin(max, x) < hi
    ensures |xs| == BinSize(max) * (hi - lo)
  {
    var b := BinSize(max);
    Bins(max);
    Monotone(lo, hi, b);
    Monotone(hi, max + 1, b);
    forall x: nat
      ensures x in xs <==> lo * b <= x < hi * b
    {
      Bounds(x, b, lo, hi);
    }
    IntervalSize(xs, lo * b, hi * b);
    Difference(hi, lo, b);
  }

  lemma Difference(hi: nat, lo: nat, b: nat)
    ensures hi * b - lo * b == b * (hi - lo)
  {
  }

  /** What random_at_most makes of an accepted value. */
  function Bin(max: nat, x: nat): nat
    requires max < NUM_RAND
  {
    Bins(max);
    x / BinSize(max)
  }

  /** The same down to the generator: the 31-bit values for which slot k is picked. */
  lemma GeneratorWeight(t: Table, k: nat, xs: set<nat>)
    requires k < |t| && t[k].state == RUNNABLE && Tickets(t, |t|) < NUM_RAND
    requires forall x: nat :: x in xs <==> Accepted(Tickets(t, |t|), x) && Wins(t, Bin(Tickets(t, |t|), x), k)
    ensures |xs| == BinSize(Tickets(t, |t|)) * (t[k].ticket + if FirstRunnable(t, k) then 1 else 0)
  {
    var max := Tickets(t, |t|);
    var lo, hi := Least(t, k), Tickets(t, k + 1) + 1;
    TicketsGrow(t, k + 1, |t|);
    if FirstRunnable(t, k) {
      TicketsBefore(t, k);
    }
    forall x: nat
      ensures x in xs <==> Accepted(max, x) && lo <= Bin(max, x) < hi
    {
      WinsExactly(t, Bin(max, x), k);
    }
    BinsSize(max, lo, hi, xs);
  }

  lemma Bounds(x: nat, b: nat, lo: nat, hi: nat)
    requires b > 0
    ensures lo <= x / b < hi <==> lo * b <= x < hi * b
  {
    var q := x / b;
    Quotient(x, b, q);
    if lo <= q {
      Monotone(lo, q, b);
    } else {
      Monotone(q + 1, lo, b);
    }
    if q < hi {
      Monotone(q + 1, hi, b);
    } else {
      Monotone(hi, q, b);
    }
  }

  // ---- the scans ----

  class Cpu {
    const proc: array<Proc>

    /** The first loop of the lottery's scheduler. */
    method CountTickets() returns (total: nat)
      ensures total == Tickets(proc[..], proc.Length)
    {
      total := 0;
      var i := 0;
      while i < proc.Length
        invariant i <= proc.Length && total == Tickets(proc[..], i)
      {
        if proc[i].state == RUNNABLE {
          total := proc[i].ticket + total;
        }
        i := i + 1;
      }
    }

    /**
     The process in slot i runs, and gives the CPU back.  Meanwhile everything may have happened to the table:
     what it is like then is an input.
     */
    method Run(i: nat, env: Table)
      requires i < proc.Length && |env| == proc.Length
      modifies proc
      ensures proc[..] == env
    {
      proc[i] := proc[i].(state := RUNNING);
      forall j | 0 <= j < proc.Length {
        proc[j] := env[j];
      }
    }

    /**
     One pass of the lottery's second loop.  saw says which slots were RUNNABLE when the scan came to them, ran
     which of them were dispatched: from the winner on, every one that was RUNNABLE, because the draw counts as
     0 once a process has run.
     */
    method LotteryPass(draw: nat, env: seq<Table>) returns (saw: seq<bool>, ran: seq<bool>)
      requires |env| == proc.Length && forall i :: 0 <= i < |env| ==> |env[i]| == proc.Length
      modifies proc
      ensures |saw| == |ran| == proc.Length
      ensures forall k: nat :: k < |ran| ==> (ran[k] <==> saw[k] && Reached(old(proc[..]), draw, k))
      ensures forall k: nat :: k < |ran| && !Reached(old(proc[..]), draw, k) ==>
        (saw[k] <==> old(proc[k]).state == RUNNABLE)
    {
      var chance, passed := draw, 0;
      ghost var t := proc[..];
      // the winner, once it has run
      ghost var w: int := -1;
      saw, ran := [], [];
      var i := 0;
      while i < proc.Length
        invariant i <= proc.Length && |saw| == |ran| == i
        invariant w == -1 ==> proc[..] == t && chance == draw && passed == Tickets(t, i) && Short(t, draw, i)
        invariant w != -1 ==> 0 <= w < i && Wins(t, draw, w) && chance == passed == 0
        invariant forall k: nat :: k < i ==> (ran[k] <==> saw[k] && 0 <= w <= k)
        invariant forall k: nat :: k < i && !(0 <= w <= k) ==> (saw[k] <==> t[k].state == RUNNABLE)
      {
        saw := saw + [proc[i].state == RUNNABLE];
        if proc[i].state != RUNNABLE {
          ran := ran + [false];
        } else if passed + proc[i].ticket < chance {
          ran := ran + [false];
          passed := passed + proc[i].ticket;
        } else {
          ran := ran + [true];
          w := if w == -1 then i else w;
          Run(i, env[i]);
          chance, passed := 0, 0;
        }
        i := i + 1;
      }
      forall k: nat | k < |ran|
        ensures Reached(t, draw, k) <==> 0 <= w <= k
      {
        if Reached(t, draw, k) {
          var v: nat :| v <= k && Wins(t, draw, v);
          assert w >= 0 && v == w;
        }
      }
    }
  }

  /** No slot below i is the winner. */
  ghost predicate Short(t: Table, draw: nat, i: nat)
    requires i <= |t|
  {
    forall j: nat :: j < i && t[j].state == RUNNABLE ==> Tickets(t, j + 1) < draw
  }

  /** Slot k is the winner, or comes after it. */
  ghost predicate Reached(t: Table, draw: nat, k: nat) {
    exists w: nat :: w <= k && Wins(t, draw, w)
  }

  /** The slot that is n < NPROC turns of the scan after slot i. */
  function Around(i: nat, n: nat): (s: nat)
    requires i < NPROC && n < NPROC
    ensures s < NPROC
  {
    if i + n < NPROC then i + n else i + n - NPROC
  }

  /** How many turns of the scan, from slot i round the table, come before slot q. */
  function Away(i: nat, q: nat): (n: nat)
    requires i < NPROC && q < NPROC
    ensures n < NPROC && Around(i, n) == q
  {
    if i <= q then q - i else NPROC - i + q
  }

  lemma Turns(i: nat, n: nat, q: nat)
    requires i < NPROC && n < NPROC && q < NPROC
    ensures Around(i, 0) == i
    ensures Around(i, n) == q <==> n == Away(i, q)
    ensures n + 1 < NPROC ==> Around(i, n + 1) == if Around(i, n) + 1 < NPROC then Around(i, n) + 1 else 0
  {
  }

  function Trues(bs: seq<bool>): (n: nat)
    ensures n <= |bs|
  {
    if bs == [] then 0 else Trues(bs[..|bs| - 1]) + if bs[|bs| - 1] then 1 else 0
  }

  lemma TruesSnoc(bs: seq<bool>, b: bool)
    ensures Trues(bs + [b]) == Trues(bs) + if b then 1 else 0
  {
    assert (bs + [b])[..|bs|] == bs;
  }

  /**
   The round-robin scheduler of one CPU, from slot `start` until it dispatches the process in slot q, which stays
   RUNNABLE meanwhile.  What the table is like at each turn of the scan is an input, and need not have anything
   to do with what it was at the turn before.  The scan comes round to q in fewer than NPROC turns, and at each
   of them dispatches the process whose slot it is, if it is RUNNABLE then.
   */
  method RoundRobin(start: nat, q: nat, env: nat -> Table) returns (ran: seq<bool>, others: nat)
    requires start < NPROC && q < NPROC
    requires forall n :: |env(n)| == NPROC && env(n)[q].state == RUNNABLE
    ensures |ran| == Away(start, q) < NPROC
    ensures forall n: nat :: n < |ran| ==> (ran[n] <==> env(n)[Around(start, n)].state == RUNNABLE)
    ensures others == Trues(ran) < NPROC
  {
    hide Around, Away, Trues;
    var p, n: nat := start, 0;
    ran, others := [], 0;
    Turns(start, 0, q);
    while true
      invariant 0 <= p <= NPROC && n == |ran| <= Away(start, q)
      invariant Around(start, n) == if p < NPROC then p else 0
      invariant others == Trues(ran)
      invariant forall k: nat :: k < n ==> (ran[k] <==> env(k)[Around(start, k)].state == RUNNABLE)
      decreases Away(start, q) - n, if p < NPROC then 0 else 1
    {
      Turns(start, n, q);
      if p < NPROC {
        var runnable := env(n)[p].state == RUNNABLE;
        if runnable {
          if p == q {
            return;
          }
          others := others + 1;
        }
        TruesSnoc(ran, runnable);
        ran := ran + [runnable];
        p := p + 1;
        n := n + 1;
      } else {
        p := 0;
      }
    }
  }
}
