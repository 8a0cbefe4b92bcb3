/**
 Readers and writers of a pipe of pipe.c that sleep and wake each other, with the bytes in the pipe counted.
 A step is the stretch of pipewrite or piperead between two moments at which the pipe's lock is free.
 */
module PipeProtocol {
  import opened Common

  const PIPESIZE: nat := 512

  /** pending: bytes in the pipe; readers, writers: the processes asleep on nread and on nwrite. */
  datatype State = State(pending: nat, readopen: bool, writeopen: bool, readers: set<nat>, writers: set<nat>)

  datatype Step =
    // a stretch of pipewrite by process p with m bytes left; a stretch of piperead that wants n bytes
    | Write(p: nat, m: nat, killed: bool)
    | Read(p: nat, n: nat, killed: bool)
    | CloseRead
    | CloseWrite
    // kill wakes a sleeping process
    | Kill(p: nat)

  predicate Enabled(s: State, e: Step) {
    match e
    case Write(p, _, _) => p !in s.readers && p !in s.writers && s.writeopen
    case Read(p, _, _) => p !in s.readers && p !in s.writers && s.readopen
    // a process asleep in piperead or pipewrite still has that end open
    case CloseRead => s.readers == {}
    case CloseWrite => s.writers == {}
    case Kill(_) => true
  }

  function Next(s: State, e: Step): State
    requires Enabled(s, e) && s.pending <= PIPESIZE
  {
    match e
    case Write(p, m, killed) =>
      var stored := Min(m, PIPESIZE - s.pending);
      var r := s.(pending := s.pending + stored);
      if stored == m then r.(readers := {})
      else if !s.readopen || killed then r
      else r.(readers := {}, writers := r.writers + {p})
    case Read(p, n, killed) =>
      if s.pending == 0 && s.writeopen then (if killed then s else s.(readers := s.readers + {p}))
      else s.(pending := s.pending - Min(n, s.pending), writers := {})
    case CloseRead => s.(readopen := false, writers := {})
    case CloseWrite => s.(writeopen := false, readers := {})
    case Kill(p) => s.(readers := s.readers - {p}, writers := s.writers - {p})
  }

  /** A process that has been killed does not stay asleep, and no other is woken for it. */
  lemma KilledWakes(s: State, p: nat)
    requires s.pending <= PIPESIZE
    ensures var r := Next(s, Kill(p));
      && p !in r.readers && p !in r.writers && r.pending == s.pending
      && r.readopen == s.readopen && r.writeopen == s.writeopen
      && forall q :: q != p ==> (q in r.readers <==> q in s.readers) && (q in r.writers <==> q in s.writers)
  {
  }

  /** Nobody sleeps for nothing: readers only at an empty pipe, writers only at a full one, and both only while both
      ends are open. */
  predicate Inv(s: State) {
    && s.pending <= PIPESIZE
    && (s.readers != {} ==> s.pending == 0 && s.readopen && s.writeopen)
    && (s.writers != {} ==> s.pending == PIPESIZE && s.readopen && s.writeopen)
  }

  /** A writer that has been killed fills the pipe and returns without a wakeup, while readers sleep. */
  predicate Strands(s: State, e: Step) {
    e.Write? && e.killed && e.m > PIPESIZE && s.readers != {}
  }

  /** Every step keeps that, except exactly the ones that strand readers. */
  lemma Keep(s: State, e: Step)
    requires Inv(s) && Enabled(s, e)
    ensures Inv(Next(s, e)) <==> !Strands(s, e)
  {
    assert e.Read? ==> e.p in s.readers + {e.p};
  }

  ghost predicate Run(ss: seq<State>, es: seq<Step>) {
    && |ss| == |es| + 1 && ss[0] == State(0, true, true, {}, {})
    && forall i :: 0 <= i < |es| ==>
         ss[i].pending <= PIPESIZE && Enabled(ss[i], es[i]) && ss[i + 1] == Next(ss[i], es[i])
  }

  /** In a run in which no failing writer strands a reader, nobody ever sleeps for nothing. */
  lemma {:induction false} RunInv(ss: seq<State>, es: seq<Step>, i: nat)
    requires Run(ss, es) && i < |ss| && forall j :: 0 <= j < i ==> !Strands(ss[j], es[j])
    ensures Inv(ss[i])
  {
    if i > 0 {
      RunInv(ss, es, i - 1);
      Keep(ss[i - 1], es[i - 1]);
    }
  }

  /** In state i of a run a reader sleeps beside data, with the writer that put it there gone. */
  ghost predicate Stranded(ss: seq<State>, es: seq<Step>, i: nat, p: nat) {
    Run(ss, es) && i < |ss| && p in ss[i].readers && ss[i].pending == PIPESIZE && ss[i].writers == {}
  }

  /** A reader goes to sleep, and a writer of 513 bytes that is killed meanwhile strands it. */
  lemma StrandReachable()
    ensures exists ss: seq<State>, es: seq<Step> ::
      Stranded(ss, es, 2, 0) && |es| == 2 && Strands(ss[1], es[1])
  {
    var s0 := State(0, true, true, {}, {});
    var s1 := Next(s0, Read(0, 1, false));
    var s2 := Next(s1, Write(1, PIPESIZE + 1, true));
    var ss, es := [s0, s1, s2], [Read(0, 1, false), Write(1, PIPESIZE + 1, true)];
    assert Stranded(ss, es, 2, 0) && |es| == 2 && Strands(ss[1], es[1]);
  }
}

/**
 The ring of PIPESIZE bytes of pipe.c, between counters that wrap at 2^32.  Its methods are the steps of the
 protocol, with the bytes.
 */
module Pipe {
  import opened Common
  import opened PipeProtocol

  const WORD: nat := 0x1_0000_0000

  /** Counters count modulo 2^32, which is enough to tell a full pipe from an empty one. */
  lemma Counters(sent: nat, got: nat)
    requires got <= sent <= got + PIPESIZE
    ensures sent % WORD == (got % WORD + PIPESIZE) % WORD <==> sent == got + PIPESIZE
    ensures sent % WORD == got % WORD <==> sent == got
    ensures (sent % WORD - got % WORD) % WORD == sent - got
  {
    var d := sent - got;
    var g := got % WORD;
    assert sent == got / WORD * WORD + (g + d);
    if g + d < WORD {
      Remainder(sent, got / WORD, g + d);
    } else {
      Remainder(sent, got / WORD + 1, g + d - WORD);
    }
    if g + PIPESIZE < WORD {
      Remainder(g + PIPESIZE, 0, g + PIPESIZE);
    } else {
      Remainder(g + PIPESIZE, 1, g + PIPESIZE - WORD);
    }
  }

  lemma Remainder(x: nat, q: nat, r: nat)
    requires x == q * WORD + r && r < WORD
    ensures x % WORD == r
  {
  }

  /** Wrapping leaves the place in the ring alone, because PIPESIZE divides 2^32. */
  lemma Slot(x: nat)
    ensures x % WORD % PIPESIZE == x % PIPESIZE
  {
  }

  lemma Successor(x: nat)
    ensures (x % WORD + 1) % WORD == (x + 1) % WORD
  {
  }

  /** Two of PIPESIZE consecutive bytes have different places. */
  lemma Places(x: nat, y: nat)
    requires x < y < x + PIPESIZE
    ensures x % PIPESIZE != y % PIPESIZE
  {
  }

  datatype Outcome = Done | Sleeps | Fails

  class Buffer {
    const data: array<byte>
    var nread: nat
    var nwrite: nat
    var readopen: bool
    var writeopen: bool
    // the processes asleep on nread and on nwrite
    var readers: set<nat>
    var writers: set<nat>
    // everything ever stored, and everything ever delivered
    ghost var sent: seq<byte>
    ghost var got: seq<byte>

    /** What has been delivered is a prefix of what has been stored, and the ring holds the rest. */
    ghost predicate Valid()
      reads this, data
    {
      && data.Length == PIPESIZE
      && |got| <= |sent| <= |got| + PIPESIZE && got == sent[..|got|]
      && nread == |got| % WORD && nwrite == |sent| % WORD
      && forall k: nat :: |got| <= k < |sent| ==> data[k % PIPESIZE] == sent[k]
    }

    /** The state of the protocol. */
    ghost function View(): (s: State)
      requires Valid()
      reads this, data
      ensures s.pending <= PIPESIZE
    {
      State(|sent| - |got|, readopen, writeopen, readers, writers)
    }

    /** pipealloc. */
    constructor ()
      ensures Valid() && sent == got == [] && View() == State(0, true, true, {}, {})
      ensures fresh(data)
    {
      data := new byte[PIPESIZE](_ => 0);
      nread, nwrite, readopen, writeopen := 0, 0, true, true;
      readers, writers := {}, {};
      sent, got := [], [];
    }

    method Put(x: byte)
      requires Valid() && |sent| < |got| + PIPESIZE
      modifies this`nwrite, this`sent, data
      ensures Valid() && sent == old(sent) + [x]
    {
      Slot(|sent|);
      Successor(|sent|);
      forall k: nat | |got| <= k < |sent|
        ensures k % PIPESIZE != |sent| % PIPESIZE
      {
        Places(k, |sent|);
      }
      data[nwrite % PIPESIZE] := x;
      nwrite := (nwrite + 1) % WORD;
      sent := sent + [x];
    }

    method Take() returns (x: byte)
      requires Valid() && |got| < |sent|
      modifies this`nread, this`got
      ensures Valid() && got == old(got) + [x] && x == sent[|old(got)|]
    {
      Slot(|got|);
      Successor(|got|);
      x := data[nread % PIPESIZE];
      nread := (nread + 1) % WORD;
      got := got + [x];
    }

    /** sleep and wakeup on the pipe's two channels. */
    method SleepToWrite(p: nat)
      modifies this`writers
      ensures writers == old(writers) + {p}
    {
      writers := writers + {p};
    }

    method SleepToRead(p: nat)
      modifies this`readers
      ensures readers == old(readers) + {p}
    {
      readers := readers + {p};
    }

    /**
     pipewrite by process p from byte i on, until it is done, or the pipe is full: then it fails, if nobody can
     read or p has been killed, or wakes the readers and sleeps.
     */
    method Pipewrite(p: nat, addr: seq<byte>, i: nat, killed: bool) returns (o: Outcome, j: nat)
      requires Valid() && i <= |addr| && Enabled(View(), Write(p, |addr| - i, killed))
      modifies this`nwrite, this`sent, this`readers, this`writers, data
      ensures Valid() && View() == Next(old(View()), Write(p, |addr| - i, killed))
      ensures i <= j <= |addr| && sent == old(sent) + addr[i..j]
      ensures o.Done? <==> j == |addr|
      ensures !o.Done? ==> |sent| == |got| + PIPESIZE && (o.Fails? <==> !readopen || killed)
      ensures readers == if o.Fails? then old(readers) else {}
      ensures writers == if o.Sleeps? then old(writers) + {p} else old(writers)
    {
      ghost var was := View();
      j := i;
      while j < |addr|
        invariant Valid() && i <= j <= |addr| && sent == old(sent) + addr[i..j]
        invariant readers == was.readers && writers == was.writers
      {
        Counters(|sent|, |got|);
        if nwrite == (nread + PIPESIZE) % WORD {
          if !readopen || killed {
            return Fails, j;
          }
          readers := {};
          SleepToWrite(p);
          return Sleeps, j;
        }
        Put(addr[j]);
        assert addr[i..j + 1] == addr[i..j] + [addr[j]];
        j := j + 1;
      }
      readers := {};
      o := Done;
    }

    /**
     piperead by process p: as long as the pipe is empty and has a writer it fails, if p has been killed, or
     sleeps; otherwise it takes what is there and wakes the writers.
     */
    method Piperead(p: nat, n: nat, killed: bool) returns (o: Outcome, addr: seq<byte>)
      requires Valid() && Enabled(View(), Read(p, n, killed))
      modifies this`nread, this`got, this`readers, this`writers
      ensures Valid() && View() == Next(old(View()), Read(p, n, killed))
      ensures got == old(got) + addr && addr == sent[|old(got)|..|got|]
      ensures o.Done? ==> |addr| == Min(n, |sent| - |old(got)|)
      ensures !o.Done? <==> |sent| == |old(got)| && writeopen
      ensures !o.Done? ==> addr == [] && (o.Fails? <==> killed)
      ensures writers == if o.Done? then {} else old(writers)
      ensures readers == if o.Sleeps? then old(readers) + {p} else old(readers)
    {
      addr := [];
      Counters(|sent|, |got|);
      if nread == nwrite && writeopen {
        if killed {
          return Fails, addr;
        }
        SleepToRead(p);
        return Sleeps, addr;
      }
      var i := 0;
      while i < n
        invariant Valid() && i == |addr| <= n && got == old(got) + addr
        invariant readers == old(readers) && writers == old(writers)
      {
        Counters(|sent|, |got|);
        if nread == nwrite {
          break;
        }
        var x := Take();
        addr := addr + [x];
        i := i + 1;
      }
      writers := {};
      o := Done;
    }

    /** pipeclose: the memory of the pipe is released when both ends are closed. */
    method Pipeclose(writable: bool) returns (release: bool)
      requires Valid() && Enabled(View(), if writable then CloseWrite else CloseRead)
      modifies this`readopen, this`writeopen, this`readers, this`writers
      ensures Valid() && View() == Next(old(View()), if writable then CloseWrite else CloseRead)
      ensures release <==> !readopen && !writeopen
      ensures writeopen == (old(writeopen) && !writable) && readopen == (old(readopen) && writable)
      ensures readers == (if writable then {} else old(readers)) && writers == if writable then old(writers) else {}
    {
      if writable {
        writeopen := false;
        readers := {};
      } else {
        readopen := false;
        writers := {};
      }
      release := !readopen && !writeopen;
    }
  }
}
