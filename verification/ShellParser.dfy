/**
 The parser of sh.c in its own form: methods that advance the cursor over the line, and nulterminate, which
 writes into it.
 */
module ShellParser {
  import opened Common
  import opened Shell
  import opened ShellRoundTrip
  import opened ShellWords
  import opened ShellGrammar

  class Parser {
    // the line and its NUL
    const buf: array<char>
    var s: nat

    /** The line, without its NUL. */
    ghost predicate Holds(b: string)
      reads this, buf
    {
      NoNul(b) && buf[..] == b + [NUL] && s <= |b|
    }

    method SkipSpace(ghost b: string)
      requires Holds(b)
      modifies this`s
      ensures Holds(b) && s == Skip(b, old(s))
    {
      while s < buf.Length - 1 && IsSpace(buf[s])
        invariant Holds(b) && Skip(b, s) == Skip(b, old(s))
      {
        s := s + 1;
      }
    }

    /** peek. */
    method Look(toks: set<char>, ghost b: string) returns (r: bool)
      requires Holds(b) && NUL !in toks
      modifies this`s
      ensures Holds(b) && s == Skip(b, old(s)) && r == Peek(b, s, toks)
    {
      SkipSpace(b);
      r := buf[s] != NUL && buf[s] in toks;
    }

    /** gettoken. */
    method Get(ghost b: string) returns (tok: char, q: nat, eq: nat)
      requires Holds(b)
      modifies this`s
      ensures Holds(b) && Got(tok, q, eq, s) == GetToken(b, Skip(b, old(s)))
    {
      SkipSpace(b);
      q := s;
      tok := buf[s];
      if tok == NUL {
      } else if tok == '>' {
        s := s + 1;
        if buf[s] == '>' {
          tok := '+';
          s := s + 1;
        }
      } else if IsSymbol(tok) {
        s := s + 1;
      } else {
        tok := 'a';
        while s < buf.Length - 1 && IsWordChar(buf[s])
          invariant Holds(b) && q <= s && WordEnd(b, s) == WordEnd(b, q)
        {
          s := s + 1;
        }
      }
      eq := s;
      SkipSpace(b);
    }

    method TakeRedirs(cmd: Cmd<Tok>, ghost b: string) returns (r: Parse)
      requires Holds(b)
      modifies this`s
      ensures Holds(b) && r == Redirs(b, Skip(b, old(s)), cmd) && (r.Ok? ==> s == r.pos)
    {
      var c := cmd;
      var more := Look({'<', '>'}, b);
      while more
        invariant Holds(b) && s == Skip(b, s) && more == Peek(b, s, {'<', '>'})
        invariant Redirs(b, s, c) == Redirs(b, Skip(b, old(s)), cmd)
        decreases |b| - s
      {
        var tok, q, eq := Get(b);
        var tok', q', eq' := Get(b);
        if tok' != 'a' {
          return Panic(MissingFile);
        }
        c := Redir(c, Tok(q', eq'), if tok == '<' then Read else Write);
        more := Look({'<', '>'}, b);
      }
      r := Ok(c, s);
    }

    method TakeExec(ghost b: string) returns (r: Parse)
      requires Holds(b)
      modifies this`s
      ensures Holds(b) && r == ParseExec(b, Skip(b, old(s))) && (r.Ok? ==> s == r.pos)
      ensures Derived(b, Skip(b, old(s)), r)
      decreases |b| - Skip(b, s), 1
    {
      UnitDerived(b, Skip(b, s));
      hide Redirs, ParseBlock, GetToken, Derived;
      var block := Look({'('}, b);
      if block {
        r := TakeBlock(b);
        return;
      }
      r := TakeRedirs(Exec([]), b);
      if r.Panic? {
        return;
      }
      var ret, argc := r.cmd, 0;
      var stop := Look({'|', ')', '&', ';'}, b);
      while !stop
        invariant Holds(b) && s == Skip(b, s) && stop == Peek(b, s, {'|', ')', '&', ';'})
        invariant Args(b, s, ret, argc) == ParseExec(b, Skip(b, old(s)))
        decreases |b| - s, if stop then 0 else 1
      {
        var tok, q, eq := Get(b);
        if tok == NUL {
          break;
        }
        if tok != 'a' {
          return Panic(Syntax);
        }
        ret := AddArg(ret, Tok(q, eq));
        argc := argc + 1;
        if argc >= MAXARGS {
          return Panic(TooManyArgs);
        }
        r := TakeRedirs(ret, b);
        if r.Panic? {
          return;
        }
        ret := r.cmd;
        stop := Look({'|', ')', '&', ';'}, b);
      }
      r := Ok(ret, s);
    }

    method TakeBlock(ghost b: string) returns (r: Parse)
      requires Holds(b) && s == Skip(b, s) && Peek(b, s, {'('})
      modifies this`s
      ensures Holds(b) && r == ParseBlock(b, old(s)) && (r.Ok? ==> s == r.pos)
      decreases |b| - s, 0
    {
      var tok, q, eq := Get(b);
      r := TakeLine(b);
      if r.Panic? {
        return;
      }
      var close := Look({')'}, b);
      if !close {
        return Panic(MissingParen);
      }
      tok, q, eq := Get(b);
      r := TakeRedirs(r.cmd, b);
    }

    method TakePipe(ghost b: string) returns (r: Parse)
      requires Holds(b)
      modifies this`s
      ensures Holds(b) && r == ParsePipe(b, Skip(b, old(s))) && (r.Ok? ==> s == r.pos)
      decreases |b| - Skip(b, s), 2
    {
      r := TakeExec(b);
      if r.Panic? {
        return;
      }
      var more := Look({'|'}, b);
      if more {
        var left := r.cmd;
        var tok, q, eq := Get(b);
        r := TakePipe(b);
        if r.Ok? {
          r := Ok(Pipe(left, r.cmd), r.pos);
        }
      }
    }

    method TakeLine(ghost b: string) returns (r: Parse)
      requires Holds(b)
      modifies this`s
      ensures Holds(b) && r == ParseLine(b, Skip(b, old(s))) && (r.Ok? ==> s == r.pos)
      decreases |b| - Skip(b, s), 4
    {
      r := TakePipe(b);
      if r.Panic? {
        return;
      }
      var cmd := r.cmd;
      var more := Look({'&'}, b);
      while more
        invariant Holds(b) && s == Skip(b, s) && Skip(b, old(s)) <= s && more == Peek(b, s, {'&'})
        invariant Amps(b, s, cmd) == ParseBack(b, Skip(b, old(s)))
        decreases |b| - s
      {
        var tok, q, eq := Get(b);
        cmd := Back(cmd);
        more := Look({'&'}, b);
      }
      more := Look({';'}, b);
      r := Ok(cmd, s);
      if more {
        var tok, q, eq := Get(b);
        r := TakeLine(b);
        if r.Ok? {
          r := Ok(List(cmd, r.cmd), r.pos);
        }
      }
    }

    /** nulterminate: one NUL at the end of each word of the tree. */
    method Nulterminate(cmd: Cmd<Tok>)
      requires forall e :: e in Ends(cmd) ==> e < buf.Length
      modifies buf
      ensures forall k :: 0 <= k < buf.Length ==> buf[k] == if k in Ends(cmd) then NUL else old(buf[k])
      decreases cmd
    {
      match cmd
      case Exec(argv) =>
        var i := 0;
        while i < |argv|
          invariant i <= |argv|
          invariant forall k :: 0 <= k < buf.Length ==>
            buf[k] == if exists j :: 0 <= j < i && argv[j].eq == k then NUL else old(buf[k])
        {
          assert argv[i].eq in Ends(cmd);
          buf[argv[i].eq] := NUL;
          i := i + 1;
        }
      case Redir(c, file, mode) =>
        assert Ends(cmd) == Ends(c) + {file.eq};
        Nulterminate(c);
        buf[file.eq] := NUL;
      case Pipe(left, right) =>
        assert Ends(cmd) == Ends(left) + Ends(right);
        Nulterminate(left);
        Nulterminate(right);
      case List(left, right) =>
        assert Ends(cmd) == Ends(left) + Ends(right);
        Nulterminate(left);
        Nulterminate(right);
      case Back(c) =>
        assert Ends(cmd) == Ends(c);
        Nulterminate(c);
    }

    /** parsecmd: the tree of the line, whose words are then C strings in the buffer. */
    method Parsecmd(ghost b: string) returns (r: Parse)
      requires Holds(b) && s == 0
      modifies this`s, buf
      ensures r == ParseCmd(b) && (r.Ok? ==> r.pos == |b|)
      ensures forall c :: r == Ok(c, |b|) <==> LineOf(Line(b), c)
      ensures r.Panic? ==> buf[..] == old(buf[..])
      ensures r.Ok? ==> Terminated(b, r.cmd, buf[..])
      ensures r.Ok? ==> forall t :: t in Words(r.cmd) ==> t.q <= |buf[..]| && CString(buf[..], t.q) == WordText(b, t)
    {
      hide LineOf, Lex;
      forall c
        ensures ParseCmd(b) == Ok(c, |b|) <==> LineOf(Line(b), c)
      {
        ParseExact(b, c);
      }
      r := TakeLine(b);
      if r.Panic? {
        return;
      }
      var nothing := Look({}, b);
      if s != buf.Length - 1 {
        return Panic(Leftovers);
      }
      ParseSound(b);
      WordsSound(b, r.cmd);
      Nulterminate(r.cmd);
      forall t | t in Words(r.cmd)
        ensures t.q <= |buf[..]| && CString(buf[..], t.q) == WordText(b, t)
      {
        TerminatedWords(b, r.cmd, buf[..], t);
      }
    }
  }
}
