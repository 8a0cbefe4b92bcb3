/**
 The words that the parser of sh.c leaves as places in the line: each is a maximal run of word characters, so
 that any two are apart, and writing a NUL at the end of each spoils none.
 */
module ShellWords {
  import opened Common
  import opened Shell
  import opened ShellRoundTrip

  /** A maximal run of word characters. */
  predicate WordTok(b: string, t: Tok) {
    && t.q < t.eq <= |b|
    && (forall k :: t.q <= k < t.eq ==> IsWordChar(b[k]))
    && (t.q > 0 ==> !IsWordChar(b[t.q - 1]))
    && (t.eq < |b| ==> !IsWordChar(b[t.eq]))
  }

  /** Position i is not inside a word. */
  predicate Boundary(b: string, i: nat) {
    Settled(b, i) && (0 < i < |b| && IsWordChar(b[i]) ==> !IsWordChar(b[i - 1]))
  }

  predicate WordToks(b: string, ts: seq<Tok>) {
    forall i :: 0 <= i < |ts| ==> WordTok(b, ts[i])
  }

  /** All words of a command are words of the line, and no command has too many arguments. */
  predicate Sound(b: string, c: Cmd<Tok>) {
    match c
    case Exec(argv) => WordToks(b, argv) && |argv| < MAXARGS
    case Redir(d, f, _) => WordTok(b, f) && Sound(b, d)
    case Pipe(l, r) => Sound(b, l) && Sound(b, r)
    case Back(d) => Sound(b, d)
    case List(l, r) => Sound(b, l) && Sound(b, r)
  }

  predicate SoundParse(b: string, r: Parse) {
    r.Ok? ==> Sound(b, r.cmd) && Boundary(b, r.pos)
  }

  lemma GetSound(b: string, i: nat)
    requires Boundary(b, i)
    ensures var g := GetToken(b, i);
      Boundary(b, g.next) && (g.tok == 'a' ==> WordTok(b, Tok(g.q, g.eq)))
  {
  }

  lemma {:induction false} RedirsSound(b: string, i: nat, c: Cmd<Tok>)
    requires Boundary(b, i) && Sound(b, c)
    ensures SoundParse(b, Redirs(b, i, c))
    ensures Redirs(b, i, c).Ok? ==>
      IsExec(Redirs(b, i, c).cmd) == IsExec(c) && Argc(Redirs(b, i, c).cmd) == Argc(c)
    decreases |b| - i
  {
    if Peek(b, i, {'<', '>'}) {
      GetSound(b, i);
      var g := GetToken(b, i);
      GetSound(b, g.next);
      var h := GetToken(b, g.next);
      if h.tok == 'a' {
        RedirsSound(b, h.next, Redir(c, Tok(h.q, h.eq), if g.tok == '<' then Read else Write));
      }
    }
  }

  lemma {:induction false} AddArgSound(b: string, c: Cmd<Tok>, t: Tok)
    requires Sound(b, c) && IsExec(c) && WordTok(b, t) && Argc(c) + 1 < MAXARGS
    ensures Sound(b, AddArg(c, t)) && IsExec(AddArg(c, t)) && Argc(AddArg(c, t)) == Argc(c) + 1
  {
    if c.Redir? {
      AddArgSound(b, c.cmd, t);
    }
  }

  lemma {:induction false} ArgsSound(b: string, i: nat, c: Cmd<Tok>)
    requires Boundary(b, i) && Sound(b, c) && IsExec(c)
    ensures SoundParse(b, Args(b, i, c, Argc(c)))
    decreases |b| - i
  {
    hide Redirs, AddArg, Sound, WordEnd, Skip, WordTok, Peek;
    GetSound(b, i);
    var g := GetToken(b, i);
    if !Peek(b, i, {'|', ')', '&', ';'}) && g.tok == 'a' && Argc(c) + 1 < MAXARGS {
      AddArgSound(b, c, Tok(g.q, g.eq));
      RedirsSound(b, g.next, AddArg(c, Tok(g.q, g.eq)));
      var r := Redirs(b, g.next, AddArg(c, Tok(g.q, g.eq)));
      if r.Ok? {
        ArgsSound(b, r.pos, r.cmd);
      }
    }
  }

  lemma {:induction false} ExecSound(b: string, i: nat)
    requires Boundary(b, i)
    ensures SoundParse(b, ParseExec(b, i))
    decreases |b| - i, 1
  {
    if Peek(b, i, {'('}) {
      GetSound(b, i);
      LineSound(b, GetToken(b, i).next);
      var r := ParseLine(b, GetToken(b, i).next);
      if r.Ok? && Peek(b, r.pos, {')'}) {
        GetSound(b, r.pos);
        RedirsSound(b, GetToken(b, r.pos).next, r.cmd);
      }
    } else {
      RedirsSound(b, i, Exec([]));
      var r := Redirs(b, i, Exec([]));
      if r.Ok? {
        ArgsSound(b, r.pos, r.cmd);
      }
    }
  }

  lemma {:induction false} PipeSound(b: string, i: nat)
    requires Boundary(b, i)
    ensures SoundParse(b, ParsePipe(b, i))
    decreases |b| - i, 2
  {
    ExecSound(b, i);
    var r := ParseExec(b, i);
    if r.Ok? && Peek(b, r.pos, {'|'}) {
      GetSound(b, r.pos);
      PipeSound(b, GetToken(b, r.pos).next);
    }
  }

  lemma {:induction false} AmpsSound(b: string, i: nat, c: Cmd<Tok>)
    requires Boundary(b, i) && Sound(b, c)
    ensures SoundParse(b, Amps(b, i, c))
    decreases |b| - i
  {
    if Peek(b, i, {'&'}) {
      GetSound(b, i);
      AmpsSound(b, GetToken(b, i).next, Back(c));
    }
  }

  lemma {:induction false} LineSound(b: string, i: nat)
    requires Boundary(b, i)
    ensures SoundParse(b, ParseLine(b, i))
    decreases |b| - i, 4
  {
    PipeSound(b, i);
    var r := ParsePipe(b, i);
    if r.Ok? {
      AmpsSound(b, r.pos, r.cmd);
      var l := Amps(b, r.pos, r.cmd);
      if Peek(b, l.pos, {';'}) {
        GetSound(b, l.pos);
        LineSound(b, GetToken(b, l.pos).next);
      }
    }
  }

  /** Every command the parser accepts has sound words. */
  lemma ParseSound(b: string)
    ensures ParseCmd(b).Ok? ==> Sound(b, ParseCmd(b).cmd)
  {
    LineSound(b, Skip(b, 0));
  }

  /** Two words of one line are the same word, or there is a character between them. */
  lemma WordsApart(b: string, s: Tok, t: Tok)
    requires WordTok(b, s) && WordTok(b, t)
    ensures s == t || s.eq < t.q || t.eq < s.q
  {
    if s.q < t.q <= s.eq {
      assert false;
    } else if t.q < s.q <= t.eq {
      assert false;
    } else if s.q == t.q && s.eq != t.eq {
      assert false;
    }
  }

  // ---- what was parsed can be printed and parsed again ----

  lemma {:induction false} SoundPrintable(b: string, c: Cmd<Tok>)
    requires Sound(b, c) && NoNul(b)
    ensures Printable(Text(b, c))
  {
    match c
    case Exec(argv) =>
      forall i | 0 <= i < |argv|
        ensures IsWord(Texts(b, argv)[i])
      {
        assert WordTok(b, argv[i]);
      }
    case Redir(d, f, m) => SoundPrintable(b, d);
    case Pipe(l, r) => SoundPrintable(b, l); SoundPrintable(b, r);
    case Back(d) => SoundPrintable(b, d);
    case List(l, r) => SoundPrintable(b, l); SoundPrintable(b, r);
  }

  /** Any line the parser accepts can be brought into the printer's form without changing its meaning. */
  lemma Reprint(b: string)
    requires NoNul(b) && ParseCmd(b).Ok?
    ensures var t := Text(b, ParseCmd(b).cmd);
      ParseCmd(Print(t)).Ok? && Text(Print(t), ParseCmd(Print(t)).cmd) == t
  {
    ParseSound(b);
    SoundPrintable(b, ParseCmd(b).cmd);
    RoundTrip(Text(b, ParseCmd(b).cmd));
  }

  // ---- NUL termination ----

  /** The places where nulterminate writes. */
  function Ends(c: Cmd<Tok>): set<nat> {
    match c
    case Exec(argv) => set i | 0 <= i < |argv| :: argv[i].eq
    case Redir(d, f, _) => Ends(d) + {f.eq}
    case Pipe(l, r) => Ends(l) + Ends(r)
    case Back(d) => Ends(d)
    case List(l, r) => Ends(l) + Ends(r)
  }

  /** All words of a command. */
  function Words(c: Cmd<Tok>): set<Tok> {
    match c
    case Exec(argv) => set i | 0 <= i < |argv| :: argv[i]
    case Redir(d, f, _) => Words(d) + {f}
    case Pipe(l, r) => Words(l) + Words(r)
    case Back(d) => Words(d)
    case List(l, r) => Words(l) + Words(r)
  }

  lemma {:induction false} WordsSound(b: string, c: Cmd<Tok>)
    requires Sound(b, c)
    ensures forall t :: t in Words(c) ==> WordTok(b, t) && t.eq in Ends(c)
    ensures forall e :: e in Ends(c) ==> e == |b| || (e < |b| && !IsWordChar(b[e]))
  {
    match c
    case Exec(argv) =>
    case Redir(d, f, m) => WordsSound(b, d);
    case Pipe(l, r) => WordsSound(b, l); WordsSound(b, r);
    case Back(d) => WordsSound(b, d);
    case List(l, r) => WordsSound(b, l); WordsSound(b, r);
  }

  /** The C string that starts at i in a buffer. */
  function CString(buf: string, i: nat): string
    requires i <= |buf|
    decreases |buf| - i
  {
    if i == |buf| || buf[i] == NUL then "" else [buf[i]] + CString(buf, i + 1)
  }

  /** The buffer after nulterminate: NUL at the end of every word, and otherwise the line and its own NUL. */
  predicate Terminated(b: string, c: Cmd<Tok>, buf: string) {
    && |buf| == |b| + 1
    && forall k :: 0 <= k < |buf| ==> buf[k] == if k == |b| || k in Ends(c) then NUL else b[k]
  }

  /** After nulterminate every word of the tree, read as a C string, is exactly the word that was parsed. */
  lemma TerminatedWords(b: string, c: Cmd<Tok>, buf: string, t: Tok)
    requires NoNul(b) && Sound(b, c) && Terminated(b, c, buf) && t in Words(c)
    ensures t.q <= |buf| && CString(buf, t.q) == WordText(b, t)
  {
    WordsSound(b, c);
    forall k | t.q <= k < t.eq
      ensures buf[k] == b[k]
    {
      assert IsWordChar(b[k]);
    }
    Reads(b, buf, t.q, t.eq);
  }

  lemma {:induction false} Reads(b: string, buf: string, i: nat, e: nat)
    requires i <= e <= |b| < |buf| && buf[e] == NUL && NoNul(b) && forall k :: i <= k < e ==> buf[k] == b[k]
    ensures CString(buf, i) == b[i..e]
    decreases e - i
  {
    if i < e {
      Reads(b, buf, i + 1, e);
      assert b[i..e] == [b[i]] + b[i + 1..e];
    }
  }
}
