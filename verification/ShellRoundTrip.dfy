/**
 The parser of sh.c inverts printing: a printer of command trees that parenthesises by precedence, and the
 proof that parsing its output gives the tree back and consumes all of it.
 */
module ShellRoundTrip {
  import opened Shell

  // ---- the printer ----

  /** 0: what stands between pipes; 1: pipelines; 2: commands with & after them; 3: lists. */
  function Level<T>(t: Cmd<T>): nat {
    match t
    case Exec(_) => 0
    case Redir(_, _, _) => 0
    case Pipe(_, _) => 1
    case Back(_) => 2
    case List(_, _) => 3
  }

  /** The tokens of a tree where the grammar wants a command of the given level or below. */
  function Toks(t: Cmd<string>, level: nat): (r: seq<string>)
    requires level <= 3
    decreases t, if Level(t) > level then 1 else 0
  {
    if Level(t) > level then ["("] + Toks(t, 3) + [")"]
    else
      match t
      case Exec(argv) => argv
      case Redir(c, f, m) => Toks(c, 0) + [if m == Read then "<" else ">", f]
      case Pipe(l, r) => Toks(l, 0) + ["|"] + Toks(r, 1)
      case Back(c) => Toks(c, 2) + ["&"]
      case List(l, r) => Toks(l, 2) + [";"] + Toks(r, 3)
  }

  /** Tokens separated by spaces. */
  function Flat(ts: seq<string>): string {
    if ts == [] then "" else if |ts| == 1 then ts[0] else ts[0] + " " + Flat(ts[1..])
  }

  function Print(t: Cmd<string>): string {
    Flat(Toks(t, 3))
  }

  predicate IsWord(w: string) {
    w != "" && forall i :: 0 <= i < |w| ==> IsWordChar(w[i]) && w[i] != NUL
  }

  predicate AllWords(ws: seq<string>) {
    forall i :: 0 <= i < |ws| ==> IsWord(ws[i])
  }

  /** Words are words, and no command has more arguments than the parser takes. */
  predicate Printable(t: Cmd<string>) {
    match t
    case Exec(argv) => |argv| < MAXARGS && AllWords(argv)
    case Redir(c, f, _) => IsWord(f) && Printable(c)
    case Pipe(l, r) => Printable(l) && Printable(r)
    case Back(c) => Printable(c)
    case List(l, r) => Printable(l) && Printable(r)
  }

  /** The tree with the text of its words. */
  function Text(b: string, t: Cmd<Tok>): Cmd<string> {
    match t
    case Exec(argv) => Exec(Texts(b, argv))
    case Redir(c, f, m) => Redir(Text(b, c), WordText(b, f), m)
    case Pipe(l, r) => Pipe(Text(b, l), Text(b, r))
    case Back(c) => Back(Text(b, c))
    case List(l, r) => List(Text(b, l), Text(b, r))
  }

  function WordText(b: string, t: Tok): string {
    if t.q <= t.eq <= |b| then b[t.q..t.eq] else ""
  }

  function Texts(b: string, ts: seq<Tok>): (r: seq<string>)
    ensures |r| == |ts| && forall i :: 0 <= i < |ts| ==> r[i] == WordText(b, ts[i])
  {
    if ts == [] then [] else Texts(b, ts[..|ts| - 1]) + [WordText(b, ts[|ts| - 1])]
  }

  // ---- positions in printed text ----

  predicate IsSign(w: string) {
    |w| == 1 && IsSymbol(w[0])
  }

  predicate Tokens(ts: seq<string>) {
    forall i :: 0 <= i < |ts| ==> IsWord(ts[i]) || IsSign(ts[i])
  }

  /** The rest of the line from i on is ts. */
  predicate At(b: string, i: nat, ts: seq<string>) {
    i <= |b| && b[i..] == Flat(ts)
  }

  /** The first token of ts is at i, and after it, past a space, the rest. */
  lemma FirstAt(b: string, i: nat, ts: seq<string>)
    requires At(b, i, ts) && ts != []
    ensures i + |ts[0]| <= |b| && b[i..i + |ts[0]|] == ts[0]
    ensures if |ts| == 1 then i + |ts[0]| == |b|
            else i + |ts[0]| < |b| && b[i + |ts[0]|] == ' ' && At(b, i + |ts[0]| + 1, ts[1..])
  {
    var e := i + |ts[0]|;
    var rest := b[i..];
    assert rest[..|ts[0]|] == ts[0];
    if |ts| > 1 {
      assert rest == ts[0] + " " + Flat(ts[1..]);
      assert rest[|ts[0]|] == ' ' && rest[|ts[0]| + 1..] == Flat(ts[1..]);
      assert b[e + 1..] == rest[|ts[0]| + 1..];
    }
  }

  /** Nothing but a space separates two tokens. */
  lemma NextAt(b: string, i: nat, ts: seq<string>)
    requires At(b, i, ts) && ts != [] && Tokens(ts)
    ensures i + |ts[0]| <= |b| && At(b, Skip(b, i + |ts[0]|), ts[1..])
    ensures i + |ts[0]| < |b| ==> b[i + |ts[0]|] == ' '
  {
    FirstAt(b, i, ts);
    var e := i + |ts[0]|;
    if |ts| > 1 {
      StartAt(b, e + 1, ts[1..]);
      assert Skip(b, e) == Skip(b, e + 1);
    } else {
      assert b[e..] == "";
    }
  }

  lemma StartAt(b: string, i: nat, ts: seq<string>)
    requires At(b, i, ts) && ts != [] && Tokens(ts)
    ensures i < |b| && b[i] == ts[0][0] && Settled(b, i) && Skip(b, i) == i
  {
    FirstAt(b, i, ts);
    assert b[i] == b[i..i + |ts[0]|][0];
    assert IsWord(ts[0]) || IsSign(ts[0]);
  }

  /** The token at i is the first of ts, and after it come the others. */
  lemma GotAt(b: string, i: nat, ts: seq<string>)
    requires At(b, i, ts) && ts != [] && Tokens(ts)
    ensures Settled(b, i) && i < |b| && b[i] == ts[0][0]
    ensures At(b, GetToken(b, i).next, ts[1..])
    ensures IsSign(ts[0]) ==> GetToken(b, i).tok == ts[0][0]
    ensures IsWord(ts[0]) ==> GetToken(b, i).tok == 'a' && WordText(b, Tok(i, GetToken(b, i).eq)) == ts[0]
  {
    StartAt(b, i, ts);
    FirstAt(b, i, ts);
    NextAt(b, i, ts);
    if IsWord(ts[0]) {
      WordAt(b, i, ts[0]);
      assert !IsSymbol(b[i]);
    }
  }

  lemma WordAt(b: string, i: nat, w: string)
    requires IsWord(w) && i + |w| <= |b| && b[i..i + |w|] == w
    requires i + |w| < |b| ==> b[i + |w|] == ' '
    ensures WordEnd(b, i) == i + |w|
  {
    var x := WordEnd(b, i);
    assert forall k :: i <= k < i + |w| ==> b[k] == b[i..i + |w|][k - i];
  }

  lemma EndAt(b: string, i: nat)
    requires At(b, i, [])
    ensures i == |b| && Settled(b, i)
  {
  }

  // ---- the parser on printed text ----

  lemma {:induction false} ToksOk(t: Cmd<string>, level: nat)
    requires level <= 3 && Printable(t)
    ensures Tokens(Toks(t, level))
    decreases t, if Level(t) > level then 1 else 0
  {
    if Level(t) > level {
      ToksOk(t, 3);
    } else {
      match t
      case Exec(argv) =>
      case Redir(c, f, m) => ToksOk(c, 0);
      case Pipe(l, r) => ToksOk(l, 0); ToksOk(r, 1);
      case Back(c) => ToksOk(c, 2);
      case List(l, r) => ToksOk(l, 2); ToksOk(r, 3);
    }
  }

  /** What may follow a command: the end, or a symbol out of `signs`. */
  predicate Follow(rest: seq<string>, signs: set<char>) {
    Tokens(rest) && (rest != [] ==> IsSign(rest[0]) && rest[0][0] in signs)
  }

  lemma PeekAt(b: string, i: nat, ts: seq<string>, signs: set<char>)
    requires At(b, i, ts) && Tokens(ts)
    ensures Settled(b, i) && (Peek(b, i, signs) <==> ts != [] && ts[0][0] in signs)
  {
    if ts == [] {
      EndAt(b, i);
    } else {
      StartAt(b, i, ts);
    }
  }

  /** After a command's arguments or a block: redirections, and then, outside a block, more arguments. */
  function Resume(b: string, i: nat, c: Cmd<Tok>, exec: bool, argc: nat): Parse
    requires Settled(b, i)
  {
    match Redirs(b, i, c)
    case Panic(w) => Panic(w)
    case Ok(d, p) => if exec then Args(b, p, d, argc) else Ok(d, p)
  }

  predicate IsExec<T>(t: Cmd<T>) {
    match t
    case Exec(_) => true
    case Redir(c, _, _) => IsExec(c)
    case _ => false
  }

  function Argc<T>(t: Cmd<T>): nat {
    match t
    case Exec(argv) => |argv|
    case Redir(c, _, _) => Argc(c)
    case _ => 0
  }

  /** One more word. */
  lemma ArgAt(b: string, i: nat, w: string, done: seq<Tok>, tail: seq<string>) returns (p: nat, t: Tok)
    requires At(b, i, [w] + tail) && IsWord(w) && Tokens(tail) && |done| + 1 < MAXARGS
    ensures Settled(b, i) && Settled(b, p) && At(b, p, tail) && WordText(b, t) == w
    ensures Args(b, i, Exec(done), |done|) == Resume(b, p, Exec(done + [t]), true, |done| + 1)
  {
    var ts := [w] + tail;
    assert ts[1..] == tail;
    GotAt(b, i, ts);
    p, t := GetToken(b, i).next, Tok(i, GetToken(b, i).eq);
  }

  lemma NoRedirs(b: string, i: nat, c: Cmd<Tok>, argc: nat, ts: seq<string>)
    requires At(b, i, ts) && Tokens(ts) && ts != [] && IsWord(ts[0])
    ensures Settled(b, i) && Redirs(b, i, c) == Ok(c, i) && Resume(b, i, c, true, argc) == Args(b, i, c, argc)
  {
    PeekAt(b, i, ts, {'<', '>'});
  }

  /** The words of a command, after those in `done`. */
  lemma {:induction false} ArgsAt(b: string, i: nat, words: seq<string>, done: seq<Tok>, rest: seq<string>)
    returns (p: nat, more: seq<Tok>)
    requires words != [] && |done| + |words| < MAXARGS && AllWords(words)
    requires At(b, i, words + rest) && Tokens(rest)
    ensures Settled(b, i) && Settled(b, p) && At(b, p, rest) && Texts(b, more) == words
    ensures Args(b, i, Exec(done), |done|) == Resume(b, p, Exec(done + more), true, |done| + |words|)
    decreases |words|
  {
    hide Args, Redirs, Flat, Resume, Texts, IsWord, IsSign, WordText;
    var tail := words[1..] + rest;
    assert words + rest == [words[0]] + tail;
    var t;
    p, t := ArgAt(b, i, words[0], done, tail);
    OneText(b, t);
    if |words| > 1 {
      assert tail[0] == words[1];
      NoRedirs(b, p, Exec(done + [t]), |done| + 1, tail);
      p, more := ArgsAt(b, p, words[1..], done + [t], rest);
      assert done + [t] + more == done + ([t] + more);
      TextsConcat(b, [t], more);
      more := [t] + more;
    } else {
      assert tail == rest;
      more := [t];
    }
  }

  lemma OneText(b: string, t: Tok)
    ensures Texts(b, [t]) == [WordText(b, t)]
  {
  }

  lemma TextsConcat(b: string, ts: seq<Tok>, us: seq<Tok>)
    ensures Texts(b, ts + us) == Texts(b, ts) + Texts(b, us)
  {
  }

  /** The parser's level for a tree, and how deep in the descent it is when it gets there. */
  function Rank(t: Cmd<string>, level: nat): nat {
    if Level(t) > level then 5 + level else level
  }

  /**
   What may stand between pipes, printed at i, with anything after it that cannot be part of its words: the
   parser reads it and is then ready for redirections.
   */
  lemma {:induction false} UnitAt(b: string, i: nat, t: Cmd<string>, rest: seq<string>) returns (p: nat, c: Cmd<Tok>)
    requires Printable(t) && At(b, i, Toks(t, 0) + rest) && Follow(rest, {'|', ')', '&', ';', '<', '>'})
    ensures Settled(b, i) && Settled(b, p) && At(b, p, rest) && Text(b, c) == t
    ensures ParseExec(b, i) == Resume(b, p, c, IsExec(t), Argc(t))
    decreases t, Rank(t, 0)
  {
    hide Args, Flat, ParseLine;
    match t
    case Exec(argv) =>
      p, c := ExecAt(b, i, argv, rest);
    case Redir(d, f, m) =>
      var sign := if m == Read then "<" else ">";
      var tail := [sign, f] + rest;
      assert Toks(t, 0) + rest == Toks(d, 0) + tail;
      var q, e := UnitAt(b, i, d, tail);
      p, c := RedirAt(b, q, e, f, m, rest, IsExec(t), Argc(t));
    case _ =>
      p, c := BlockAt(b, i, t, rest);
  }

  /** The words of a simple command. */
  lemma ExecAt(b: string, i: nat, argv: seq<string>, rest: seq<string>) returns (p: nat, c: Cmd<Tok>)
    requires |argv| < MAXARGS && AllWords(argv) && At(b, i, argv + rest) && Follow(rest, {'|', ')', '&', ';', '<', '>'})
    ensures Settled(b, i) && Settled(b, p) && At(b, p, rest) && Text(b, c) == Exec(argv)
    ensures ParseExec(b, i) == Resume(b, p, c, true, |argv|)
  {
    hide Args, Redirs, Flat, ParseBlock, WordText;
    var ts := argv + rest;
    PeekAt(b, i, ts, {'('});
    if argv == [] {
      assert ts == rest;
      p, c := i, Exec([]);
    } else {
      assert IsWord(ts[0]);
      NoRedirs(b, i, Exec([]), 0, ts);
      var more;
      p, more := ArgsAt(b, i, argv, [], rest);
      assert [] + more == more;
      c := Exec(more);
    }
  }

  /** One redirection. */
  lemma RedirAt(b: string, i: nat, e: Cmd<Tok>, f: string, m: Mode, rest: seq<string>, exec: bool, argc: nat)
    returns (p: nat, c: Cmd<Tok>)
    requires IsWord(f) && Tokens(rest) && At(b, i, [if m == Read then "<" else ">", f] + rest)
    ensures Settled(b, i) && Settled(b, p) && At(b, p, rest) && Text(b, c) == Redir(Text(b, e), f, m)
    ensures Resume(b, i, e, exec, argc) == Resume(b, p, c, exec, argc)
  {
    var ts := [if m == Read then "<" else ">", f] + rest;
    PeekAt(b, i, ts, {'<', '>'});
    GotAt(b, i, ts);
    var q := GetToken(b, i).next;
    assert ts[1..] == [f] + rest && ([f] + rest)[1..] == rest;
    GotAt(b, q, [f] + rest);
    var h := GetToken(b, q);
    p, c := h.next, Redir(e, Tok(h.q, h.eq), m);
  }

  /** A command in parentheses. */
  lemma {:induction false} BlockAt(b: string, i: nat, t: Cmd<string>, rest: seq<string>)
    returns (p: nat, c: Cmd<Tok>)
    requires Level(t) > 0 && Printable(t) && At(b, i, Toks(t, 0) + rest) && Tokens(rest)
    ensures Settled(b, i) && Settled(b, p) && At(b, p, rest) && Text(b, c) == t
    ensures ParseExec(b, i) == Resume(b, p, c, false, 0)
    decreases t, 4
  {
    hide Args, Redirs, Flat, ParseLine;
    var ts := Toks(t, 0) + rest;
    var tail := [")"] + rest;
    ToksOk(t, 3);
    assert ts == ["("] + (Toks(t, 3) + tail) && ts[1..] == Toks(t, 3) + tail && tail[1..] == rest;
    GotAt(b, i, ts);
    PeekAt(b, i, ts, {'('});
    var q;
    q, c := LineAt(b, GetToken(b, i).next, t, tail);
    PeekAt(b, q, tail, {')'});
    GotAt(b, q, tail);
    p := GetToken(b, q).next;
  }

  /** Redirections and words stop where the command ends. */
  lemma StopAt(b: string, i: nat, c: Cmd<Tok>, exec: bool, argc: nat, rest: seq<string>)
    requires At(b, i, rest) && Follow(rest, {'|', ')', '&', ';'})
    ensures Settled(b, i) && Resume(b, i, c, exec, argc) == Ok(c, i)
  {
    PeekAt(b, i, rest, {'<', '>'});
    PeekAt(b, i, rest, {'|', ')', '&', ';'});
    if rest == [] {
      EndAt(b, i);
    }
  }

  lemma {:induction false} PipeAt(b: string, i: nat, t: Cmd<string>, rest: seq<string>) returns (p: nat, c: Cmd<Tok>)
    requires Printable(t) && At(b, i, Toks(t, 1) + rest) && Follow(rest, {')', '&', ';'})
    ensures Settled(b, i) && Settled(b, p) && At(b, p, rest) && Text(b, c) == t
    ensures ParsePipe(b, i) == Ok(c, p)
    decreases t, Rank(t, 1)
  {
    hide Args, Redirs, Flat, ParseExec;
    if t.Pipe? {
      var tail := ["|"] + (Toks(t.right, 1) + rest);
      ToksOk(t.right, 1);
      assert Toks(t, 1) + rest == Toks(t.left, 0) + tail && tail[1..] == Toks(t.right, 1) + rest;
      var q, l := UnitAt(b, i, t.left, tail);
      StopAt(b, q, l, IsExec(t.left), Argc(t.left), tail);
      PeekAt(b, q, tail, {'|'});
      GotAt(b, q, tail);
      var r;
      p, r := PipeAt(b, GetToken(b, q).next, t.right, rest);
      c := Pipe(l, r);
    } else {
      p, c := UnitAt(b, i, t, rest);
      StopAt(b, p, c, IsExec(t), Argc(t), rest);
      PeekAt(b, p, rest, {'|'});
    }
  }

  /** The parser has read a command with its ampersands, and looks for more of them. */
  lemma {:induction false} BackAt(b: string, i: nat, t: Cmd<string>, rest: seq<string>) returns (p: nat, c: Cmd<Tok>)
    requires Printable(t) && At(b, i, Toks(t, 2) + rest) && Follow(rest, {')', '&', ';'})
    ensures Settled(b, i) && Settled(b, p) && At(b, p, rest) && Text(b, c) == t
    ensures ParseBack(b, i) == Amps(b, p, c)
    decreases t, Rank(t, 2)
  {
    hide Args, Redirs, Flat, ParsePipe;
    if t.Back? {
      var tail := ["&"] + rest;
      assert Toks(t, 2) + rest == Toks(t.cmd, 2) + tail && tail[1..] == rest;
      var q, d := BackAt(b, i, t.cmd, tail);
      PeekAt(b, q, tail, {'&'});
      GotAt(b, q, tail);
      p, c := GetToken(b, q).next, Back(d);
    } else {
      p, c := PipeAt(b, i, t, rest);
    }
  }

  lemma {:induction false} LineAt(b: string, i: nat, t: Cmd<string>, rest: seq<string>) returns (p: nat, c: Cmd<Tok>)
    requires Printable(t) && At(b, i, Toks(t, 3) + rest) && Follow(rest, {')'})
    ensures Settled(b, i) && Settled(b, p) && At(b, p, rest) && Text(b, c) == t
    ensures ParseLine(b, i) == Ok(c, p)
    decreases t, Rank(t, 3)
  {
    hide Args, Redirs, Flat, ParseBack;
    if t.List? {
      var tail := [";"] + (Toks(t.right, 3) + rest);
      ToksOk(t.right, 3);
      assert Toks(t, 3) + rest == Toks(t.left, 2) + tail && tail[1..] == Toks(t.right, 3) + rest;
      var q, l := BackAt(b, i, t.left, tail);
      PeekAt(b, q, tail, {'&'});
      PeekAt(b, q, tail, {';'});
      GotAt(b, q, tail);
      var r;
      p, r := LineAt(b, GetToken(b, q).next, t.right, rest);
      c := List(l, r);
    } else {
      p, c := BackAt(b, i, t, rest);
      PeekAt(b, p, rest, {'&'});
      PeekAt(b, p, rest, {';'});
    }
  }

  /** Printing and parsing give every tree back, and the parser stops at the end of the text. */
  lemma RoundTrip(t: Cmd<string>)
    requires Printable(t)
    ensures ParseCmd(Print(t)).Ok? && Text(Print(t), ParseCmd(Print(t)).cmd) == t
    ensures ParseCmd(Print(t)).pos == |Print(t)|
  {
    var b := Print(t);
    var ts := Toks(t, 3);
    ToksOk(t, 3);
    assert ts + [] == ts && b[0..] == b;
    if ts == [] {
      EndAt(b, 0);
    } else {
      StartAt(b, 0, ts);
    }
    var p, c := LineAt(b, 0, t, []);
    EndAt(b, p);
  }
}
