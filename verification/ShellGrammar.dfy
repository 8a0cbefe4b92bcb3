/**
 A grammar of command lines over their tokens, in which words are sorted into arguments and files by what
 stands before them; and the proof that the parser of sh.c accepts the lines of the grammar and no others,
 and builds their trees.
 */
module ShellGrammar {
  import opened Shell
  import opened ShellRoundTrip
  import opened ShellWords

  // ---- the tokens of a line ----

  /** kind: 'a' for a word, '+' for >>, or the symbol; the token is the text from q up to eq. */
  datatype Token = Token(kind: char, q: nat, eq: nat)

  /** The tokens from i on, as gettoken takes them. */
  function Lex(b: string, i: nat): (r: seq<Token>)
    requires Settled(b, i)
    ensures r == [] <==> i == |b|
    decreases |b| - i
  {
    if i == |b| then [] else
      var g := GetToken(b, i);
      [Token(g.tok, g.q, g.eq)] + Lex(b, g.next)
  }

  function Line(b: string): seq<Token> {
    Lex(b, Skip(b, 0))
  }

  /** A word is as long as it can be, > is not the first half of >>, and any other symbol stands for itself. */
  predicate TokenOk(b: string, t: Token) {
    && t.q < t.eq <= |b|
    && match t.kind
       case 'a' => WordTok(b, Tok(t.q, t.eq))
       case '+' => b[t.q..t.eq] == ">>"
       case c => IsSymbol(c) && b[t.q..t.eq] == [c] && (c == '>' && t.eq < |b| ==> b[t.eq] != '>')
  }

  predicate Inside(t: Token, k: nat) {
    t.q <= k < t.eq
  }

  lemma {:induction false} LexRight(b: string, i: nat)
    requires Boundary(b, i)
    ensures forall k :: 0 <= k < |Lex(b, i)| ==> TokenOk(b, Lex(b, i)[k]) && i <= Lex(b, i)[k].q
    ensures forall k, l :: 0 <= k < l < |Lex(b, i)| ==> Lex(b, i)[k].eq <= Lex(b, i)[l].q
    ensures forall j: nat :: i <= j < |b| && !IsSpace(b[j]) ==>
      exists k :: 0 <= k < |Lex(b, i)| && Inside(Lex(b, i)[k], j)
    decreases |b| - i
  {
    hide GetToken, TokenOk;
    if i < |b| {
      var g := GetToken(b, i);
      var rest := Lex(b, g.next);
      GetSound(b, i);
      LexRight(b, g.next);
      TokenRight(b, i);
      forall j: nat | i <= j < |b| && !IsSpace(b[j])
        ensures exists k :: 0 <= k < |Lex(b, i)| && Inside(Lex(b, i)[k], j)
      {
        if j < g.eq {
          assert Inside(Lex(b, i)[0], j);
        } else {
          var k :| 0 <= k < |rest| && Inside(rest[k], j);
          assert Lex(b, i)[k + 1] == rest[k];
        }
      }
    }
  }

  lemma TokenRight(b: string, i: nat)
    requires Boundary(b, i) && i < |b|
    ensures var g := GetToken(b, i);
      && TokenOk(b, Token(g.tok, g.q, g.eq)) && g.q == i < g.eq <= g.next
      && forall j :: g.eq <= j < g.next ==> IsSpace(b[j])
  {
  }

  /** The tokens of a line are right, follow one another, and leave out only white space. */
  lemma LineRight(b: string)
    ensures forall k :: 0 <= k < |Line(b)| ==> TokenOk(b, Line(b)[k])
    ensures forall k, l :: 0 <= k < l < |Line(b)| ==> Line(b)[k].eq <= Line(b)[l].q
    ensures forall j: nat :: j < |b| && !IsSpace(b[j]) ==> exists k :: 0 <= k < |Line(b)| && Inside(Line(b)[k], j)
  {
    hide TokenOk, Lex;
    LexRight(b, Skip(b, 0));
    forall j: nat | j < |b| && !IsSpace(b[j])
      ensures exists k :: 0 <= k < |Line(b)| && Inside(Line(b)[k], j)
    {
      assert Skip(b, 0) <= j;
      var k :| 0 <= k < |Lex(b, Skip(b, 0))| && Inside(Lex(b, Skip(b, 0))[k], j);
      assert Inside(Line(b)[k], j);
    }
  }

  // ---- words and files ----

  predicate Redirects(t: Token) {
    t.kind == '<' || t.kind == '>' || t.kind == '+'
  }

  /** Words and redirection signs, with a word after every sign. */
  predicate Simple(ts: seq<Token>) {
    forall k :: 0 <= k < |ts| ==> SimpleAt(ts, k)
  }

  predicate SimpleAt(ts: seq<Token>, k: nat)
    requires k < |ts|
  {
    ts[k].kind == 'a' || (Redirects(ts[k]) && k + 1 < |ts| && ts[k + 1].kind == 'a')
  }

  function ModeOf(s: Token): Mode {
    if s.kind == '<' then Read else Write
  }

  function Place(t: Token): Tok {
    Tok(t.q, t.eq)
  }

  /** The word at the end of ts names a file. */
  predicate NamesFile(ts: seq<Token>) {
    |ts| > 1 && Redirects(ts[|ts| - 2])
  }

  /** The words that do not follow a redirection sign, in order. */
  function ArgWords(ts: seq<Token>): seq<Tok> {
    if ts == [] then [] else ArgWords(ts[..|ts| - 1]) + LastArg(ts)
  }

  function LastArg(ts: seq<Token>): seq<Tok>
    requires ts != []
  {
    var n := |ts| - 1;
    if ts[n].kind == 'a' && !NamesFile(ts) then [Place(ts[n])] else []
  }

  /** The words that follow one, in order; < is for reading. */
  function Files(ts: seq<Token>): seq<(Tok, Mode)> {
    if ts == [] then [] else Files(ts[..|ts| - 1]) + LastFile(ts)
  }

  function LastFile(ts: seq<Token>): seq<(Tok, Mode)>
    requires ts != []
  {
    var n := |ts| - 1;
    if NamesFile(ts) then [(Place(ts[n]), ModeOf(ts[n - 1]))] else []
  }

  /** The command with its redirections around it, the last one outermost. */
  function Wrap(c: Cmd<Tok>, fs: seq<(Tok, Mode)>): Cmd<Tok> {
    if fs == [] then c else
      var n := |fs| - 1;
      Redir(Wrap(c, fs[..n]), fs[n].0, fs[n].1)
  }

  /** The tree of a simple command. */
  function SimpleTree(ts: seq<Token>): Cmd<Tok> {
    Wrap(Exec(ArgWords(ts)), Files(ts))
  }

  // ---- the grammar ----

  /** ts is ( line ), up to n, and redirections. */
  ghost predicate BlockOf(ts: seq<Token>, n: nat, d: Cmd<Tok>, c: Cmd<Tok>)
    decreases |ts|, 0
  {
    && 2 <= n <= |ts| && ts[0].kind == '(' && ts[n - 1].kind == ')' && LineOf(ts[1..n - 1], d)
    && Simple(ts[n..]) && ArgWords(ts[n..]) == [] && c == Wrap(d, Files(ts[n..]))
  }

  ghost predicate UnitOf(ts: seq<Token>, c: Cmd<Tok>)
    decreases |ts|, 1
  {
    || (Simple(ts) && |ArgWords(ts)| < MAXARGS && c == SimpleTree(ts))
    || exists n: nat, d :: BlockOf(ts, n, d, c)
  }

  ghost predicate PipeOf(ts: seq<Token>, c: Cmd<Tok>)
    decreases |ts|, 2
  {
    || UnitOf(ts, c)
    || (c.Pipe? && exists n: nat ::
          n < |ts| && ts[n].kind == '|' && UnitOf(ts[..n], c.left) && PipeOf(ts[n + 1..], c.right))
  }

  ghost predicate BackOf(ts: seq<Token>, c: Cmd<Tok>)
    decreases |ts|, 3
  {
    || PipeOf(ts, c)
    || (c.Back? && ts != [] && ts[|ts| - 1].kind == '&' && BackOf(ts[..|ts| - 1], c.cmd))
  }

  ghost predicate LineOf(ts: seq<Token>, c: Cmd<Tok>)
    decreases |ts|, 4
  {
    || BackOf(ts, c)
    || (c.List? && exists n: nat ::
          n < |ts| && ts[n].kind == ';' && BackOf(ts[..n], c.left) && LineOf(ts[n + 1..], c.right))
  }

  // ---- token by token ----

  /** The tokens from i up to p are ts. */
  predicate Takes(b: string, i: nat, ts: seq<Token>, p: nat) {
    Settled(b, i) && Settled(b, p) && Lex(b, i) == ts + Lex(b, p)
  }

  /** The first token is a symbol, and starts with one out of `signs`. */
  predicate Begins(ts: seq<Token>, signs: set<char>) {
    ts != [] && ts[0].kind != 'a' && (if ts[0].kind == '+' then '>' else ts[0].kind) in signs
  }

  lemma PeekLex(b: string, i: nat, signs: set<char>)
    requires Settled(b, i) && forall c :: c in signs ==> IsSymbol(c)
    ensures Peek(b, i, signs) <==> Begins(Lex(b, i), signs)
  {
  }

  lemma OneToken(b: string, i: nat)
    requires Settled(b, i) && i < |b|
    ensures var g := GetToken(b, i);
      && Takes(b, i, [Token(g.tok, g.q, g.eq)], g.next)
      && (g.tok == 'a' || g.tok == '+' || IsSymbol(g.tok))
  {
  }

  lemma Joined(b: string, i: nat, ts: seq<Token>, p: nat, us: seq<Token>, q: nat)
    requires Takes(b, i, ts, p) && Takes(b, p, us, q)
    ensures Takes(b, i, ts + us, q)
  {
    assert ts + (us + Lex(b, q)) == (ts + us) + Lex(b, q);
  }

  lemma SimpleCat(xs: seq<Token>, ys: seq<Token>)
    requires Simple(xs) && Simple(ys)
    ensures Simple(xs + ys)
  {
    var ts := xs + ys;
    forall k: nat | k < |ts|
      ensures SimpleAt(ts, k)
    {
      if k < |xs| {
        assert SimpleAt(xs, k) && ts[k] == xs[k];
        assert k + 1 < |xs| ==> ts[k + 1] == xs[k + 1];
      } else {
        assert SimpleAt(ys, k - |xs|) && ts[k] == ys[k - |xs|];
        assert k + 1 < |ts| ==> ts[k + 1] == ys[k + 1 - |xs|];
      }
    }
  }

  lemma {:induction false} Cat(xs: seq<Token>, ys: seq<Token>)
    requires xs != [] ==> !Redirects(xs[|xs| - 1])
    ensures ArgWords(xs + ys) == ArgWords(xs) + ArgWords(ys) && Files(xs + ys) == Files(xs) + Files(ys)
  {
    hide ArgWords, Files, LastArg, LastFile, Redirects;
    if ys == [] {
      assert xs + ys == xs;
      SortNone();
    } else {
      var n := |ys| - 1;
      var ts := xs + ys;
      LastCat(xs, ys);
      SortLast(ys);
      SortLast(ts);
      assert ts[..|ts| - 1] == xs + ys[..n];
      Cat(xs, ys[..n]);
    }
  }

  lemma SortNone()
    ensures ArgWords([]) == [] && Files([]) == []
  {
  }

  lemma SortLast(ts: seq<Token>)
    requires ts != []
    ensures ArgWords(ts) == ArgWords(ts[..|ts| - 1]) + LastArg(ts)
    ensures Files(ts) == Files(ts[..|ts| - 1]) + LastFile(ts)
  {
  }

  lemma LastCat(xs: seq<Token>, ys: seq<Token>)
    requires ys != [] && (xs != [] ==> !Redirects(xs[|xs| - 1]))
    ensures LastArg(xs + ys) == LastArg(ys) && LastFile(xs + ys) == LastFile(ys)
  {
    var ts := xs + ys;
    var k, n := |ts| - 1, |ys| - 1;
    assert ts[k] == ys[n];
    if n > 0 {
      assert ts[k - 1] == ys[n - 1];
    } else if xs != [] {
      assert ts[k - 1] == xs[|xs| - 1];
    }
  }

  lemma {:induction false} WrapCat(c: Cmd<Tok>, fs: seq<(Tok, Mode)>, gs: seq<(Tok, Mode)>)
    ensures Wrap(Wrap(c, fs), gs) == Wrap(c, fs + gs)
  {
    if gs == [] {
      assert fs + gs == fs;
    } else {
      var n := |gs| - 1;
      assert (fs + gs)[..|fs + gs| - 1] == fs + gs[..n];
      WrapCat(c, fs, gs[..n]);
    }
  }

  /** parseexec adds an argument under all redirections so far. */
  lemma {:induction false} AddUnder(argv: seq<Tok>, fs: seq<(Tok, Mode)>, w: Tok)
    ensures AddArg(Wrap(Exec(argv), fs), w) == Wrap(Exec(argv + [w]), fs)
  {
    if fs != [] {
      AddUnder(argv, fs[..|fs| - 1], w);
    }
  }

  // ---- simple commands ----

  lemma WordFirst(w: Token, us: seq<Token>)
    requires w.kind == 'a'
    ensures ArgWords([w] + us) == [Place(w)] + ArgWords(us) && Files([w] + us) == Files(us)
    ensures Simple(us) ==> Simple([w] + us)
  {
    hide ArgWords, Files;
    var xs := [w];
    assert xs[..0] == [];
    SortNone();
    SortLast(xs);
    Cat(xs, us);
    assert Simple(xs);
    if Simple(us) {
      SimpleCat(xs, us);
    }
  }

  lemma FileFirst(s: Token, w: Token, us: seq<Token>)
    requires Redirects(s) && w.kind == 'a'
    ensures ArgWords([s, w] + us) == ArgWords(us) && Files([s, w] + us) == [(Place(w), ModeOf(s))] + Files(us)
    ensures Simple(us) ==> Simple([s, w] + us)
  {
    hide ArgWords, Files;
    var xs := [s, w];
    assert xs[..1] == [s] && [s][..0] == [];
    SortNone();
    SortLast([s]);
    SortLast(xs);
    Cat(xs, us);
    assert Simple(xs);
    if Simple(us) {
      SimpleCat(xs, us);
    }
  }

  lemma Wrap1(c: Cmd<Tok>, f: Tok, m: Mode)
    ensures Wrap(c, [(f, m)]) == Redir(c, f, m)
  {
    assert [(f, m)][..0] == [];
  }

  lemma SimpleNone()
    ensures Simple([])
  {
  }

  lemma WrapNone(c: Cmd<Tok>)
    ensures Wrap(c, []) == c
  {
  }

  /** The parser where it looks for a redirection. */
  lemma OneFile(b: string, i: nat, c: Cmd<Tok>)
    requires Settled(b, i)
    ensures var ts := Lex(b, i);
      var p := GetToken(b, GetToken(b, i).next).next;
      if !Begins(ts, {'<', '>'}) then Redirs(b, i, c) == Ok(c, i)
      else if |ts| == 1 || ts[1].kind != 'a' then Redirs(b, i, c) == Panic(MissingFile)
      else
        && i < p && Redirects(ts[0]) && Takes(b, i, ts[..2], p)
        && Redirs(b, i, c) == Redirs(b, p, Redir(c, Place(ts[1]), ModeOf(ts[0])))
  {
    hide GetToken;
    PeekLex(b, i, {'<', '>'});
    if Begins(Lex(b, i), {'<', '>'}) {
      OneToken(b, i);
      var g := GetToken(b, i);
      if g.next < |b| {
        OneToken(b, g.next);
      }
    }
  }

  /** What the first token of a simple command is good for. */
  lemma SortFirst(ts: seq<Token>)
    requires Simple(ts) && ts != []
    ensures ts[0].kind == 'a' ==>
      && Simple(ts[1..]) && !Redirects(ts[0])
      && ArgWords(ts) == [Place(ts[0])] + ArgWords(ts[1..]) && Files(ts) == Files(ts[1..])
    ensures ts[0].kind != 'a' ==>
      && Redirects(ts[0]) && |ts| > 1 && ts[1].kind == 'a' && Simple(ts[2..])
      && ArgWords(ts) == ArgWords(ts[2..]) && Files(ts) == [(Place(ts[1]), ModeOf(ts[0]))] + Files(ts[2..])
  {
    hide ArgWords, Files, Simple, ModeOf, Place;
    SimpleHead(ts);
    if ts[0].kind == 'a' {
      SortWord(ts);
    } else {
      SortFile(ts);
    }
  }

  lemma SortWord(ts: seq<Token>)
    requires Simple(ts) && ts != [] && ts[0].kind == 'a'
    ensures Simple(ts[1..]) && ArgWords(ts) == [Place(ts[0])] + ArgWords(ts[1..]) && Files(ts) == Files(ts[1..])
  {
    hide ArgWords, Files, Simple, Place, Redirects;
    assert ts == [ts[0]] + ts[1..];
    SimpleTail(ts, 1);
    WordFirst(ts[0], ts[1..]);
  }

  lemma SortFile(ts: seq<Token>)
    requires Simple(ts) && |ts| > 1 && Redirects(ts[0]) && ts[1].kind == 'a'
    ensures Simple(ts[2..])
    ensures ArgWords(ts) == ArgWords(ts[2..]) && Files(ts) == [(Place(ts[1]), ModeOf(ts[0]))] + Files(ts[2..])
  {
    hide ArgWords, Files, Simple, ModeOf, Place, Redirects;
    assert ts == [ts[0], ts[1]] + ts[2..];
    SimpleTail(ts, 2);
    FileFirst(ts[0], ts[1], ts[2..]);
  }

  lemma SimpleHead(ts: seq<Token>)
    requires Simple(ts) && ts != []
    ensures ts[0].kind == 'a' || (Redirects(ts[0]) && |ts| > 1 && ts[1].kind == 'a')
  {
    assert SimpleAt(ts, 0);
  }

  lemma SimpleTail(ts: seq<Token>, n: nat)
    requires Simple(ts) && n <= |ts|
    ensures Simple(ts[n..])
  {
    forall k: nat | k < |ts[n..]|
      ensures SimpleAt(ts[n..], k)
    {
      assert SimpleAt(ts, n + k);
    }
  }

  /** The redirections at i. */
  lemma {:induction false} RedirsTake(b: string, i: nat, c: Cmd<Tok>) returns (us: seq<Token>)
    requires Settled(b, i) && Redirs(b, i, c).Ok?
    ensures Takes(b, i, us, Redirs(b, i, c).pos) && Simple(us) && ArgWords(us) == []
    ensures Redirs(b, i, c).cmd == Wrap(c, Files(us))
    decreases |b| - i
  {
    hide Lex, GetToken, Wrap, Files, ArgWords, Begins, Redirs, Simple, ModeOf;
    var ts, r := Lex(b, i), Redirs(b, i, c);
    OneFile(b, i, c);
    if !Begins(ts, {'<', '>'}) {
      us := [];
      SortNone();
      SimpleNone();
      WrapNone(c);
      assert [] + ts == ts;
    } else {
      var p := GetToken(b, GetToken(b, i).next).next;
      var s, w := ts[0], ts[1];
      us := RedirsTake(b, p, Redir(c, Place(w), ModeOf(s)));
      assert ts[..2] == [s, w];
      Joined(b, i, [s, w], p, us, r.pos);
      FileFirst(s, w, us);
      Wrap1(c, Place(w), ModeOf(s));
      WrapCat(c, [(Place(w), ModeOf(s))], Files(us));
      us := [s, w] + us;
    }
  }

  lemma {:induction false} RedirsGive(b: string, i: nat, c: Cmd<Tok>, us: seq<Token>, rest: seq<Token>) returns (p: nat)
    requires Settled(b, i) && Lex(b, i) == us + rest && Simple(us) && ArgWords(us) == [] && !Begins(rest, {'<', '>'})
    ensures Settled(b, p) && Lex(b, p) == rest && Redirs(b, i, c) == Ok(Wrap(c, Files(us)), p)
    decreases |us|
  {
    hide Lex, GetToken, Wrap, Files, ArgWords, Redirs, Simple, ModeOf;
    OneFile(b, i, c);
    if us == [] {
      SortNone();
      WrapNone(c);
      assert us + rest == rest;
      p := i;
    } else {
      SortFirst(us);
      var s, w := us[0], us[1];
      assert us + rest == (us + rest)[..2] + (us[2..] + rest) && (us + rest)[0] == s && (us + rest)[1] == w;
      p := RedirsGive(b, GetToken(b, GetToken(b, i).next).next, Redir(c, Place(w), ModeOf(s)), us[2..], rest);
      Wrap1(c, Place(w), ModeOf(s));
      WrapCat(c, [(Place(w), ModeOf(s))], Files(us[2..]));
    }
  }

  /** What may follow a simple command. */
  predicate Stops(rest: seq<Token>) {
    rest == [] || Begins(rest, {'|', ')', '&', ';'})
  }

  /** The parser in a simple command: it stops, takes an argument, takes a redirection, or fails. */
  lemma ResumeStep(b: string, i: nat, argv: seq<Tok>, fs: seq<(Tok, Mode)>)
    requires Settled(b, i)
    ensures var ts := Lex(b, i);
      var r := Resume(b, i, Wrap(Exec(argv), fs), true, |argv|);
      var q := GetToken(b, i).next;
      if Stops(ts) then r == Ok(Wrap(Exec(argv), fs), i)
      else if ts[0].kind == 'a' && |argv| + 1 < MAXARGS then
        && i < q && Takes(b, i, ts[..1], q)
        && r == Resume(b, q, Wrap(Exec(argv + [Place(ts[0])]), fs), true, |argv| + 1)
      else if |ts| > 1 && Redirects(ts[0]) && ts[1].kind == 'a' then
        var p := GetToken(b, q).next;
        && i < p && Takes(b, i, ts[..2], p)
        && r == Resume(b, p, Wrap(Exec(argv), fs + [(Place(ts[1]), ModeOf(ts[0]))]), true, |argv|)
      else r.Panic?
  {
    hide GetToken, Wrap, AddArg;
    var c := Wrap(Exec(argv), fs);
    PeekLex(b, i, {'<', '>'});
    PeekLex(b, i, {'|', ')', '&', ';'});
    if i < |b| {
      OneToken(b, i);
    }
    var ts := Lex(b, i);
    if Begins(ts, {'<', '>'}) {
      OneFile(b, i, c);
      if |ts| > 1 {
        WrapCat(Exec(argv), fs, [(Place(ts[1]), ModeOf(ts[0]))]);
        Wrap1(c, Place(ts[1]), ModeOf(ts[0]));
      }
    } else if ts != [] && ts[0].kind == 'a' {
      AddUnder(argv, fs, Place(ts[0]));
    }
  }

  lemma {:induction false} ArgsTake(b: string, i: nat, argv: seq<Tok>, fs: seq<(Tok, Mode)>) returns (us: seq<Token>)
    requires Settled(b, i) && |argv| < MAXARGS && Resume(b, i, Wrap(Exec(argv), fs), true, |argv|).Ok?
    ensures var r := Resume(b, i, Wrap(Exec(argv), fs), true, |argv|);
      && Settled(b, r.pos) && Takes(b, i, us, r.pos) && Simple(us) && |argv| + |ArgWords(us)| < MAXARGS
      && r.cmd == Wrap(Exec(argv + ArgWords(us)), fs + Files(us))
    decreases |b| - i
  {
    hide Lex, GetToken, Wrap, Files, ArgWords, Resume, Simple, ModeOf, Stops;
    var ts, r := Lex(b, i), Resume(b, i, Wrap(Exec(argv), fs), true, |argv|);
    var q := GetToken(b, i).next;
    ResumeStep(b, i, argv, fs);
    if Stops(ts) {
      us := [];
      SortNone();
      SimpleNone();
      assert argv + [] == argv && fs + [] == fs && [] + ts == ts;
    } else if ts[0].kind == 'a' && |argv| + 1 < MAXARGS {
      var w := ts[0];
      us := ArgsTake(b, q, argv + [Place(w)], fs);
      assert ts[..1] == [w];
      Joined(b, i, [w], q, us, r.pos);
      WordFirst(w, us);
      assert argv + [Place(w)] + ArgWords(us) == argv + ArgWords([w] + us);
      us := [w] + us;
    } else {
      var s, w := ts[0], ts[1];
      var p := GetToken(b, q).next;
      us := ArgsTake(b, p, argv, fs + [(Place(w), ModeOf(s))]);
      assert ts[..2] == [s, w];
      Joined(b, i, [s, w], p, us, r.pos);
      FileFirst(s, w, us);
      assert fs + [(Place(w), ModeOf(s))] + Files(us) == fs + Files([s, w] + us);
      us := [s, w] + us;
    }
  }

  lemma {:induction false} ArgsGive(b: string, i: nat, argv: seq<Tok>, fs: seq<(Tok, Mode)>, us: seq<Token>,
                                    rest: seq<Token>) returns (p: nat)
    requires Settled(b, i) && Lex(b, i) == us + rest && Simple(us) && Stops(rest)
    requires |argv| + |ArgWords(us)| < MAXARGS
    ensures Settled(b, p) && Lex(b, p) == rest
    ensures Resume(b, i, Wrap(Exec(argv), fs), true, |argv|) == Ok(Wrap(Exec(argv + ArgWords(us)), fs + Files(us)), p)
    decreases |us|
  {
    hide Lex, GetToken, Wrap, Files, ArgWords, Resume, Simple, ModeOf;
    ResumeStep(b, i, argv, fs);
    var q := GetToken(b, i).next;
    if us == [] {
      SortNone();
      assert us + rest == rest && argv + [] == argv && fs + [] == fs;
      p := i;
    } else {
      var s := us[0];
      SortFirst(us);
      assert (us + rest)[0] == s;
      if s.kind == 'a' {
        assert us + rest == (us + rest)[..1] + (us[1..] + rest);
        p := ArgsGive(b, q, argv + [Place(s)], fs, us[1..], rest);
        assert argv + [Place(s)] + ArgWords(us[1..]) == argv + ArgWords(us);
      } else {
        var f := (Place(us[1]), ModeOf(s));
        assert us + rest == (us + rest)[..2] + (us[2..] + rest) && (us + rest)[1] == us[1];
        p := ArgsGive(b, GetToken(b, q).next, argv, fs + [f], us[2..], rest);
        assert fs + [f] + Files(us[2..]) == fs + Files(us);
      }
    }
  }

  // ---- whole lines ----

  lemma {:induction false} UnitTakes(b: string, i: nat) returns (ts: seq<Token>)
    requires Settled(b, i) && ParseExec(b, i).Ok?
    ensures Takes(b, i, ts, ParseExec(b, i).pos) && UnitOf(ts, ParseExec(b, i).cmd)
    decreases |b| - i, 1
  {
    hide GetToken, Lex, Wrap, Files, ArgWords, Args, Redirs, ParseLine;
    PeekLex(b, i, {'('});
    if Peek(b, i, {'('}) {
      ts := BlockTakes(b, i);
    } else {
      SortNone();
      WrapNone(Exec([]));
      ts := ArgsTake(b, i, [], []);
      assert [] + ArgWords(ts) == ArgWords(ts) && [] + Files(ts) == Files(ts);
    }
  }

  lemma {:induction false} BlockTakes(b: string, i: nat) returns (ts: seq<Token>)
    requires Settled(b, i) && Peek(b, i, {'('}) && ParseBlock(b, i).Ok?
    ensures Takes(b, i, ts, ParseBlock(b, i).pos) && UnitOf(ts, ParseBlock(b, i).cmd)
    decreases |b| - i, 0
  {
    hide GetToken, Lex, Wrap, Files, ArgWords, Args, Redirs, ParseLine, LineOf, UnitOf, Begins;
    var q := GetToken(b, i).next;
    var open := OpenToken(b, i, '(');
    var us := LineTakes(b, q);
    var d, p := ParseLine(b, q).cmd, ParseLine(b, q).pos;
    var close := OpenToken(b, p, ')');
    var p' := GetToken(b, p).next;
    var vs := RedirsTake(b, p', d);
    Joined(b, i, [open], q, us, p);
    Joined(b, i, [open] + us, p, [close], p');
    Joined(b, i, [open] + us + [close], p', vs, ParseBlock(b, i).pos);
    ts := [open] + us + [close] + vs;
    BlockIs(open, us, close, vs, d);
  }

  lemma OpenToken(b: string, i: nat, c: char) returns (t: Token)
    requires Settled(b, i) && Peek(b, i, {c}) && IsSymbol(c) && c != '>'
    ensures t.kind == c && Takes(b, i, [t], GetToken(b, i).next)
  {
    OneToken(b, i);
    var g := GetToken(b, i);
    t := Token(g.tok, g.q, g.eq);
  }

  lemma BlockIs(open: Token, us: seq<Token>, close: Token, vs: seq<Token>, d: Cmd<Tok>)
    requires open.kind == '(' && close.kind == ')' && LineOf(us, d) && Simple(vs) && ArgWords(vs) == []
    ensures UnitOf([open] + us + [close] + vs, Wrap(d, Files(vs)))
  {
    hide LineOf, Simple, ArgWords, Files, Wrap;
    var ts := [open] + us + [close] + vs;
    var n := |us| + 2;
    assert ts[1..n - 1] == us && ts[n..] == vs;
    assert BlockOf(ts, n, d, Wrap(d, Files(vs)));
  }

  lemma {:induction false} LineTakes(b: string, i: nat) returns (ts: seq<Token>)
    requires Settled(b, i) && ParseLine(b, i).Ok?
    ensures Takes(b, i, ts, ParseLine(b, i).pos) && LineOf(ts, ParseLine(b, i).cmd)
    decreases |b| - i, 4
  {
    hide GetToken, Lex, ParsePipe, BackOf;
    ts := BackTakes(b, i);
    var l, p := ParseBack(b, i).cmd, ParseBack(b, i).pos;
    if Peek(b, p, {';'}) {
      var q := GetToken(b, p).next;
      var t := OpenToken(b, p, ';');
      var us := LineTakes(b, q);
      Joined(b, i, ts, p, [t], q);
      Joined(b, i, ts + [t], q, us, ParseLine(b, i).pos);
      var n, all := |ts|, ts + [t] + us;
      assert all[..n] == ts && all[n + 1..] == us && all[n] == t;
      ts := all;
    }
  }

  lemma {:induction false} BackTakes(b: string, i: nat) returns (ts: seq<Token>)
    requires Settled(b, i) && ParseBack(b, i).Ok?
    ensures Takes(b, i, ts, ParseBack(b, i).pos) && BackOf(ts, ParseBack(b, i).cmd)
    decreases |b| - i, 3
  {
    hide GetToken, Lex, ParseExec, PipeOf, Amps;
    ts := PipeTakes(b, i);
    var c, p := ParsePipe(b, i).cmd, ParsePipe(b, i).pos;
    var us := AmpsTake(b, p, c, ts);
    Joined(b, i, ts, p, us, ParseBack(b, i).pos);
    ts := ts + us;
  }

  /** Ampersands after the tokens of c. */
  lemma {:induction false} AmpsTake(b: string, i: nat, c: Cmd<Tok>, ts: seq<Token>) returns (us: seq<Token>)
    requires Settled(b, i) && BackOf(ts, c)
    ensures Takes(b, i, us, Amps(b, i, c).pos) && BackOf(ts + us, Amps(b, i, c).cmd)
    decreases |b| - i
  {
    hide GetToken, Lex, PipeOf;
    if Peek(b, i, {'&'}) {
      var q := GetToken(b, i).next;
      var t := OpenToken(b, i, '&');
      assert (ts + [t])[..|ts|] == ts;
      us := AmpsTake(b, q, Back(c), ts + [t]);
      Joined(b, i, [t], q, us, Amps(b, i, c).pos);
      assert ts + [t] + us == ts + ([t] + us);
      us := [t] + us;
    } else {
      us := [];
      assert ts + us == ts && us + Lex(b, i) == Lex(b, i);
    }
  }

  lemma {:induction false} PipeTakes(b: string, i: nat) returns (ts: seq<Token>)
    requires Settled(b, i) && ParsePipe(b, i).Ok?
    ensures Takes(b, i, ts, ParsePipe(b, i).pos) && PipeOf(ts, ParsePipe(b, i).cmd)
    decreases |b| - i, 2
  {
    hide GetToken, Lex, ParseBlock, UnitOf;
    ts := UnitTakes(b, i);
    var p := ParseExec(b, i).pos;
    if Peek(b, p, {'|'}) {
      var q := GetToken(b, p).next;
      var t := OpenToken(b, p, '|');
      var us := PipeTakes(b, q);
      Joined(b, i, ts, p, [t], q);
      Joined(b, i, ts + [t], q, us, ParsePipe(b, i).pos);
      var n, all := |ts|, ts + [t] + us;
      assert all[..n] == ts && all[n + 1..] == us && all[n] == t;
      ts := all;
    }
  }

  /** The token that stands first in what is left. */
  lemma NextToken(b: string, i: nat, t: Token, rest: seq<Token>)
    requires Settled(b, i) && Lex(b, i) == [t] + rest && IsSymbol(t.kind) && t.kind != '>'
    ensures i < |b| && Peek(b, i, {t.kind}) && Lex(b, GetToken(b, i).next) == rest
    ensures forall signs: set<char> :: t.kind !in signs ==> !Peek(b, i, signs)
  {
    OneToken(b, i);
    assert Lex(b, i)[1..] == rest;
  }

  lemma {:induction false} UnitGives(b: string, i: nat, ts: seq<Token>, rest: seq<Token>, c: Cmd<Tok>) returns (p: nat)
    requires Settled(b, i) && Lex(b, i) == ts + rest && UnitOf(ts, c) && Stops(rest)
    ensures Settled(b, p) && Lex(b, p) == rest && ParseExec(b, i) == Ok(c, p)
    decreases |ts|, 1
  {
    hide GetToken, Lex, Wrap, Files, ArgWords, Args, Redirs, ParseBlock, LineOf;
    PeekLex(b, i, {'('});
    if Simple(ts) && |ArgWords(ts)| < MAXARGS && c == SimpleTree(ts) {
      assert ts != [] ==> SimpleAt(ts, 0) && (ts + rest)[0] == ts[0];
      assert ts == [] ==> ts + rest == rest;
      WrapNone(Exec([]));
      p := ArgsGive(b, i, [], [], ts, rest);
      assert [] + ArgWords(ts) == ArgWords(ts) && [] + Files(ts) == Files(ts);
    } else {
      var n: nat, d :| BlockOf(ts, n, d, c);
      assert (ts + rest)[0] == ts[0];
      p := BlockGives(b, i, ts, n, d, rest, c);
    }
  }

  lemma {:induction false} BlockGives(b: string, i: nat, ts: seq<Token>, n: nat, d: Cmd<Tok>, rest: seq<Token>,
                                      c: Cmd<Tok>) returns (p: nat)
    requires Settled(b, i) && Lex(b, i) == ts + rest && BlockOf(ts, n, d, c) && Stops(rest)
    ensures Settled(b, p) && Lex(b, p) == rest && Peek(b, i, {'('}) && ParseBlock(b, i) == Ok(c, p)
    decreases |ts|, 0
  {
    hide GetToken, Lex, Wrap, Files, ArgWords, Args, Redirs, ParseLine, LineOf, Simple, Peek;
    var us, tail := ts[1..n - 1], ts[n..] + rest;
    assert ts + rest == [ts[0]] + (us + ([ts[n - 1]] + tail));
    NextToken(b, i, ts[0], us + ([ts[n - 1]] + tail));
    var q := LineGives(b, GetToken(b, i).next, us, [ts[n - 1]] + tail, d);
    NextToken(b, q, ts[n - 1], tail);
    p := RedirsGive(b, GetToken(b, q).next, d, ts[n..], rest);
  }

  lemma {:induction false} PipeGives(b: string, i: nat, ts: seq<Token>, rest: seq<Token>, c: Cmd<Tok>) returns (p: nat)
    requires Settled(b, i) && Lex(b, i) == ts + rest && PipeOf(ts, c) && (rest == [] || Begins(rest, {')', '&', ';'}))
    ensures Settled(b, p) && Lex(b, p) == rest && ParsePipe(b, i) == Ok(c, p)
    decreases |ts|, 2
  {
    hide GetToken, Lex, ParseExec, UnitOf, Peek;
    if UnitOf(ts, c) {
      p := UnitGives(b, i, ts, rest, c);
      PeekLex(b, p, {'|'});
    } else {
      var n: nat :| n < |ts| && ts[n].kind == '|' && UnitOf(ts[..n], c.left) && PipeOf(ts[n + 1..], c.right);
      var tail := ts[n + 1..] + rest;
      assert ts + rest == ts[..n] + ([ts[n]] + tail);
      var q := UnitGives(b, i, ts[..n], [ts[n]] + tail, c.left);
      NextToken(b, q, ts[n], tail);
      p := PipeGives(b, GetToken(b, q).next, ts[n + 1..], rest, c.right);
    }
  }

  lemma {:induction false} BackGives(b: string, i: nat, ts: seq<Token>, rest: seq<Token>, c: Cmd<Tok>) returns (p: nat)
    requires Settled(b, i) && Lex(b, i) == ts + rest && BackOf(ts, c) && (rest == [] || Begins(rest, {')', '&', ';'}))
    ensures Settled(b, p) && Lex(b, p) == rest && ParseBack(b, i) == Amps(b, p, c)
    decreases |ts|, 3
  {
    hide GetToken, Lex, ParsePipe, PipeOf;
    if PipeOf(ts, c) {
      p := PipeGives(b, i, ts, rest, c);
    } else {
      var n := |ts| - 1;
      assert ts + rest == ts[..n] + ([ts[n]] + rest);
      var q := BackGives(b, i, ts[..n], [ts[n]] + rest, c.cmd);
      NextToken(b, q, ts[n], rest);
      p := GetToken(b, q).next;
    }
  }

  lemma {:induction false} LineGives(b: string, i: nat, ts: seq<Token>, rest: seq<Token>, c: Cmd<Tok>) returns (p: nat)
    requires Settled(b, i) && Lex(b, i) == ts + rest && LineOf(ts, c) && (rest == [] || Begins(rest, {')'}))
    ensures Settled(b, p) && Lex(b, p) == rest && ParseLine(b, i) == Ok(c, p)
    decreases |ts|, 4
  {
    hide GetToken, Lex, ParseBack, BackOf, Peek;
    if BackOf(ts, c) {
      p := BackGives(b, i, ts, rest, c);
      PeekLex(b, p, {'&'});
      PeekLex(b, p, {';'});
    } else {
      var n: nat :| n < |ts| && ts[n].kind == ';' && BackOf(ts[..n], c.left) && LineOf(ts[n + 1..], c.right);
      var tail := ts[n + 1..] + rest;
      assert ts + rest == ts[..n] + ([ts[n]] + tail);
      var q := BackGives(b, i, ts[..n], [ts[n]] + tail, c.left);
      NextToken(b, q, ts[n], tail);
      PeekLex(b, q, {'&'});
      p := LineGives(b, GetToken(b, q).next, ts[n + 1..], rest, c.right);
    }
  }

  /** The parser accepts exactly the lines of the grammar, and gives the tree that derives all of their tokens. */
  lemma ParseExact(b: string, c: Cmd<Tok>)
    ensures ParseCmd(b) == Ok(c, |b|) <==> LineOf(Line(b), c)
    ensures ParseCmd(b).Ok? ==> ParseCmd(b).pos == |b| && LineOf(Line(b), ParseCmd(b).cmd)
  {
    hide Lex, ParseLine, LineOf;
    var i := Skip(b, 0);
    var r := ParseLine(b, i);
    if r.Ok? {
      var ts := LineTakes(b, i);
      if r.pos == |b| {
        assert ts + Lex(b, |b|) == ts;
      }
    }
    if LineOf(Line(b), c) {
      assert Line(b) + [] == Line(b);
      var p := LineGives(b, i, Line(b), [], c);
    }
  }

  /** What the parser has answered at i is the tree of the tokens it has taken there. */
  ghost predicate Derived(b: string, i: nat, r: Parse) {
    r.Ok? ==> exists ts :: Takes(b, i, ts, r.pos) && UnitOf(ts, r.cmd)
  }

  lemma UnitDerived(b: string, i: nat)
    requires Settled(b, i)
    ensures Derived(b, i, ParseExec(b, i))
  {
    hide Takes, UnitOf, ParseExec;
    if ParseExec(b, i).Ok? {
      var ts := UnitTakes(b, i);
    }
  }

  lemma UnitLine(ts: seq<Token>, c: Cmd<Tok>)
    requires UnitOf(ts, c)
    ensures LineOf(ts, c)
  {
    hide UnitOf;
    assert PipeOf(ts, c);
    assert BackOf(ts, c);
  }

  lemma SimpleUnit(ts: seq<Token>, c: Cmd<Tok>)
    requires Simple(ts) && UnitOf(ts, c)
    ensures |ArgWords(ts)| < MAXARGS && c == SimpleTree(ts)
  {
    assert ts != [] ==> SimpleAt(ts, 0);
  }

  /** Words and redirections alone make nothing but a simple command. */
  lemma OnlySimple(ts: seq<Token>, c: Cmd<Tok>)
    requires Simple(ts) && LineOf(ts, c)
    ensures |ArgWords(ts)| < MAXARGS && c == SimpleTree(ts)
  {
    hide ArgWords, SimpleTree, UnitOf;
    assert ts != [] ==> SimpleAt(ts, |ts| - 1);
    forall n: nat | n < |ts|
      ensures ts[n].kind != '|' && ts[n].kind != ';'
    {
      assert SimpleAt(ts, n);
    }
    assert BackOf(ts, c) && PipeOf(ts, c);
    SimpleUnit(ts, c);
  }

  /** A line of words and redirections: its tree, unless there are too many arguments. */
  lemma SimpleLine(b: string)
    requires Simple(Line(b))
    ensures var ts := Line(b);
      if |ArgWords(ts)| < MAXARGS then ParseCmd(b) == Ok(SimpleTree(ts), |b|) else ParseCmd(b).Panic?
  {
    hide ArgWords, SimpleTree, Lex, ParseCmd, LineOf, Simple;
    var ts := Line(b);
    ParseExact(b, SimpleTree(ts));
    if |ArgWords(ts)| < MAXARGS {
      UnitLine(ts, SimpleTree(ts));
    } else if ParseCmd(b).Ok? {
      OnlySimple(ts, ParseCmd(b).cmd);
      assert false;
    }
  }
}
