/**
 The command parser of sh.c as functions of the line and a position in it: tokens, the recursive descent,
 and its panics.
 */
module Shell {
  const MAXARGS: nat := 10
  const NUL: char := '\0'

  /** O_RDONLY on descriptor 0, or O_WRONLY|O_CREATE on descriptor 1, for both > and >>. */
  datatype Mode = Read | Write

  /** A word of the line, from q up to eq. */
  datatype Tok = Tok(q: nat, eq: nat)

  /** The tree of a command, whose words are places in a line, or text. */
  datatype Cmd<T> =
    | Exec(argv: seq<T>)
    | Redir(cmd: Cmd<T>, file: T, mode: Mode)
    | Pipe(left: Cmd<T>, right: Cmd<T>)
    | List(left: Cmd<T>, right: Cmd<T>)
    | Back(cmd: Cmd<T>)

  datatype Why = MissingFile | MissingParen | Syntax | TooManyArgs | Leftovers

  datatype Parse = Ok(cmd: Cmd<Tok>, pos: nat) | Panic(why: Why)

  // ---- tokens ----

  predicate IsSpace(c: char) {
    c == ' ' || c == '\t' || c == '\r' || c == '\n' || c == '\U{0B}'
  }

  predicate IsSymbol(c: char) {
    c == '<' || c == '|' || c == '>' || c == '&' || c == ';' || c == '(' || c == ')'
  }

  predicate IsWordChar(c: char) {
    !IsSpace(c) && !IsSymbol(c)
  }

  function Skip(b: string, i: nat): (r: nat)
    requires i <= |b|
    ensures i <= r <= |b| && Settled(b, r)
    ensures forall k :: i <= k < r ==> IsSpace(b[k])
    decreases |b| - i
  {
    if i < |b| && IsSpace(b[i]) then Skip(b, i + 1) else i
  }

  /** No white space at i: where every token leaves the parser. */
  predicate Settled(b: string, i: nat) {
    i <= |b| && (i < |b| ==> !IsSpace(b[i]))
  }

  function WordEnd(b: string, i: nat): (r: nat)
    requires i <= |b|
    ensures i <= r <= |b| && (r < |b| ==> !IsWordChar(b[r]))
    ensures forall k :: i <= k < r ==> IsWordChar(b[k])
    decreases |b| - i
  {
    if i < |b| && IsWordChar(b[i]) then WordEnd(b, i + 1) else i
  }

  /** What gettoken returns: 'a' for a word, '+' for >>, NUL at the end, or the symbol. */
  datatype Got = Got(tok: char, q: nat, eq: nat, next: nat)

  function GetToken(b: string, i: nat): (g: Got)
    requires Settled(b, i)
    ensures i <= g.next && Settled(b, g.next) && (i < |b| ==> i < g.next) && (i == |b| <==> g.tok == NUL)
    ensures g.tok == 'a' ==> i == g.q < g.eq <= g.next && g.eq == WordEnd(b, i)
  {
    if i == |b| then Got(NUL, i, i, i)
    else if b[i] == '>' then
      if i + 1 < |b| && b[i + 1] == '>' then Got('+', i, i + 2, Skip(b, i + 2)) else Got('>', i, i + 1, Skip(b, i + 1))
    else if IsSymbol(b[i]) then Got(b[i], i, i + 1, Skip(b, i + 1))
    else Got('a', i, WordEnd(b, i), Skip(b, WordEnd(b, i)))
  }

  predicate Peek(b: string, i: nat, toks: set<char>) {
    i < |b| && b[i] in toks
  }

  // ---- the parser ----

  /** parseredirs: the redirections at i wrap cmd, the first one innermost. */
  function Redirs(b: string, i: nat, cmd: Cmd<Tok>): (r: Parse)
    requires Settled(b, i)
    ensures r.Ok? ==> i <= r.pos && Settled(b, r.pos)
    decreases |b| - i
  {
    if !Peek(b, i, {'<', '>'}) then Ok(cmd, i)
    else
      var g := GetToken(b, i);
      var h := GetToken(b, g.next);
      if h.tok != 'a' then Panic(MissingFile)
      else Redirs(b, h.next, Redir(cmd, Tok(h.q, h.eq), if g.tok == '<' then Read else Write))
  }

  /** parseexec holds on to the innermost command and adds arguments to it under the redirections. */
  function AddArg<T>(cmd: Cmd<T>, arg: T): Cmd<T> {
    match cmd
    case Exec(argv) => Exec(argv + [arg])
    case Redir(c, f, m) => Redir(AddArg(c, arg), f, m)
    case _ => cmd
  }

  /** The loop of parseexec. */
  function Args(b: string, i: nat, ret: Cmd<Tok>, argc: nat): (r: Parse)
    requires Settled(b, i)
    ensures r.Ok? ==> i <= r.pos && Settled(b, r.pos)
    decreases |b| - i
  {
    if Peek(b, i, {'|', ')', '&', ';'}) then Ok(ret, i)
    else
      var g := GetToken(b, i);
      if g.tok == NUL then Ok(ret, g.next)
      else if g.tok != 'a' then Panic(Syntax)
      else if argc + 1 >= MAXARGS then Panic(TooManyArgs)
      else
        match Redirs(b, g.next, AddArg(ret, Tok(g.q, g.eq)))
        case Panic(w) => Panic(w)
        case Ok(c, p) => Args(b, p, c, argc + 1)
  }

  function ParseExec(b: string, i: nat): (r: Parse)
    requires Settled(b, i)
    ensures r.Ok? ==> i <= r.pos && Settled(b, r.pos)
    decreases |b| - i, 1
  {
    if Peek(b, i, {'('}) then ParseBlock(b, i)
    else
      match Redirs(b, i, Exec([]))
      case Panic(w) => Panic(w)
      case Ok(c, p) => Args(b, p, c, 0)
  }

  function ParseBlock(b: string, i: nat): (r: Parse)
    requires Settled(b, i) && Peek(b, i, {'('})
    ensures r.Ok? ==> i <= r.pos && Settled(b, r.pos)
    decreases |b| - i, 0
  {
    match ParseLine(b, GetToken(b, i).next)
    case Panic(w) => Panic(w)
    case Ok(c, p) =>
      if !Peek(b, p, {')'}) then Panic(MissingParen) else Redirs(b, GetToken(b, p).next, c)
  }

  function ParsePipe(b: string, i: nat): (r: Parse)
    requires Settled(b, i)
    ensures r.Ok? ==> i <= r.pos && Settled(b, r.pos)
    decreases |b| - i, 2
  {
    match ParseExec(b, i)
    case Panic(w) => Panic(w)
    case Ok(l, p) =>
      if !Peek(b, p, {'|'}) then Ok(l, p)
      else
        match ParsePipe(b, GetToken(b, p).next)
        case Panic(w) => Panic(w)
        case Ok(r, q) => Ok(Pipe(l, r), q)
  }

  /** The loop of parseline. */
  function Amps(b: string, i: nat, cmd: Cmd<Tok>): (r: Parse)
    requires Settled(b, i)
    ensures r.Ok? && i <= r.pos && Settled(b, r.pos)
    decreases |b| - i
  {
    if Peek(b, i, {'&'}) then Amps(b, GetToken(b, i).next, Back(cmd)) else Ok(cmd, i)
  }

  function ParseBack(b: string, i: nat): (r: Parse)
    requires Settled(b, i)
    ensures r.Ok? ==> i <= r.pos && Settled(b, r.pos)
    decreases |b| - i, 3
  {
    match ParsePipe(b, i)
    case Panic(w) => Panic(w)
    case Ok(c, p) => Amps(b, p, c)
  }

  function ParseLine(b: string, i: nat): (r: Parse)
    requires Settled(b, i)
    ensures r.Ok? ==> i <= r.pos && Settled(b, r.pos)
    decreases |b| - i, 4
  {
    match ParseBack(b, i)
    case Panic(w) => Panic(w)
    case Ok(l, p) =>
      if !Peek(b, p, {';'}) then Ok(l, p)
      else
        match ParseLine(b, GetToken(b, p).next)
        case Panic(w) => Panic(w)
        case Ok(r, q) => Ok(List(l, r), q)
  }

  /** parsecmd up to nulterminate. */
  function ParseCmd(b: string): Parse {
    match ParseLine(b, Skip(b, 0))
    case Panic(w) => Panic(w)
    case Ok(c, p) => if p != |b| then Panic(Leftovers) else Ok(c, p)
  }
}
