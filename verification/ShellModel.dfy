/** The shell's grammar on tokens. */
module ShellModel {

  const MAXARGS := 10
  const O_RDONLY := 0
  const O_WRONLY := 1
  const O_CREATE := 0x200

  /** What stands for a word in a tree: its place in the line, or its text. */
  datatype Leaf = At(q: nat, eq: nat) | Text(s: string)

  datatype Cmd =
    | Exec(argv: seq<Leaf>)
    | Redir(cmd: Cmd, file: Leaf, mode: nat, fd: nat)
    | Pipe(left: Cmd, right: Cmd)
    | List(first: Cmd, second: Cmd)
    | Back(job: Cmd)

  datatype Tok = Word(w: Leaf) | Sym(c: char) | Append

  datatype Redirection = Redirection(file: Leaf, mode: nat, fd: nat)

  datatype Result = Ok(cmd: Cmd, rest: seq<Tok>) | Fail
  datatype RedirResult = RedirOk(rs: seq<Redirection>, rest: seq<Tok>) | RedirFail

  predicate Starts(ts: seq<Tok>, c: char) { ts != [] && ts[0] == Sym(c) }

  predicate StartsRedir(ts: seq<Tok>) { Starts(ts, '<') || Starts(ts, '>') || (ts != [] && ts[0] == Append) }

  predicate StartsEnd(ts: seq<Tok>) { Starts(ts, '|') || Starts(ts, ')') || Starts(ts, '&') || Starts(ts, ';') }

  /** What parseredirs makes of the operator; >> is treated like >. */
  function RedirOf(t: Tok, file: Leaf): Redirection {
    if t == Sym('<') then Redirection(file, O_RDONLY, 0) else Redirection(file, O_WRONLY + O_CREATE, 1)
  }

  function Wrap(c: Cmd, rs: seq<Redirection>): Cmd
    decreases |rs|
  {
    if rs == [] then c else Wrap(Redir(c, rs[0].file, rs[0].mode, rs[0].fd), rs[1..])
  }

  // ---------------------------------------------------------------- the grammar

  function Redirs(ts: seq<Tok>): (r: RedirResult)
    ensures r.RedirOk? ==> |r.rest| <= |ts| && !StartsRedir(r.rest)
  {
    if !StartsRedir(ts) then RedirOk([], ts)
    else if |ts| < 2 || !ts[1].Word? then RedirFail
    else
      match Redirs(ts[2..])
      case RedirFail => RedirFail
      case RedirOk(rs, rest) =>
        RedirOk([RedirOf(ts[0], ts[1].w)] + rs, rest)
  }

  /** The loop of parseexec: args and rs are what it has gathered. */
  function Args(args: seq<Leaf>, rs: seq<Redirection>, ts: seq<Tok>): (r: Result)
    ensures r.Ok? ==> |r.rest| <= |ts|
    decreases |ts|
  {
    if StartsEnd(ts) || ts == [] then Ok(Wrap(Exec(args), rs), ts)
    else if !ts[0].Word? || |args| + 1 >= MAXARGS then Fail
    else
      match Redirs(ts[1..])
      case RedirFail => Fail
      case RedirOk(more, rest) => Args(args + [ts[0].w], rs + more, rest)
  }

  function ParseExec(ts: seq<Tok>): (r: Result)
    ensures r.Ok? ==> |r.rest| <= |ts|
    decreases |ts|, 1
  {
    if Starts(ts, '(') then ParseBlock(ts)
    else
      match Redirs(ts)
      case RedirFail => Fail
      case RedirOk(rs, rest) => Args([], rs, rest)
  }

  function ParseBlock(ts: seq<Tok>): (r: Result)
    requires Starts(ts, '(')
    ensures r.Ok? ==> |r.rest| <= |ts|
    decreases |ts|, 0
  {
    match ParseLine(ts[1..])
    case Fail => Fail
    case Ok(c, rest) =>
      if !Starts(rest, ')') then Fail
      else
        match Redirs(rest[1..])
        case RedirFail => Fail
        case RedirOk(rs, rest') => Ok(Wrap(c, rs), rest')
  }

  function ParsePipe(ts: seq<Tok>): (r: Result)
    ensures r.Ok? ==> |r.rest| <= |ts|
    decreases |ts|, 2
  {
    match ParseExec(ts)
    case Fail => Fail
    case Ok(c, rest) =>
      if !Starts(rest, '|') then Ok(c, rest)
      else
        match ParsePipe(rest[1..])
        case Fail => Fail
        case Ok(d, rest') => Ok(Pipe(c, d), rest')
  }

  function Backs(c: Cmd, ts: seq<Tok>): (r: Result)
    ensures r.Ok? && |r.rest| <= |ts|
    decreases |ts|
  {
    if Starts(ts, '&') then Backs(Back(c), ts[1..]) else Ok(c, ts)
  }

  function ParseLine(ts: seq<Tok>): (r: Result)
    ensures r.Ok? ==> |r.rest| <= |ts|
    decreases |ts|, 3
  {
    match ParsePipe(ts)
    case Fail => Fail
    case Ok(c, rest) =>
      var b := Backs(c, rest);
      if !Starts(b.rest, ';') then b
      else
        match ParseLine(b.rest[1..])
        case Fail => Fail
        case Ok(d, rest') => Ok(List(b.cmd, d), rest')
  }

  /** parsecmd without its side effects: a command that uses every token, or failure. */
  function ParseAll(ts: seq<Tok>): (r: Result)
    ensures r.Ok? ==> r.rest == []
  {
    var r := ParseLine(ts);
    if r.Ok? && r.rest != [] then Fail else r
  }

  // --------------------------------------------------------- one step at a time

  lemma RedirsNone(ts: seq<Tok>)
    requires !StartsRedir(ts)
    ensures Redirs(ts) == RedirOk([], ts)
  {
  }

  lemma RedirsStep(ts: seq<Tok>, rs: seq<Redirection>, rest: seq<Tok>)
    requires StartsRedir(ts) && |ts| >= 2 && ts[1].Word? && Redirs(ts[2..]) == RedirOk(rs, rest)
    ensures Redirs(ts) == RedirOk([RedirOf(ts[0], ts[1].w)] + rs, rest)
  {
  }

  lemma RedirsFail(ts: seq<Tok>)
    requires StartsRedir(ts) && (|ts| < 2 || !ts[1].Word? || Redirs(ts[2..]).RedirFail?)
    ensures Redirs(ts).RedirFail?
  {
  }

  lemma ArgsEnd(args: seq<Leaf>, rs: seq<Redirection>, ts: seq<Tok>)
    requires StartsEnd(ts) || ts == []
    ensures Args(args, rs, ts) == Ok(Wrap(Exec(args), rs), ts)
  {
  }

  lemma ArgsStep(args: seq<Leaf>, rs: seq<Redirection>, ts: seq<Tok>, more: seq<Redirection>, rest: seq<Tok>)
    requires ts != [] && ts[0].Word? && |args| + 1 < MAXARGS && Redirs(ts[1..]) == RedirOk(more, rest)
    ensures Args(args, rs, ts) == Args(args + [ts[0].w], rs + more, rest)
  {
    hide Redirs;
    hide Wrap;
  }

  lemma ExecSimple(ts: seq<Tok>, rs: seq<Redirection>, rest: seq<Tok>)
    requires !Starts(ts, '(') && Redirs(ts) == RedirOk(rs, rest)
    ensures ParseExec(ts) == Args([], rs, rest)
  {
  }

  lemma ExecBlock(ts: seq<Tok>, c: Cmd, rest: seq<Tok>, rs: seq<Redirection>, rest': seq<Tok>)
    requires Starts(ts, '(') && ParseLine(ts[1..]) == Ok(c, rest) && Starts(rest, ')')
             && Redirs(rest[1..]) == RedirOk(rs, rest')
    ensures ParseExec(ts) == Ok(Wrap(c, rs), rest')
  {
    hide Redirs;
    hide ParseLine;
  }

  lemma PipeOne(ts: seq<Tok>, c: Cmd, rest: seq<Tok>)
    requires ParseExec(ts) == Ok(c, rest) && !Starts(rest, '|')
    ensures ParsePipe(ts) == Ok(c, rest)
  {
    hide ParseExec;
  }

  lemma PipeTwo(ts: seq<Tok>, c: Cmd, rest: seq<Tok>, d: Cmd, rest': seq<Tok>)
    requires ParseExec(ts) == Ok(c, rest) && Starts(rest, '|') && ParsePipe(rest[1..]) == Ok(d, rest')
    ensures ParsePipe(ts) == Ok(Pipe(c, d), rest')
  {
    hide ParseExec;
  }

  lemma BacksNone(c: Cmd, ts: seq<Tok>)
    requires !Starts(ts, '&')
    ensures Backs(c, ts) == Ok(c, ts)
  {
  }

  lemma BacksStep(c: Cmd, ts: seq<Tok>)
    requires Starts(ts, '&')
    ensures Backs(c, ts) == Backs(Back(c), ts[1..])
  {
  }

  lemma LineOne(ts: seq<Tok>, c: Cmd, rest: seq<Tok>, b: Cmd, rest': seq<Tok>)
    requires ParsePipe(ts) == Ok(c, rest) && Backs(c, rest) == Ok(b, rest') && !Starts(rest', ';')
    ensures ParseLine(ts) == Ok(b, rest')
  {
    hide ParsePipe;
    hide Backs;
  }

  lemma LineTwo(ts: seq<Tok>, c: Cmd, rest: seq<Tok>, b: Cmd, rest1: seq<Tok>, d: Cmd, rest': seq<Tok>)
    requires ParsePipe(ts) == Ok(c, rest) && Backs(c, rest) == Ok(b, rest1) && Starts(rest1, ';')
             && ParseLine(rest1[1..]) == Ok(d, rest')
    ensures ParseLine(ts) == Ok(List(b, d), rest')
  {
    hide ParsePipe;
    hide Backs;
  }

  function Then(c: Cmd, d: Result): Result { if d.Ok? then Ok(List(c, d.cmd), d.rest) else Fail }

  lemma LineIs(ts: seq<Tok>)
    ensures var r := ParsePipe(ts);
            if r.Fail? then ParseLine(ts) == Fail
            else var b := Backs(r.cmd, r.rest);
              ParseLine(ts) == if Starts(b.rest, ';') then Then(b.cmd, ParseLine(b.rest[1..])) else b
  {
    hide ParsePipe;
    hide Backs;
  }
}
