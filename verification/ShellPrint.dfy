/** Printing a command tree as tokens, with parentheses where precedence needs them; parsing
    gives the tree back. */
module ShellPrint {
  import opened ShellModel

  ghost predicate LegalRedir(mode: nat, fd: nat) {
    (mode == O_RDONLY && fd == 0) || (mode == O_WRONLY + O_CREATE && fd == 1)
  }

  /** Trees the shell can express: at most nine words to a command, and the two redirections. */
  ghost predicate Legal(t: Cmd) {
    match t
    case Exec(argv) => |argv| < MAXARGS
    case Redir(c, _, mode, fd) => LegalRedir(mode, fd) && Legal(c)
    case Pipe(l, r) => Legal(l) && Legal(r)
    case List(l, r) => Legal(l) && Legal(r)
    case Back(c) => Legal(c)
  }

  ghost function WordToks(ws: seq<Leaf>): seq<Tok> {
    if ws == [] then [] else [Word(ws[0])] + WordToks(ws[1..])
  }

  ghost function RedirTok(mode: nat): Tok { if mode == O_RDONLY then Sym('<') else Sym('>') }

  ghost function LineToks(t: Cmd): seq<Tok>
    decreases t, 2
  {
    match t
    case List(l, r) => BackToks(l) + [Sym(';')] + LineToks(r)
    case Back(_) => BackToks(t)
    case Pipe(_, _) => PipeToks(t)
    case _ => ExecToks(t)
  }

  ghost function BackToks(t: Cmd): seq<Tok>
    decreases t, if t.List? then 4 else 1
  {
    match t
    case List(_, _) => BlockToks(t)
    case Back(c) => BackToks(c) + [Sym('&')]
    case Pipe(_, _) => PipeToks(t)
    case _ => ExecToks(t)
  }

  ghost function PipeToks(t: Cmd): seq<Tok>
    decreases t, if t.Pipe? then 0 else if t.Exec? || t.Redir? then 1 else 4
  {
    match t
    case Pipe(l, r) => ExecToks(l) + [Sym('|')] + PipeToks(r)
    case List(_, _) => BlockToks(t)
    case Back(_) => BlockToks(t)
    case _ => ExecToks(t)
  }

  ghost function ExecToks(t: Cmd): seq<Tok>
    decreases t, if t.Exec? || t.Redir? then 0 else 4
  {
    match t
    case Exec(argv) => WordToks(argv)
    case Redir(c, file, mode, _) => ExecToks(c) + [RedirTok(mode), Word(file)]
    case _ => BlockToks(t)
  }

  ghost function BlockToks(t: Cmd): seq<Tok>
    requires !t.Exec? && !t.Redir?
    decreases t, 3
  {
    [Sym('(')] + LineToks(t) + [Sym(')')]
  }

  // --------------------------------------------------------- chains of redirections

  ghost function Base(t: Cmd): (b: Cmd)
    ensures !b.Redir? && (b == t || b < t) && (Legal(t) ==> Legal(b))
  {
    if t.Redir? then Base(t.cmd) else t
  }

  ghost function Chain(t: Cmd): (rs: seq<Redirection>)
    ensures Legal(t) ==> forall i | 0 <= i < |rs| :: LegalRedir(rs[i].mode, rs[i].fd)
  {
    if t.Redir? then Chain(t.cmd) + [Redirection(t.file, t.mode, t.fd)] else []
  }

  ghost function RedirToks(rs: seq<Redirection>): seq<Tok> {
    if rs == [] then [] else [RedirTok(rs[0].mode), Word(rs[0].file)] + RedirToks(rs[1..])
  }

  lemma {:induction false} WrapSnoc(c: Cmd, rs: seq<Redirection>, r: Redirection)
    ensures Wrap(c, rs + [r]) == Redir(Wrap(c, rs), r.file, r.mode, r.fd)
    decreases |rs|
  {
    if rs != [] {
      assert (rs + [r])[1..] == rs[1..] + [r];
      WrapSnoc(Redir(c, rs[0].file, rs[0].mode, rs[0].fd), rs[1..], r);
    }
  }

  lemma {:induction false} WrapChain(t: Cmd)
    ensures Wrap(Base(t), Chain(t)) == t
  {
    if t.Redir? {
      WrapChain(t.cmd);
      WrapSnoc(Base(t), Chain(t.cmd), Redirection(t.file, t.mode, t.fd));
    }
  }

  lemma {:induction false} RedirToksSnoc(rs: seq<Redirection>, r: Redirection)
    ensures RedirToks(rs + [r]) == RedirToks(rs) + [RedirTok(r.mode), Word(r.file)]
  {
    if rs != [] {
      assert (rs + [r])[1..] == rs[1..] + [r];
      RedirToksSnoc(rs[1..], r);
    }
  }

  lemma {:induction false} ExecToksChain(t: Cmd)
    ensures ExecToks(t) == ExecToks(Base(t)) + RedirToks(Chain(t))
  {
    if t.Redir? {
      ExecToksChain(t.cmd);
      RedirToksSnoc(Chain(t.cmd), Redirection(t.file, t.mode, t.fd));
    }
  }

  // ------------------------------------------------------------------- round trip

  lemma {:induction false} RedirsBack(rs: seq<Redirection>, rest: seq<Tok>)
    requires (forall i | 0 <= i < |rs| :: LegalRedir(rs[i].mode, rs[i].fd)) && !StartsRedir(rest)
    ensures Redirs(RedirToks(rs) + rest) == RedirOk(rs, rest)
  {
    hide Redirs;
    if rs == [] {
      assert RedirToks(rs) + rest == rest;
      RedirsNone(rest);
    } else {
      RedirsBack(rs[1..], rest);
      var ts := RedirToks(rs) + rest;
      assert ts[2..] == RedirToks(rs[1..]) + rest;
      assert RedirOf(ts[0], ts[1].w) == rs[0];
      RedirsStep(ts, rs[1..], rest);
      assert [rs[0]] + rs[1..] == rs;
    }
  }

  /** The words of a simple command, then its redirections. */
  lemma {:induction false} ArgsBack(args: seq<Leaf>, ws: seq<Leaf>, rs: seq<Redirection>, rest: seq<Tok>)
    requires ws != [] && |args| + |ws| < MAXARGS && (StartsEnd(rest) || rest == [])
    requires forall i | 0 <= i < |rs| :: LegalRedir(rs[i].mode, rs[i].fd)
    ensures Args(args, [], WordToks(ws) + (RedirToks(rs) + rest)) == Ok(Wrap(Exec(args + ws), rs), rest)
    decreases |ws|
  {
    hide Redirs;
    hide Args;
    hide Wrap;
    var tail := RedirToks(rs) + rest;
    var ts := WordToks(ws) + tail;
    assert ts[0] == Word(ws[0]) && ts[1..] == WordToks(ws[1..]) + tail;
    hide RedirToks;
    if |ws| == 1 {
      assert ts[1..] == tail && args + ws == args + [ws[0]];
      RedirsBack(rs, rest);
      ArgsStep(args, [], ts, rs, rest);
      assert [] + rs == rs;
      ArgsEnd(args + [ws[0]], rs, rest);
    } else {
      assert ts[1] == Word(ws[1]) && args + ws == args + [ws[0]] + ws[1..];
      RedirsNone(ts[1..]);
      var none: seq<Redirection> := [];
      ArgsStep(args, none, ts, none, ts[1..]);
      assert none + none == none;
      ArgsBack(args + [ws[0]], ws[1..], rs, rest);
    }
  }

  lemma SimpleBack(ws: seq<Leaf>, rs: seq<Redirection>, rest: seq<Tok>)
    requires |ws| < MAXARGS && (StartsEnd(rest) || rest == [])
    requires forall i | 0 <= i < |rs| :: LegalRedir(rs[i].mode, rs[i].fd)
    ensures ParseExec(WordToks(ws) + (RedirToks(rs) + rest)) == Ok(Wrap(Exec(ws), rs), rest)
  {
    hide Redirs;
    hide Args;
    hide Wrap;
    hide ParseExec;
    var tail := RedirToks(rs) + rest;
    var ts := WordToks(ws) + tail;
    if ws == [] {
      assert ts == tail;
      RedirsBack(rs, rest);
      RedirsFirst(rs, rest);
      ExecSimple(ts, rs, rest);
      ArgsEnd([], rs, rest);
    } else {
      assert ts[0] == Word(ws[0]);
      RedirsNone(ts);
      ExecSimple(ts, [], ts);
      ArgsBack([], ws, rs, rest);
      assert [] + ws == ws;
    }
  }

  lemma RedirsFirst(rs: seq<Redirection>, rest: seq<Tok>)
    requires StartsEnd(rest) || rest == []
    ensures !Starts(RedirToks(rs) + rest, '(')
  {
    if rs != [] {
      assert (RedirToks(rs) + rest)[0] == RedirTok(rs[0].mode);
    } else {
      assert RedirToks(rs) + rest == rest;
    }
  }

  ghost predicate EndsPipe(rest: seq<Tok>) {
    rest == [] || Starts(rest, ')') || Starts(rest, '&') || Starts(rest, ';')
  }

  lemma {:induction false} LineBack(t: Cmd, rest: seq<Tok>)
    requires Legal(t) && (rest == [] || Starts(rest, ')'))
    ensures ParseLine(LineToks(t) + rest) == Ok(t, rest)
    decreases t, 6
  {
    hide ParsePipe;
    hide ParseLine;
    hide Backs;
    var ts := LineToks(t) + rest;
    if t.List? {
      var l, r := t.first, t.second;
      var later := [Sym(';')] + LineToks(r) + rest;
      assert ts == BackToks(l) + later;
      var c, rc := JobsBack(l, later);
      BacksNone(l, later);
      assert later[1..] == LineToks(r) + rest;
      LineBack(r, rest);
      LineTwo(ts, c, rc, l, later, r, rest);
    } else {
      assert LineToks(t) == BackToks(t);
      var c, rc := JobsBack(t, rest);
      BacksNone(t, rest);
      LineOne(ts, c, rc, t, rest);
    }
  }

  /** After the pipeline comes the run of & that the tree asks for. */
  lemma {:induction false} JobsBack(t: Cmd, rest: seq<Tok>) returns (c: Cmd, rc: seq<Tok>)
    requires Legal(t) && EndsPipe(rest)
    ensures ParsePipe(BackToks(t) + rest) == Ok(c, rc) && Backs(c, rc) == Backs(t, rest)
    decreases t, if t.List? then 9 else 5
  {
    hide ParsePipe;
    hide Backs;
    if t.Back? {
      var later := [Sym('&')] + rest;
      assert BackToks(t) + rest == BackToks(t.job) + later;
      c, rc := JobsBack(t.job, later);
      assert later[1..] == rest;
      BacksStep(t.job, later);
    } else {
      assert BackToks(t) == PipeToks(t);
      PipeBack(t, rest);
      c, rc := t, rest;
    }
  }

  lemma {:induction false} PipeBack(t: Cmd, rest: seq<Tok>)
    requires Legal(t) && EndsPipe(rest)
    ensures ParsePipe(PipeToks(t) + rest) == Ok(t, rest)
    decreases t, if t.List? || t.Back? then 8 else 4
  {
    hide ParsePipe;
    hide ParseExec;
    var ts := PipeToks(t) + rest;
    if t.Pipe? {
      var l, r := t.left, t.right;
      var later := [Sym('|')] + PipeToks(r) + rest;
      assert ts == ExecToks(l) + later;
      ExecBack(l, later);
      assert later[1..] == PipeToks(r) + rest;
      PipeBack(r, rest);
      PipeTwo(ts, l, later, r, rest);
    } else {
      assert PipeToks(t) == ExecToks(t);
      ExecBack(t, rest);
      PipeOne(ts, t, rest);
    }
  }

  lemma {:induction false} ExecBack(t: Cmd, rest: seq<Tok>)
    requires Legal(t) && (StartsEnd(rest) || rest == [])
    ensures ParseExec(ExecToks(t) + rest) == Ok(t, rest)
    decreases t, if t.Exec? || t.Redir? then 0 else 7
  {
    hide ParseExec;
    hide ParseLine;
    hide Redirs;
    hide Wrap;
    var b, rs := Base(t), Chain(t);
    WrapChain(t);
    ExecToksChain(t);
    var tail := RedirToks(rs) + rest;
    assert ExecToks(t) + rest == ExecToks(b) + tail;
    RedirsBack(rs, rest);
    if b.Exec? {
      SimpleBack(b.argv, rs, rest);
    } else {
      var later := [Sym(')')] + tail;
      var ts := ExecToks(b) + tail;
      assert ExecToks(b) == BlockToks(b);
      assert ts[0] == Sym('(') && ts[1..] == LineToks(b) + later;
      LineBack(b, later);
      assert later[1..] == tail;
      ExecBlock(ts, b, later, rs, rest);
    }
  }

  /** Every legal tree, printed, parses to itself. */
  lemma RoundTrip(t: Cmd)
    requires Legal(t)
    ensures ParseAll(LineToks(t)) == Ok(t, [])
  {
    LineBack(t, []);
    assert LineToks(t) + [] == LineToks(t);
  }

  // --------------------------------------------------- whatever is parsed is legal

  ghost predicate LegalRedirs(rs: seq<Redirection>) {
    forall i | 0 <= i < |rs| :: LegalRedir(rs[i].mode, rs[i].fd)
  }

  lemma {:induction false} RedirsLegal(ts: seq<Tok>)
    ensures Redirs(ts).RedirOk? ==> LegalRedirs(Redirs(ts).rs)
    decreases |ts|
  {
    if StartsRedir(ts) && |ts| >= 2 && ts[1].Word? {
      RedirsLegal(ts[2..]);
    }
  }

  lemma {:induction false} WrapLegal(c: Cmd, rs: seq<Redirection>)
    requires Legal(c) && LegalRedirs(rs)
    ensures Legal(Wrap(c, rs))
    decreases |rs|
  {
    if rs != [] {
      WrapLegal(Redir(c, rs[0].file, rs[0].mode, rs[0].fd), rs[1..]);
    }
  }

  lemma {:induction false} ArgsLegal(args: seq<Leaf>, rs: seq<Redirection>, ts: seq<Tok>)
    requires |args| < MAXARGS && LegalRedirs(rs)
    ensures Args(args, rs, ts).Ok? ==> Legal(Args(args, rs, ts).cmd)
    decreases |ts|
  {
    hide Redirs;
    hide Wrap;
    if StartsEnd(ts) || ts == [] {
      WrapLegal(Exec(args), rs);
    } else if ts[0].Word? && |args| + 1 < MAXARGS && Redirs(ts[1..]).RedirOk? {
      var r := Redirs(ts[1..]);
      RedirsLegal(ts[1..]);
      ArgsStep(args, rs, ts, r.rs, r.rest);
      ArgsLegal(args + [ts[0].w], rs + r.rs, r.rest);
    }
  }

  lemma {:induction false} ParsedExec(ts: seq<Tok>)
    ensures ParseExec(ts).Ok? ==> Legal(ParseExec(ts).cmd)
    decreases |ts|, 1
  {
    hide Redirs;
    hide Wrap;
    hide Args;
    hide ParseLine;
    if Starts(ts, '(') {
      ParsedLine(ts[1..]);
      var r := ParseLine(ts[1..]);
      if r.Ok? && Starts(r.rest, ')') && Redirs(r.rest[1..]).RedirOk? {
        RedirsLegal(r.rest[1..]);
        WrapLegal(r.cmd, Redirs(r.rest[1..]).rs);
      }
    } else if Redirs(ts).RedirOk? {
      RedirsLegal(ts);
      ArgsLegal([], Redirs(ts).rs, Redirs(ts).rest);
    }
  }

  lemma {:induction false} ParsedPipe(ts: seq<Tok>)
    ensures ParsePipe(ts).Ok? ==> Legal(ParsePipe(ts).cmd)
    decreases |ts|, 2
  {
    hide ParseExec;
    ParsedExec(ts);
    var r := ParseExec(ts);
    if r.Ok? && Starts(r.rest, '|') {
      ParsedPipe(r.rest[1..]);
    }
  }

  lemma {:induction false} BacksLegal(c: Cmd, ts: seq<Tok>)
    requires Legal(c)
    ensures Legal(Backs(c, ts).cmd)
    decreases |ts|
  {
    if Starts(ts, '&') { BacksLegal(Back(c), ts[1..]); }
  }

  lemma {:induction false} ParsedLine(ts: seq<Tok>)
    ensures ParseLine(ts).Ok? ==> Legal(ParseLine(ts).cmd)
    decreases |ts|, 3
  {
    hide ParsePipe;
    hide ParseLine;
    hide Backs;
    LineIs(ts);
    ParsedPipe(ts);
    var r := ParsePipe(ts);
    if r.Ok? {
      BacksLegal(r.cmd, r.rest);
      var b := Backs(r.cmd, r.rest);
      if Starts(b.rest, ';') { ParsedLine(b.rest[1..]); }
    }
  }

  /** Every tree the parser accepts is legal, so printing and parsing it again gives the same
      tree; in particular no command has more than nine words. */
  lemma ParsedLegal(ts: seq<Tok>)
    requires ParseAll(ts).Ok?
    ensures Legal(ParseAll(ts).cmd)
    ensures ParseAll(LineToks(ParseAll(ts).cmd)) == ParseAll(ts)
  {
    hide ParseLine;
    ParsedLine(ts);
    RoundTrip(ParseAll(ts).cmd);
  }
}
