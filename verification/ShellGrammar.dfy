/** The shell's grammar as a relation between tokens and trees, and the scanner's as one between
    a line and its tokens.  The parser accepts exactly what they derive. */
module ShellGrammar {
  import opened ShellModel
  import opened ShellPrint
  import opened ShellText

  // ------------------------------------------------------------------- the relation

  /** An operator and the redirection it stands for. */
  ghost predicate Means(op: Tok, r: Redirection) {
    || (op == Sym('<') && r.mode == O_RDONLY && r.fd == 0)
    || ((op == Sym('>') || op == Append) && r.mode == O_WRONLY + O_CREATE && r.fd == 1)
  }

  ghost predicate RedirList(ts: seq<Tok>, rs: seq<Redirection>) {
    if rs == [] then ts == []
    else |ts| >= 2 && Means(ts[0], rs[0]) && ts[1] == Word(rs[0].file) && RedirList(ts[2..], rs[1..])
  }

  /** Words and redirections in any order. */
  ghost predicate Simple(ts: seq<Tok>, argv: seq<Leaf>, rs: seq<Redirection>)
    decreases |ts|
  {
    if ts == [] then argv == [] && rs == []
    else if ts[0].Word? then argv != [] && argv[0] == ts[0].w && Simple(ts[1..], argv[1..], rs)
    else
      && |ts| >= 2 && rs != [] && Means(ts[0], rs[0]) && ts[1] == Word(rs[0].file)
      && Simple(ts[2..], argv, rs[1..])
  }

  /** A line in parentheses, and redirections after them. */
  ghost predicate Block(ts: seq<Tok>, t: Cmd)
    decreases |ts|, 0
  {
    var n := |ts|;
    && n >= 2
    && (|| (ts[0] == Sym('(') && ts[n - 1] == Sym(')') && Line(ts[1..n - 1], t))
        || (&& t.Redir? && Means(ts[n - 2], Redirection(t.file, t.mode, t.fd)) && ts[n - 1] == Word(t.file)
            && Block(ts[..n - 2], t.cmd)))
  }

  ghost predicate Unit(ts: seq<Tok>, t: Cmd)
    decreases |ts|, 1
  {
    || (Base(t).Exec? && |Base(t).argv| < MAXARGS && Simple(ts, Base(t).argv, Chain(t)))
    || Block(ts, t)
  }

  ghost predicate Pipeline(ts: seq<Tok>, t: Cmd)
    decreases |ts|, 2
  {
    || Unit(ts, t)
    || (t.Pipe? && exists i: nat ::
          i < |ts| && ts[i] == Sym('|') && Unit(ts[..i], t.left) && Pipeline(ts[i + 1..], t.right))
  }

  /** A pipeline and any number of & after it. */
  ghost predicate Jobs(ts: seq<Tok>, t: Cmd)
    decreases |ts|, 3
  {
    || Pipeline(ts, t)
    || (t.Back? && ts != [] && ts[|ts| - 1] == Sym('&') && Jobs(ts[..|ts| - 1], t.job))
  }

  ghost predicate Line(ts: seq<Tok>, t: Cmd)
    decreases |ts|, 4
  {
    || Jobs(ts, t)
    || (t.List? && exists i: nat ::
          i < |ts| && ts[i] == Sym(';') && Jobs(ts[..i], t.first) && Line(ts[i + 1..], t.second))
  }

  // ------------------------------------------------------------------- redirections

  lemma {:induction false} MeansOne(op: Tok, r: Redirection)
    ensures Means(op, r) ==> StartsRedir([op]) && RedirOf(op, r.file) == r
    ensures StartsRedir([op]) ==> Means(op, RedirOf(op, r.file))
  {
  }

  /** What parseredirs takes is a list of redirections. */
  lemma {:induction false} RedirsDerived(ts: seq<Tok>) returns (n: nat)
    requires Redirs(ts).RedirOk?
    ensures n <= |ts| && ts[n..] == Redirs(ts).rest && RedirList(ts[..n], Redirs(ts).rs)
    decreases |ts|
  {
    hide Redirs;
    if !StartsRedir(ts) {
      RedirsNone(ts);
      n := 0;
    } else {
      if |ts| < 2 || !ts[1].Word? || Redirs(ts[2..]).RedirFail? { RedirsFail(ts); }
      var r := Redirs(ts[2..]);
      var m := RedirsDerived(ts[2..]);
      RedirsStep(ts, r.rs, r.rest);
      n := m + 2;
      var r0 := RedirOf(ts[0], ts[1].w);
      MeansOne(ts[0], r0);
      assert [ts[0]][0] == ts[0];
      assert ts[..n][2..] == ts[2..][..m] && ([r0] + r.rs)[1..] == r.rs;
    }
  }

  lemma {:induction false} RedirsTaken(ts: seq<Tok>, rs: seq<Redirection>, rest: seq<Tok>)
    requires RedirList(ts, rs) && !StartsRedir(rest)
    ensures Redirs(ts + rest) == RedirOk(rs, rest)
    decreases |ts|
  {
    hide Redirs;
    if rs == [] {
      assert ts + rest == rest;
      RedirsNone(rest);
    } else {
      RedirsTaken(ts[2..], rs[1..], rest);
      assert (ts + rest)[2..] == ts[2..] + rest;
      MeansOne(ts[0], rs[0]);
      RedirsStep(ts + rest, rs[1..], rest);
      assert [rs[0]] + rs[1..] == rs;
    }
  }

  lemma {:induction false} RedirListSnoc(ts: seq<Tok>, rs: seq<Redirection>, op: Tok, r: Redirection)
    requires RedirList(ts, rs) && Means(op, r)
    ensures RedirList(ts + [op, Word(r.file)], rs + [r])
  {
    if rs != [] {
      RedirListSnoc(ts[2..], rs[1..], op, r);
      assert (ts + [op, Word(r.file)])[2..] == ts[2..] + [op, Word(r.file)] && (rs + [r])[1..] == rs[1..] + [r];
    }
  }

  /** Redirections in front of words. */
  lemma {:induction false} SimpleMore(ts: seq<Tok>, rs: seq<Redirection>, us: seq<Tok>, argv: seq<Leaf>,
                                      more: seq<Redirection>)
    requires RedirList(ts, rs) && Simple(us, argv, more)
    ensures Simple(ts + us, argv, rs + more)
    decreases |ts|
  {
    if rs == [] {
      assert ts + us == us && rs + more == more;
    } else {
      SimpleMore(ts[2..], rs[1..], us, argv, more);
      assert (ts + us)[2..] == ts[2..] + us && (rs + more)[1..] == rs[1..] + more;
    }
  }

  lemma {:induction false} WrapBase(c: Cmd, rs: seq<Redirection>)
    ensures Base(Wrap(c, rs)) == Base(c) && Chain(Wrap(c, rs)) == Chain(c) + rs
    decreases |rs|
  {
    if rs != [] {
      var d := Redir(c, rs[0].file, rs[0].mode, rs[0].fd);
      WrapBase(d, rs[1..]);
      assert Chain(d) == Chain(c) + [rs[0]];
      assert Chain(c) + [rs[0]] + rs[1..] == Chain(c) + rs;
    } else {
      assert Chain(c) + rs == Chain(c);
    }
  }

  // ------------------------------------------------- what is accepted is derived

  /** A word, redirections, and more of both. */
  lemma {:induction false} SimpleWord(ts: seq<Tok>, k: nat, m: nat, rs: seq<Redirection>, ws: seq<Leaf>,
                                      more: seq<Redirection>)
    requires 1 + k + m <= |ts| && ts[0].Word? && RedirList(ts[1..][..k], rs) && Simple(ts[1 + k..][..m], ws, more)
    ensures Simple(ts[..1 + k + m], [ts[0].w] + ws, rs + more)
  {
    SimpleMore(ts[1..][..k], rs, ts[1 + k..][..m], ws, more);
    var us := ts[..1 + k + m];
    assert us[1..] == ts[1..][..k] + ts[1 + k..][..m] && ([ts[0].w] + ws)[1..] == ws;
  }

  /** What one turn of parseexec's loop has to find. */
  lemma {:induction false} ArgsWord(args: seq<Leaf>, rs: seq<Redirection>, ts: seq<Tok>)
    requires Args(args, rs, ts).Ok? && !StartsEnd(ts) && ts != []
    ensures ts[0].Word? && |args| + 1 < MAXARGS && Redirs(ts[1..]).RedirOk?
    ensures var r := Redirs(ts[1..]); Args(args, rs, ts) == Args(args + [ts[0].w], rs + r.rs, r.rest)
  {
    hide Redirs;
    hide Wrap;
  }

  lemma {:induction false} ArgsDerived(args: seq<Leaf>, rs: seq<Redirection>, ts: seq<Tok>)
    returns (n: nat, ws: seq<Leaf>, more: seq<Redirection>)
    requires Args(args, rs, ts).Ok? && |args| < MAXARGS
    ensures n <= |ts| && ts[n..] == Args(args, rs, ts).rest && Simple(ts[..n], ws, more)
    ensures |args| + |ws| < MAXARGS && Args(args, rs, ts).cmd == Wrap(Exec(args + ws), rs + more)
    decreases |ts|
  {
    hide Redirs;
    hide Wrap;
    hide Args;
    if StartsEnd(ts) || ts == [] {
      ArgsEnd(args, rs, ts);
      n, ws, more := 0, [], [];
      assert args + [] == args && rs + [] == rs;
    } else {
      hide Simple;
      hide RedirList;
      ArgsWord(args, rs, ts);
      var r, w := Redirs(ts[1..]), ts[0].w;
      var k := RedirsDerived(ts[1..]);
      assert r.rest == ts[1 + k..];
      var m, ws1, more1 := ArgsDerived(args + [w], rs + r.rs, r.rest);
      n, ws, more := 1 + k + m, [w] + ws1, r.rs + more1;
      SimpleWord(ts, k, m, r.rs, ws1, more1);
      assert ts[n..] == r.rest[m..];
      assert args + [w] + ws1 == args + ws && rs + r.rs + more1 == rs + more;
    }
  }

  lemma {:induction false} BlockMore(ts: seq<Tok>, c: Cmd, us: seq<Tok>, rs: seq<Redirection>)
    requires Block(ts, c) && RedirList(us, rs)
    ensures Block(ts + us, Wrap(c, rs))
    decreases |rs|
  {
    if rs == [] {
      assert ts + us == ts;
    } else {
      var ts1, d := ts + us[..2], Redir(c, rs[0].file, rs[0].mode, rs[0].fd);
      assert ts1[..|ts1| - 2] == ts && ts1[|ts1| - 2] == us[0] && ts1[|ts1| - 1] == us[1];
      assert rs[0] == Redirection(d.file, d.mode, d.fd);
      assert Block(ts1, d);
      hide Block;
      BlockMore(ts1, d, us[2..], rs[1..]);
      assert ts1 + us[2..] == ts + us;
    }
  }

  lemma {:induction false} SimpleDerived(ts: seq<Tok>) returns (n: nat)
    requires !Starts(ts, '(') && ParseExec(ts).Ok?
    ensures n <= |ts| && ts[n..] == ParseExec(ts).rest && Unit(ts[..n], ParseExec(ts).cmd)
  {
    hide Redirs;
    hide Args;
    hide Wrap;
    var r := Redirs(ts);
    var k := RedirsDerived(ts);
    ExecSimple(ts, r.rs, r.rest);
    var m, ws, more := ArgsDerived([], r.rs, r.rest);
    n := k + m;
    SimpleMore(ts[..k], r.rs, r.rest[..m], ws, more);
    assert ts[..n] == ts[..k] + r.rest[..m] && ts[n..] == r.rest[m..];
    WrapBase(Exec(ws), r.rs + more);
    assert [] + ws == ws && [] + (r.rs + more) == r.rs + more;
  }

  lemma {:induction false} BlockIs(ts: seq<Tok>)
    requires Starts(ts, '(') && ParseExec(ts).Ok?
    ensures ParseLine(ts[1..]).Ok? && Starts(ParseLine(ts[1..]).rest, ')')
    ensures var r := ParseLine(ts[1..]);
            var q := Redirs(r.rest[1..]);
            q.RedirOk? && ParseExec(ts) == Ok(Wrap(r.cmd, q.rs), q.rest)
  {
    hide Redirs;
    hide Wrap;
    hide ParseLine;
  }

  /** The tokens of a line in parentheses, and of the redirections after it. */
  lemma {:induction false} BlockTokens(ts: seq<Tok>, c: Cmd, m: nat, k: nat, rs: seq<Redirection>)
    requires |ts| >= m + 2 + k && ts[0] == Sym('(') && ts[m + 1] == Sym(')') && Line(ts[1..][..m], c)
    requires RedirList(ts[m + 2..][..k], rs)
    ensures Unit(ts[..m + 2 + k], Wrap(c, rs))
  {
    hide Line;
    hide Wrap;
    var us := ts[..m + 2];
    assert us[1..m + 1] == ts[1..][..m];
    assert Block(us, c);
    hide Block;
    BlockMore(us, c, ts[m + 2..][..k], rs);
    assert us + ts[m + 2..][..k] == ts[..m + 2 + k];
  }

  lemma {:induction false} ExecDerived(ts: seq<Tok>) returns (n: nat)
    requires ParseExec(ts).Ok?
    ensures n <= |ts| && ts[n..] == ParseExec(ts).rest && Unit(ts[..n], ParseExec(ts).cmd)
    decreases |ts|, 1
  {
    hide ParseExec;
    hide Redirs;
    hide Wrap;
    hide ParseLine;
    hide Unit;
    hide Line;
    if !Starts(ts, '(') {
      n := SimpleDerived(ts);
    } else {
      BlockIs(ts);
      var r := ParseLine(ts[1..]);
      var m := LineDerived(ts[1..]);
      assert r.rest == ts[m + 1..] && r.rest[1..] == ts[m + 2..];
      var k := RedirsDerived(ts[m + 2..]);
      n := m + 2 + k;
      BlockTokens(ts, r.cmd, m, k, Redirs(ts[m + 2..]).rs);
      assert ts[n..] == ts[m + 2..][k..];
    }
  }

  lemma {:induction false} PipeDerived(ts: seq<Tok>) returns (n: nat)
    requires ParsePipe(ts).Ok?
    ensures n <= |ts| && ts[n..] == ParsePipe(ts).rest && Pipeline(ts[..n], ParsePipe(ts).cmd)
    decreases |ts|, 2
  {
    hide ParseExec;
    hide Unit;
    var r := ParseExec(ts);
    n := ExecDerived(ts);
    if Starts(r.rest, '|') {
      var q := ParsePipe(r.rest[1..]);
      PipeTwo(ts, r.cmd, r.rest, q.cmd, q.rest);
      var m := PipeDerived(r.rest[1..]);
      var k := n;
      n := k + 1 + m;
      var us := ts[..n];
      assert us[k] == Sym('|') && us[..k] == ts[..k] && us[k + 1..] == r.rest[1..][..m];
    }
  }

  lemma {:induction false} BacksDerived(us: seq<Tok>, c: Cmd, ts: seq<Tok>) returns (n: nat)
    requires Jobs(us, c)
    ensures n <= |ts| && ts[n..] == Backs(c, ts).rest && Jobs(us + ts[..n], Backs(c, ts).cmd)
    decreases |ts|
  {
    hide Pipeline;
    if Starts(ts, '&') {
      var vs := us + [ts[0]];
      assert vs[..|vs| - 1] == us && vs[|vs| - 1] == Sym('&');
      assert Jobs(vs, Back(c));
      var m := BacksDerived(vs, Back(c), ts[1..]);
      n := m + 1;
      assert vs + ts[1..][..m] == us + ts[..n];
    } else {
      n := 0;
      assert us + ts[..0] == us;
    }
  }

  lemma {:induction false} ListTokens(ts: seq<Tok>, h: nat, q: nat, c: Cmd, d: Cmd)
    requires h + 1 + q <= |ts| && ts[h] == Sym(';') && Jobs(ts[..h], c) && Line(ts[h + 1..][..q], d)
    ensures Line(ts[..h + 1 + q], List(c, d))
  {
    hide Jobs;
    var us := ts[..h + 1 + q];
    assert us[h] == Sym(';') && us[..h] == ts[..h] && us[h + 1..] == ts[h + 1..][..q];
  }

  lemma {:induction false} LineDerived(ts: seq<Tok>) returns (n: nat)
    requires ParseLine(ts).Ok?
    ensures n <= |ts| && ts[n..] == ParseLine(ts).rest && Line(ts[..n], ParseLine(ts).cmd)
    decreases |ts|, 3
  {
    hide ParsePipe;
    hide ParseLine;
    hide Backs;
    hide Pipeline;
    LineIs(ts);
    var r := ParsePipe(ts);
    var k := PipeDerived(ts);
    assert Jobs(ts[..k], r.cmd);
    hide Jobs;
    var m := BacksDerived(ts[..k], r.cmd, r.rest);
    var b, h := Backs(r.cmd, r.rest), k + m;
    assert ts[..k] + r.rest[..m] == ts[..h] && ts[h..] == b.rest;
    if Starts(b.rest, ';') {
      hide Line;
      assert b.rest[1..] == ts[h + 1..];
      var q := LineDerived(ts[h + 1..]);
      n := h + 1 + q;
      ListTokens(ts, h, q, b.cmd, ParseLine(ts[h + 1..]).cmd);
      assert ts[n..] == ts[h + 1..][q..];
    } else {
      n := h;
    }
  }

  // ------------------------------------------------- what is derived is accepted

  /** The redirections in front of the first word. */
  lemma {:induction false} Lead(ts: seq<Tok>, argv: seq<Leaf>, rs: seq<Redirection>) returns (k: nat, n: nat)
    requires Simple(ts, argv, rs)
    ensures k <= |ts| && n <= |rs| && RedirList(ts[..k], rs[..n]) && Simple(ts[k..], argv, rs[n..])
    ensures ts[k..] == [] || ts[k].Word?
    decreases |ts|
  {
    if ts == [] || ts[0].Word? {
      k, n := 0, 0;
    } else {
      var j, m := Lead(ts[2..], argv, rs[1..]);
      k, n := j + 2, m + 1;
      assert ts[..k][2..] == ts[2..][..j] && rs[..n][1..] == rs[1..][..m];
      assert ts[2..][j..] == ts[k..] && rs[1..][m..] == rs[n..];
    }
  }

  lemma {:induction false} ArgsTaken(args: seq<Leaf>, rs0: seq<Redirection>, ts: seq<Tok>, ws: seq<Leaf>,
                                     rs: seq<Redirection>, rest: seq<Tok>)
    requires Simple(ts, ws, rs) && (ts == [] || ts[0].Word?) && |args| + |ws| < MAXARGS
    requires StartsEnd(rest) || rest == []
    ensures Args(args, rs0, ts + rest) == Ok(Wrap(Exec(args + ws), rs0 + rs), rest)
    decreases |ts|
  {
    hide Redirs;
    hide Args;
    hide Wrap;
    hide RedirList;
    if ts == [] {
      assert ts + rest == rest && args + ws == args && rs0 + rs == rs0;
      ArgsEnd(args, rs0, rest);
    } else {
      var us := ts[1..];
      var k, n := Lead(us, ws[1..], rs);
      var tail := us[k..] + rest;
      RedirsTaken(us[..k], rs[..n], tail);
      assert us[..k] + tail == (ts + rest)[1..];
      ArgsStep(args, rs0, ts + rest, rs[..n], tail);
      ArgsTaken(args + [ws[0]], rs0 + rs[..n], us[k..], ws[1..], rs[n..], rest);
      assert args + [ws[0]] + ws[1..] == args + ws && rs0 + rs[..n] + rs[n..] == rs0 + rs;
    }
  }

  lemma {:induction false} NoParen(ts: seq<Tok>, ws: seq<Leaf>, rs: seq<Redirection>, rest: seq<Tok>)
    requires Simple(ts, ws, rs) && (StartsEnd(rest) || rest == [])
    ensures !Starts(ts + rest, '(')
  {
    if ts == [] { assert ts + rest == rest; }
  }

  lemma {:induction false} SimpleTaken(ts: seq<Tok>, ws: seq<Leaf>, rs: seq<Redirection>, rest: seq<Tok>)
    requires Simple(ts, ws, rs) && |ws| < MAXARGS && (StartsEnd(rest) || rest == [])
    ensures ParseExec(ts + rest) == Ok(Wrap(Exec(ws), rs), rest)
  {
    hide Redirs;
    hide Args;
    hide Wrap;
    hide ParseExec;
    hide Simple;
    hide RedirList;
    var k, n := Lead(ts, ws, rs);
    var tail := ts[k..] + rest;
    NoParen(ts, ws, rs, rest);
    RedirsTaken(ts[..k], rs[..n], tail);
    assert ts[..k] + tail == ts + rest;
    ExecSimple(ts + rest, rs[..n], tail);
    ArgsTaken([], rs[..n], ts[k..], ws, rs[n..], rest);
    assert [] + ws == ws && rs[..n] + rs[n..] == rs;
  }

  /** The block in its parentheses, and the redirections after it. */
  lemma {:induction false} BlockSplit(ts: seq<Tok>, t: Cmd) returns (m: nat, c: Cmd, rs: seq<Redirection>)
    requires Block(ts, t)
    ensures 2 <= m <= |ts| && ts[0] == Sym('(') && ts[m - 1] == Sym(')') && Line(ts[1..m - 1], c)
    ensures RedirList(ts[m..], rs) && t == Wrap(c, rs)
    decreases |ts|
  {
    hide Line;
    hide Wrap;
    var n := |ts|;
    if ts[0] == Sym('(') && ts[n - 1] == Sym(')') && Line(ts[1..n - 1], t) {
      m, c, rs := n, t, [];
      assert Wrap(t, []) == t by { WrapNone(t); }
    } else {
      var r := Redirection(t.file, t.mode, t.fd);
      var us := ts[..n - 2];
      var rs0;
      m, c, rs0 := BlockSplit(us, t.cmd);
      assert us[1..m - 1] == ts[1..m - 1];
      rs := rs0 + [r];
      RedirListSnoc(us[m..], rs0, ts[n - 2], r);
      assert us[m..] + [ts[n - 2], Word(r.file)] == ts[m..];
      WrapSnoc(c, rs0, r);
    }
  }

  lemma WrapNone(c: Cmd)
    ensures Wrap(c, []) == c
  {
  }

  lemma {:induction false} UnitTaken(ts: seq<Tok>, t: Cmd, rest: seq<Tok>)
    requires Unit(ts, t) && (StartsEnd(rest) || rest == [])
    ensures ParseExec(ts + rest) == Ok(t, rest)
    decreases |ts|, 1
  {
    hide ParseExec;
    hide ParseLine;
    hide Redirs;
    hide Wrap;
    if Base(t).Exec? && |Base(t).argv| < MAXARGS && Simple(ts, Base(t).argv, Chain(t)) {
      SimpleTaken(ts, Base(t).argv, Chain(t), rest);
      WrapChain(t);
    } else {
      var m, c, rs := BlockSplit(ts, t);
      hide Line;
      var tail := ts[m..] + rest;
      var later := [Sym(')')] + tail;
      LineTaken(ts[1..m - 1], c, later);
      assert (ts + rest)[1..] == ts[1..m - 1] + later;
      RedirsTaken(ts[m..], rs, rest);
      assert later[1..] == tail;
      ExecBlock(ts + rest, c, later, rs, rest);
    }
  }

  lemma {:induction false} PipeTaken(ts: seq<Tok>, t: Cmd, rest: seq<Tok>)
    requires Pipeline(ts, t) && EndsPipe(rest)
    ensures ParsePipe(ts + rest) == Ok(t, rest)
    decreases |ts|, 2
  {
    hide ParsePipe;
    hide ParseExec;
    hide Unit;
    if Unit(ts, t) {
      UnitTaken(ts, t, rest);
      PipeOne(ts + rest, t, rest);
    } else {
      var i: nat :| i < |ts| && ts[i] == Sym('|') && Unit(ts[..i], t.left) && Pipeline(ts[i + 1..], t.right);
      var later := ts[i..] + rest;
      assert ts[..i] + later == ts + rest && later[1..] == ts[i + 1..] + rest;
      UnitTaken(ts[..i], t.left, later);
      PipeTaken(ts[i + 1..], t.right, rest);
      PipeTwo(ts + rest, t.left, later, t.right, rest);
    }
  }

  lemma {:induction false} JobsTaken(ts: seq<Tok>, t: Cmd, rest: seq<Tok>) returns (c: Cmd, rc: seq<Tok>)
    requires Jobs(ts, t) && EndsPipe(rest)
    ensures ParsePipe(ts + rest) == Ok(c, rc) && Backs(c, rc) == Backs(t, rest)
    decreases |ts|, 3
  {
    hide ParsePipe;
    hide Backs;
    hide Pipeline;
    if Pipeline(ts, t) {
      PipeTaken(ts, t, rest);
      c, rc := t, rest;
    } else {
      var n := |ts| - 1;
      var later := [Sym('&')] + rest;
      assert ts[..n] + later == ts + rest && later[1..] == rest;
      c, rc := JobsTaken(ts[..n], t.job, later);
      BacksStep(t.job, later);
    }
  }

  lemma {:induction false} LineTaken(ts: seq<Tok>, t: Cmd, rest: seq<Tok>)
    requires Line(ts, t) && (rest == [] || Starts(rest, ')'))
    ensures ParseLine(ts + rest) == Ok(t, rest)
    decreases |ts|, 4
  {
    hide ParsePipe;
    hide ParseLine;
    hide Backs;
    hide Jobs;
    if Jobs(ts, t) {
      var c, rc := JobsTaken(ts, t, rest);
      BacksNone(t, rest);
      LineOne(ts + rest, c, rc, t, rest);
    } else {
      var i: nat :| i < |ts| && ts[i] == Sym(';') && Jobs(ts[..i], t.first) && Line(ts[i + 1..], t.second);
      hide Line;
      LineTaken(ts[i + 1..], t.second, rest);
      ListTaken(ts, t, i, rest);
    }
  }

  lemma {:induction false} ListTaken(ts: seq<Tok>, t: Cmd, i: nat, rest: seq<Tok>)
    requires t.List? && i < |ts| && ts[i] == Sym(';') && Jobs(ts[..i], t.first)
    requires ParseLine(ts[i + 1..] + rest) == Ok(t.second, rest)
    ensures ParseLine(ts + rest) == Ok(t, rest)
    decreases |ts|, 3
  {
    hide ParsePipe;
    hide ParseLine;
    hide Backs;
    hide Jobs;
    var later := ts[i..] + rest;
    assert ts[..i] + later == ts + rest && later[1..] == ts[i + 1..] + rest;
    var c, rc := JobsTaken(ts[..i], t.first, later);
    BacksNone(t.first, later);
    LineTwo(ts + rest, c, rc, t.first, later, t.second, rest);
  }

  /** The parser gives a tree exactly for the tokens that derive it. */
  lemma {:induction false} ParsedIff(ts: seq<Tok>, t: Cmd)
    ensures ParseAll(ts) == Ok(t, []) <==> Line(ts, t)
  {
    hide ParseLine;
    hide Line;
    if ParseAll(ts) == Ok(t, []) {
      var n := LineDerived(ts);
      assert ts[..n] == ts;
    }
    if Line(ts, t) {
      LineTaken(ts, t, []);
      assert ts + [] == ts;
    }
  }

  // ------------------------------------------------------------------- the scanner

  /** The characters from a up to b are token t, and no longer token starts at a. */
  ghost predicate IsToken(s: string, a: nat, b: nat, t: Tok) {
    && a < b <= |s|
    && match t
       case Word(w) => w == At(a, b) && (forall k | a <= k < b :: Plain(s[k])) && (b < |s| ==> !Plain(s[b]))
       case Sym(c) => b == a + 1 && s[a] == c && Symbol(c) && (c == '>' ==> b == |s| || s[b] != '>')
       case Append => b == a + 2 && s[a] == s[a + 1] == '>'
  }

  /** From i on the line is blanks and these tokens. */
  ghost predicate Scans(s: string, i: nat, ts: seq<Tok>)
    decreases |ts|
  {
    if ts == [] then forall k | i <= k < |s| :: Blank(s[k])
    else exists a: nat, b: nat ::
      i <= a && IsToken(s, a, b, ts[0]) && (forall k | i <= k < a :: Blank(s[k])) && Scans(s, b, ts[1..])
  }

  lemma {:induction false} TokenOne(s: string, a: nat, b: nat, t: Tok)
    requires a < |s| && !Blank(s[a])
    ensures IsToken(s, a, b, t) <==> TokAt(s, a) == (t, b)
  {
    var w := WordEnd(s, a);
    if b <= |s| && (forall k | a <= k < b :: Plain(s[k])) && (b < |s| ==> !Plain(s[b])) && a < b {
      assert b == w;
    }
  }

  /** The scanner gives exactly the tokens of the line. */
  lemma {:induction false} ScannedIff(s: string, i: nat, ts: seq<Tok>)
    requires i <= |s|
    ensures Lex(s, i) == ts <==> Scans(s, i, ts)
    decreases |ts|
  {
    var q := Skip(s, i);
    if ts != [] {
      if q < |s| {
        var e := TokAt(s, q).1;
        ScannedIff(s, e, ts[1..]);
        TokenOne(s, q, e, ts[0]);
        assert Lex(s, i) == ts ==> Lex(s, e) == ts[1..] && IsToken(s, q, e, ts[0]);
        assert ts == [ts[0]] + ts[1..];
      }
      if Scans(s, i, ts) {
        var a: nat, b: nat :| i <= a && IsToken(s, a, b, ts[0]) && (forall k | i <= k < a :: Blank(s[k]))
                              && Scans(s, b, ts[1..]);
        assert !Blank(s[a]) && a == q;
        TokenOne(s, a, b, ts[0]);
      }
    }
  }

  /** The line is in the shell's grammar, with tree t. */
  ghost predicate Reads(s: string, t: Cmd) {
    exists ts: seq<Tok> :: Scans(s, 0, ts) && Line(ts, t)
  }

  lemma {:induction false} ReadsIff(s: string, t: Cmd)
    ensures Reads(s, t) <==> ParseAll(Lex(s, 0)) == Ok(t, [])
  {
    hide Line;
    hide Scans;
    hide ParseAll;
    hide Lex;
    var ts := Lex(s, 0);
    ScannedIff(s, 0, ts);
    ParsedIff(ts, t);
    if Reads(s, t) {
      var us :| Scans(s, 0, us) && Line(us, t);
      ScannedIff(s, 0, us);
    }
  }

  /** A line has one tree at most, and one exactly if the parser accepts it. */
  lemma {:induction false} ReadsOne(s: string)
    ensures ParseAll(Lex(s, 0)).Ok? <==> exists t :: Reads(s, t)
    ensures forall t | Reads(s, t) :: t == ParseAll(Lex(s, 0)).cmd
  {
    hide Reads;
    hide Lex;
    var r := ParseAll(Lex(s, 0));
    forall t ensures Reads(s, t) <==> r == Ok(t, []) {
      ReadsIff(s, t);
    }
    if r.Ok? { assert Reads(s, r.cmd); }
  }
}
