/** The parser of sh.c on a line of characters, and its termination of the words in place.
    A line is the characters before the terminating NUL. */
module ShellCode {
  import opened Common
  import opened ShellModel
  import opened ShellText
  import ShellGrammar

  datatype Parsed = Good(cmd: Cmd, at: nat) | Bad

  function CharAt(s: string, i: nat): char { if i < |s| then s[i] else '\0' }

  /** p is where the parser stands after reading what r says, having started at i. */
  ghost predicate Stands(s: string, r: Result, p: Parsed, i: nat) {
    if r.Fail? then p.Bad?
    else p.Good? && p.cmd == r.cmd && i <= p.at <= |s| && Lex(s, p.at) == r.rest
  }

  // -------------------------------------------------------------------- scanning

  method SkipBlanks(s: string, i: nat) returns (r: nat)
    requires i <= |s|
    ensures r == Skip(s, i)
  {
    r := i;
    while r < |s| && Blank(s[r])
      invariant i <= r <= |s| && Skip(s, i) == Skip(s, r)
    {
      r := r + 1;
    }
  }

  /** peek(): advance over blanks and look at the next character. */
  method Peek(s: string, ps: nat, toks: string) returns (found: bool, at: nat)
    requires ps <= |s| && '\0' !in s
    ensures at == Skip(s, ps) && Lex(s, at) == Lex(s, ps)
    ensures found <==> at < |s| && s[at] in toks
  {
    at := SkipBlanks(s, ps);
    LexSkip(s, ps);
    found := CharAt(s, at) != '\0' && CharAt(s, at) in toks;
  }

  /** gettoken's code for a token. */
  function Code(t: Tok): char {
    match t
    case Word(_) => 'a'
    case Sym(c) => c
    case Append => '+'
  }

  /** gettoken(): the next token, its place, and the place after it and the blanks. */
  method GetToken(s: string, ps: nat) returns (ret: char, q: nat, eq: nat, at: nat)
    requires ps <= |s| && '\0' !in s
    ensures ps <= at <= |s| && (ret == '\0' <==> Lex(s, ps) == [])
    ensures ret != '\0' ==>
              var t := Lex(s, ps)[0];
              && ps < at && Lex(s, at) == Lex(s, ps)[1..] && ret == Code(t)
              && (ret == 'a' <==> t.Word?) && (t.Word? ==> t.w == At(q, eq))
  {
    q := SkipBlanks(s, ps);
    var i := q;
    ret := CharAt(s, i);
    if ret == '\0' {
    } else if ret == '|' || ret == '(' || ret == ')' || ret == ';' || ret == '&' || ret == '<' {
      i := i + 1;
    } else if ret == '>' {
      i := i + 1;
      if CharAt(s, i) == '>' {
        ret := '+';
        i := i + 1;
      }
    } else {
      ret := 'a';
      while i < |s| && Plain(s[i])
        invariant q <= i <= |s| && WordEnd(s, q) == WordEnd(s, i)
      {
        i := i + 1;
      }
    }
    eq := i;
    at := SkipBlanks(s, i);
    LexSkip(s, i);
    if q < |s| {
      assert TokAt(s, q).1 == i;
    }
  }

  /** What the character at hand says about the token at hand. */
  lemma PeekTok(s: string, i: nat)
    requires i <= |s| && Skip(s, i) == i
    ensures Lex(s, i) == [] <==> i == |s|
    ensures forall c | c == '|' || c == '(' || c == ')' || c == ';' || c == '&' ::
            Starts(Lex(s, i), c) <==> i < |s| && s[i] == c
    ensures StartsRedir(Lex(s, i)) <==> i < |s| && (s[i] == '<' || s[i] == '>')
  {
  }

  method PeekChar(s: string, ps: nat, c: char) returns (found: bool, at: nat)
    requires ps <= |s| && '\0' !in s && (c == '|' || c == '(' || c == ')' || c == ';' || c == '&')
    ensures ps <= at <= |s| && Lex(s, at) == Lex(s, ps)
    ensures found <==> Starts(Lex(s, ps), c)
  {
    found, at := Peek(s, ps, [c]);
    SkipSkip(s, ps);
    PeekTok(s, at);
  }

  // --------------------------------------------------------------------- parsing

  ghost function Added(rs: seq<Redirection>, r: RedirResult): RedirResult {
    if r.RedirOk? then RedirOk(rs + r.rs, r.rest) else RedirFail
  }

  /** parseredirs().  The redirections are gathered here and wrapped around the command by
      the callers, since parseexec goes on filling the innermost command. */
  method ReadRedirs(s: string, ps: nat) returns (ok: bool, rs: seq<Redirection>, at: nat)
    requires ps <= |s| && '\0' !in s
    ensures var r := Redirs(Lex(s, ps));
            ok == r.RedirOk? && (ok ==> rs == r.rs && ps <= at <= |s| && Lex(s, at) == r.rest)
  {
    hide Lex;
    ghost var ts := Lex(s, ps);
    rs := [];
    at := ps;
    AddedNone(Redirs(ts));
    while true
      invariant ps <= at <= |s| && Redirs(ts) == Added(rs, Redirs(Lex(s, at)))
      decreases |s| - at
    {
      var more;
      more, at := Peek(s, at, "<>");
      RedirPeek(s, at);
      if !more {
        break;
      }
      var tok, q, eq;
      ghost var here := Lex(s, at);
      tok, q, eq, at := GetToken(s, at);
      var word;
      word, q, eq, at := GetToken(s, at);
      RedirsOne(here, rs);
      assert |here| >= 2 ==> here[1..][1..] == here[2..];
      if word != 'a' {
        return false, rs, at;
      }
      if tok == '<' {
        rs := rs + [Redirection(At(q, eq), O_RDONLY, 0)];
      } else {
        rs := rs + [Redirection(At(q, eq), O_WRONLY + O_CREATE, 1)];
      }
    }
    ok := true;
  }

  lemma AddedNone(r: RedirResult)
    ensures Added([], r) == r
  {
  }

  lemma RedirPeek(s: string, at: nat)
    requires at <= |s| && Skip(s, at) == at
    ensures StartsRedir(Lex(s, at)) <==> at < |s| && s[at] in "<>"
  {
    PeekTok(s, at);
  }

  lemma {:induction false} RedirsOne(ts: seq<Tok>, rs: seq<Redirection>)
    ensures !StartsRedir(ts) ==> Added(rs, Redirs(ts)) == RedirOk(rs, ts)
    ensures StartsRedir(ts) && (|ts| < 2 || !ts[1].Word?) ==> Redirs(ts).RedirFail?
    ensures StartsRedir(ts) && |ts| >= 2 && ts[1].Word? ==>
              Added(rs, Redirs(ts)) == Added(rs + [RedirOf(ts[0], ts[1].w)], Redirs(ts[2..]))
  {
    hide Redirs;
    if !StartsRedir(ts) {
      RedirsNone(ts);
      assert rs + [] == rs;
    } else if |ts| < 2 || !ts[1].Word? || Redirs(ts[2..]).RedirFail? {
      RedirsFail(ts);
    } else {
      var r, r0 := Redirs(ts[2..]), RedirOf(ts[0], ts[1].w);
      RedirsStep(ts, r.rs, r.rest);
      assert rs + ([r0] + r.rs) == rs + [r0] + r.rs;
    }
  }

  lemma EndPeek(s: string, at: nat)
    requires at <= |s| && Skip(s, at) == at
    ensures StartsEnd(Lex(s, at)) <==> at < |s| && s[at] in "|)&;"
    ensures Lex(s, at) == [] <==> at == |s|
  {
    PeekTok(s, at);
  }

  lemma {:induction false} ArgsOne(args: seq<Leaf>, rs: seq<Redirection>, ts: seq<Tok>)
    ensures StartsEnd(ts) || ts == [] ==> Args(args, rs, ts) == Ok(Wrap(Exec(args), rs), ts)
    ensures !StartsEnd(ts) && ts != [] && (!ts[0].Word? || |args| + 1 >= MAXARGS) ==> Args(args, rs, ts) == Fail
    ensures !StartsEnd(ts) && ts != [] && ts[0].Word? && |args| + 1 < MAXARGS ==>
              var r := Redirs(ts[1..]);
              Args(args, rs, ts) == if r.RedirOk? then Args(args + [ts[0].w], rs + r.rs, r.rest) else Fail
  {
    hide Redirs;
    hide Wrap;
  }

  /** parseexec() */
  method ReadExec(s: string, ps: nat) returns (r: Parsed)
    requires ps <= |s| && '\0' !in s
    ensures Stands(s, ParseExec(Lex(s, ps)), r, ps)
    decreases |s| - ps, 1
  {
    hide Lex;
    hide Redirs;
    hide Args;
    hide Wrap;
    hide ParseBlock;
    ghost var ts := Lex(s, ps);
    var block, at := PeekChar(s, ps, '(');
    if block {
      r := ReadBlock(s, at);
      return;
    }
    var ok, rs;
    var args: seq<Leaf> := [];
    ok, rs, at := ReadRedirs(s, at);
    if !ok {
      return Bad;
    }
    while true
      invariant ps <= at <= |s| && |args| < MAXARGS && ParseExec(ts) == Args(args, rs, Lex(s, at))
      decreases |s| - at
    {
      var stop;
      stop, at := Peek(s, at, "|)&;");
      EndPeek(s, at);
      ArgsOne(args, rs, Lex(s, at));
      if stop {
        break;
      }
      var tok, q, eq;
      tok, q, eq, at := GetToken(s, at);
      if tok == '\0' {
        break;
      }
      if tok != 'a' {
        return Bad;
      }
      args := args + [At(q, eq)];
      if |args| >= MAXARGS {
        return Bad;
      }
      var more;
      ok, more, at := ReadRedirs(s, at);
      if !ok {
        return Bad;
      }
      rs := rs + more;
    }
    r := Good(Wrap(Exec(args), rs), at);
  }

  /** parseblock(), whose caller has seen the parenthesis. */
  method ReadBlock(s: string, ps: nat) returns (r: Parsed)
    requires ps <= |s| && '\0' !in s && Starts(Lex(s, ps), '(')
    ensures Stands(s, ParseBlock(Lex(s, ps)), r, ps)
    decreases |s| - ps, 0
  {
    hide Lex;
    hide Redirs;
    hide Wrap;
    hide ParseLine;
    var tok, q, eq, at := GetToken(s, ps);
    r := ReadLine(s, at);
    if r.Bad? {
      return;
    }
    var cmd := r.cmd;
    var close;
    close, at := PeekChar(s, r.at, ')');
    if !close {
      return Bad;
    }
    tok, q, eq, at := GetToken(s, at);
    var ok, rs;
    ok, rs, at := ReadRedirs(s, at);
    if !ok {
      return Bad;
    }
    r := Good(Wrap(cmd, rs), at);
  }

  /** parsepipe() */
  method ReadPipe(s: string, ps: nat) returns (r: Parsed)
    requires ps <= |s| && '\0' !in s
    ensures Stands(s, ParsePipe(Lex(s, ps)), r, ps)
    decreases |s| - ps, 2
  {
    hide Lex;
    hide ParseExec;
    r := ReadExec(s, ps);
    if r.Bad? {
      return;
    }
    var cmd := r.cmd;
    var more, at := PeekChar(s, r.at, '|');
    if more {
      var tok, q, eq;
      tok, q, eq, at := GetToken(s, at);
      r := ReadPipe(s, at);
      if r.Bad? {
        return;
      }
      r := Good(Pipe(cmd, r.cmd), r.at);
    }
  }

  /** parseline() */
  method ReadLine(s: string, ps: nat) returns (r: Parsed)
    requires ps <= |s| && '\0' !in s
    ensures Stands(s, ParseLine(Lex(s, ps)), r, ps)
    decreases |s| - ps, 3
  {
    hide Lex;
    hide ParsePipe;
    hide ParseLine;
    hide Backs;
    LineIs(Lex(s, ps));
    r := ReadPipe(s, ps);
    if r.Bad? {
      return;
    }
    ghost var p := ParsePipe(Lex(s, ps));
    var cmd, at := r.cmd, r.at;
    while true
      invariant ps <= at <= |s| && Backs(p.cmd, p.rest) == Backs(cmd, Lex(s, at))
      decreases |s| - at
    {
      var back;
      back, at := PeekChar(s, at, '&');
      if !back {
        BacksNone(cmd, Lex(s, at));
        break;
      }
      BacksStep(cmd, Lex(s, at));
      var tok, q, eq;
      tok, q, eq, at := GetToken(s, at);
      cmd := Back(cmd);
    }
    var more;
    more, at := PeekChar(s, at, ';');
    if more {
      var tok, q, eq;
      tok, q, eq, at := GetToken(s, at);
      r := ReadLine(s, at);
      if r.Bad? {
        return;
      }
      return Good(List(cmd, r.cmd), r.at);
    }
    r := Good(cmd, at);
  }

  // ---------------------------------------------------------------- terminating

  ghost predicate EndsAt(c: Cmd, k: nat) {
    match c
    case Exec(argv) => exists i :: 0 <= i < |argv| && argv[i].At? && argv[i].eq == k
    case Redir(d, file, _, _) => (file.At? && file.eq == k) || EndsAt(d, k)
    case Pipe(l, r) => EndsAt(l, k) || EndsAt(r, k)
    case List(l, r) => EndsAt(l, k) || EndsAt(r, k)
    case Back(d) => EndsAt(d, k)
  }

  ghost predicate InLine(n: nat, w: Leaf) { w.At? && w.eq < n }

  /** nulterminate(): a NUL right after each word of the tree, and no other change. */
  method NulTerminate(buf: array<char>, c: Cmd)
    requires Leaves((w: Leaf) => InLine(buf.Length, w), c)
    modifies buf
    ensures forall k: nat | k < buf.Length :: buf[k] == if EndsAt(c, k) then '\0' else old(buf[k])
    decreases c
  {
    match c
    case Exec(argv) =>
      var i := 0;
      while i < |argv|
        invariant i <= |argv|
        invariant forall k: nat | k < buf.Length :: buf[k] == if EndsAt(Exec(argv[..i]), k) then '\0' else old(buf[k])
      {
        assert InLine(buf.Length, argv[i]);
        buf[argv[i].eq] := '\0';
        forall k: nat ensures EndsAt(Exec(argv[..i + 1]), k) <==> EndsAt(Exec(argv[..i]), k) || argv[i].eq == k {
          ExecEnds(argv, i, k);
        }
        i := i + 1;
      }
      assert argv[..|argv|] == argv;
    case Redir(d, file, _, _) =>
      NulTerminate(buf, d);
      buf[file.eq] := '\0';
    case Pipe(l, r) =>
      NulTerminate(buf, l);
      NulTerminate(buf, r);
    case List(l, r) =>
      NulTerminate(buf, l);
      NulTerminate(buf, r);
    case Back(d) =>
      NulTerminate(buf, d);
  }

  lemma ExecEnds(argv: seq<Leaf>, i: nat, k: nat)
    requires i < |argv| && argv[i].At?
    ensures EndsAt(Exec(argv[..i + 1]), k) <==> EndsAt(Exec(argv[..i]), k) || argv[i].eq == k
  {
    var a, b := argv[..i], argv[..i + 1];
    if j :| 0 <= j < |a| && a[j].At? && a[j].eq == k { assert b[j] == a[j]; }
    if argv[i].eq == k { assert b[i] == argv[i]; }
    if j :| 0 <= j < |b| && b[j].At? && b[j].eq == k && j != i { assert a[j] == b[j]; }
  }

  /** The C string at q: everything up to the first NUL. */
  ghost function StringAt(b: string, q: nat): string
    requires q <= |b|
    decreases |b| - q
  {
    if q == |b| || b[q] == '\0' then [] else [b[q]] + StringAt(b, q + 1)
  }

  ghost function StringOf(b: string): Leaf -> Leaf {
    (w: Leaf) => if w.At? && w.q <= |b| then Text(StringAt(b, w.q)) else w
  }

  method StrLen(buf: array<char>) returns (n: nat)
    requires '\0' in buf[..]
    ensures n < buf.Length && buf[n] == '\0' && '\0' !in buf[..n]
  {
    n := 0;
    while buf[n] != '\0'
      invariant n < buf.Length && '\0' in buf[n..] && '\0' !in buf[..n]
      decreases buf.Length - n
    {
      assert buf[n..] == [buf[n]] + buf[n + 1..];
      n := n + 1;
    }
  }

  /** parsecmd() on the buffer.  It succeeds exactly on the lines of the grammar; then every
      string of the tree, read from its pointer up to the NUL, is the word the line had
      there.  None is a syntax error. */
  method ParseCmd(buf: array<char>) returns (r: Option<Cmd>, ghost line: string)
    requires '\0' in buf[..]
    modifies buf
    ensures |line| < buf.Length && '\0' !in line && line == old(buf[..])[..|line|] && old(buf[..])[|line|] == '\0'
    ensures r.Some? <==> exists t :: ShellGrammar.Reads(line, t)
    ensures r.Some? ==> ShellGrammar.Reads(line, r.value)
    ensures r.Some? ==> MapCmd(StringOf(buf[..]), r.value) == MapCmd(TextOf(line), r.value)
  {
    hide ParseLine;
    hide ShellGrammar.Reads;
    hide Lex;
    hide TextOf;
    hide StringOf;
    var n := StrLen(buf);
    var s := buf[..n];
    line := s;
    ShellGrammar.ReadsOne(s);
    var p := ReadLine(s, 0);
    if p.Bad? {
      return None, line;
    }
    var _, at := Peek(s, p.at, "");
    SkipSkip(s, p.at);
    EndPeek(s, at);
    if at != n {
      return None, line;
    }
    ShellGrammar.ReadsIff(s, p.cmd);
    ParsedWords(s);
    WordsInLine(s, p.cmd, buf.Length);
    NulTerminate(buf, p.cmd);
    StringsAre(s, buf[..], p.cmd, p.cmd);
    r := Some(p.cmd);
  }

  lemma {:induction false} WordsInLine(s: string, c: Cmd, n: nat)
    requires Leaves((w: Leaf) => IsWord(s, w), c) && |s| < n
    ensures Leaves((w: Leaf) => InLine(n, w), c)
  {
    match c
    case Exec(argv) =>
      assert forall i | 0 <= i < |argv| :: IsWord(s, argv[i]);
    case Redir(d, file, _, _) => WordsInLine(s, d, n);
    case Pipe(l, r) => WordsInLine(s, l, n); WordsInLine(s, r, n);
    case List(l, r) => WordsInLine(s, l, n); WordsInLine(s, r, n);
    case Back(d) => WordsInLine(s, d, n);
  }

  /** NULs land on blanks, symbols or the end, never inside a word. */
  lemma {:induction false} EndsBetween(s: string, c: Cmd, k: nat)
    requires Leaves((w: Leaf) => IsWord(s, w), c) && EndsAt(c, k)
    ensures k <= |s| && (k < |s| ==> !Plain(s[k]))
  {
    match c
    case Exec(argv) =>
      var i :| 0 <= i < |argv| && argv[i].At? && argv[i].eq == k;
      assert IsWord(s, argv[i]);
    case Redir(d, file, _, _) => if !(file.At? && file.eq == k) { EndsBetween(s, d, k); }
    case Pipe(l, r) => if EndsAt(l, k) { EndsBetween(s, l, k); } else { EndsBetween(s, r, k); }
    case List(l, r) => if EndsAt(l, k) { EndsBetween(s, l, k); } else { EndsBetween(s, r, k); }
    case Back(d) => EndsBetween(s, d, k);
  }

  /** b is s with a NUL where the words of c end. */
  ghost predicate Terminated(s: string, b: string, c: Cmd) {
    && |s| < |b| && '\0' !in s
    && forall k: nat | k <= |s| :: b[k] == if EndsAt(c, k) || k == |s| then '\0' else s[k]
  }

  lemma {:induction false} StringIs(b: string, q: nat, e: nat)
    requires q <= e < |b| && b[e] == '\0' && forall k | q <= k < e :: b[k] != '\0'
    ensures StringAt(b, q) == b[q..e]
    decreases e - q
  {
    if q < e { StringIs(b, q + 1, e); }
  }

  lemma WordIs(s: string, b: string, whole: Cmd, w: Leaf)
    requires Terminated(s, b, whole) && Leaves((w: Leaf) => IsWord(s, w), whole) && IsWord(s, w) && EndsAt(whole, w.eq)
    ensures StringOf(b)(w) == TextOf(s)(w)
  {
    forall k: nat | w.q <= k < w.eq ensures b[k] == s[k] && b[k] != '\0' {
      if EndsAt(whole, k) { EndsBetween(s, whole, k); }
    }
    StringIs(b, w.q, w.eq);
    assert b[w.q..w.eq] == s[w.q..w.eq];
  }

  /** The strings of part c of the tree. */
  lemma {:induction false} StringsAre(s: string, b: string, whole: Cmd, c: Cmd)
    requires Terminated(s, b, whole) && Leaves((w: Leaf) => IsWord(s, w), whole) && Leaves((w: Leaf) => IsWord(s, w), c)
    requires forall k | EndsAt(c, k) :: EndsAt(whole, k)
    ensures MapCmd(StringOf(b), c) == MapCmd(TextOf(s), c)
    decreases c
  {
    hide Terminated;
    hide StringOf;
    hide TextOf;
    match c
    case Exec(argv) =>
      forall i | 0 <= i < |argv| ensures StringOf(b)(argv[i]) == TextOf(s)(argv[i]) {
        assert IsWord(s, argv[i]);
        assert EndsAt(c, argv[i].eq);
        WordIs(s, b, whole, argv[i]);
      }
      assert MapLeaves(StringOf(b), argv) == MapLeaves(TextOf(s), argv);
    case Redir(d, file, _, _) =>
      assert EndsAt(c, file.eq);
      WordIs(s, b, whole, file);
      assert forall k | EndsAt(d, k) :: EndsAt(c, k);
      StringsAre(s, b, whole, d);
    case Pipe(l, r) =>
      assert forall k | EndsAt(l, k) :: EndsAt(c, k);
      assert forall k | EndsAt(r, k) :: EndsAt(c, k);
      StringsAre(s, b, whole, l);
      StringsAre(s, b, whole, r);
    case List(l, r) =>
      assert forall k | EndsAt(l, k) :: EndsAt(c, k);
      assert forall k | EndsAt(r, k) :: EndsAt(c, k);
      StringsAre(s, b, whole, l);
      StringsAre(s, b, whole, r);
    case Back(d) =>
      assert forall k | EndsAt(d, k) :: EndsAt(c, k);
      StringsAre(s, b, whole, d);
  }
}
