/** Command lines as text: tokens with their places, and the text they stand for. */
module ShellText {
  import opened ShellModel
  import opened ShellPrint

  // ---------------------------------------- the grammar does not look at the words

  ghost function MapTok(f: Leaf -> Leaf, t: Tok): Tok { if t.Word? then Word(f(t.w)) else t }

  ghost function MapToks(f: Leaf -> Leaf, ts: seq<Tok>): (r: seq<Tok>)
    ensures |r| == |ts| && forall i | 0 <= i < |ts| :: r[i] == MapTok(f, ts[i])
  {
    seq(|ts|, i requires 0 <= i < |ts| => MapTok(f, ts[i]))
  }

  ghost function MapLeaves(f: Leaf -> Leaf, ws: seq<Leaf>): (r: seq<Leaf>)
    ensures |r| == |ws| && forall i | 0 <= i < |ws| :: r[i] == f(ws[i])
  {
    seq(|ws|, i requires 0 <= i < |ws| => f(ws[i]))
  }

  ghost function MapRedir(f: Leaf -> Leaf, r: Redirection): Redirection { r.(file := f(r.file)) }

  ghost function MapRedirs(f: Leaf -> Leaf, rs: seq<Redirection>): (r: seq<Redirection>)
    ensures |r| == |rs| && forall i | 0 <= i < |rs| :: r[i] == MapRedir(f, rs[i])
  {
    seq(|rs|, i requires 0 <= i < |rs| => MapRedir(f, rs[i]))
  }

  ghost function MapCmd(f: Leaf -> Leaf, c: Cmd): Cmd {
    match c
    case Exec(argv) => Exec(MapLeaves(f, argv))
    case Redir(d, file, mode, fd) => Redir(MapCmd(f, d), f(file), mode, fd)
    case Pipe(l, r) => Pipe(MapCmd(f, l), MapCmd(f, r))
    case List(l, r) => List(MapCmd(f, l), MapCmd(f, r))
    case Back(d) => Back(MapCmd(f, d))
  }

  ghost function MapResult(f: Leaf -> Leaf, r: Result): Result {
    if r.Ok? then Ok(MapCmd(f, r.cmd), MapToks(f, r.rest)) else Fail
  }

  ghost function MapRedirResult(f: Leaf -> Leaf, r: RedirResult): RedirResult {
    if r.RedirOk? then RedirOk(MapRedirs(f, r.rs), MapToks(f, r.rest)) else RedirFail
  }

  lemma MapDrop(f: Leaf -> Leaf, ts: seq<Tok>, n: nat)
    requires n <= |ts|
    ensures MapToks(f, ts)[n..] == MapToks(f, ts[n..])
  {
  }

  lemma MapStarts(f: Leaf -> Leaf, ts: seq<Tok>)
    ensures forall c :: Starts(MapToks(f, ts), c) == Starts(ts, c)
    ensures StartsRedir(MapToks(f, ts)) == StartsRedir(ts) && StartsEnd(MapToks(f, ts)) == StartsEnd(ts)
    ensures (MapToks(f, ts) == []) == (ts == [])
  {
  }

  lemma {:induction false} RedirsNatural(f: Leaf -> Leaf, ts: seq<Tok>)
    ensures Redirs(MapToks(f, ts)) == MapRedirResult(f, Redirs(ts))
    decreases |ts|
  {
    hide Redirs;
    var ts' := MapToks(f, ts);
    MapStarts(f, ts);
    if !StartsRedir(ts) {
      RedirsNone(ts);
      RedirsNone(ts');
      assert MapRedirs(f, []) == [];
    } else if |ts| < 2 || !ts[1].Word? {
      RedirsFail(ts);
      RedirsFail(ts');
    } else {
      RedirsNatural(f, ts[2..]);
      MapDrop(f, ts, 2);
      var r := Redirs(ts[2..]);
      if r.RedirOk? {
        RedirsStep(ts, r.rs, r.rest);
        RedirsStep(ts', MapRedirs(f, r.rs), MapToks(f, r.rest));
        var r0 := RedirOf(ts[0], ts[1].w);
        assert MapRedirs(f, [r0] + r.rs) == [MapRedir(f, r0)] + MapRedirs(f, r.rs);
      } else {
        RedirsFail(ts);
        RedirsFail(ts');
      }
    }
  }

  lemma {:induction false} WrapNatural(f: Leaf -> Leaf, c: Cmd, rs: seq<Redirection>)
    ensures MapCmd(f, Wrap(c, rs)) == Wrap(MapCmd(f, c), MapRedirs(f, rs))
    decreases |rs|
  {
    if rs != [] {
      WrapNatural(f, Redir(c, rs[0].file, rs[0].mode, rs[0].fd), rs[1..]);
      assert MapRedirs(f, rs)[1..] == MapRedirs(f, rs[1..]);
    }
  }

  lemma {:induction false} ArgsNatural(f: Leaf -> Leaf, args: seq<Leaf>, rs: seq<Redirection>, ts: seq<Tok>)
    ensures Args(MapLeaves(f, args), MapRedirs(f, rs), MapToks(f, ts)) == MapResult(f, Args(args, rs, ts))
    decreases |ts|
  {
    hide Redirs;
    hide Wrap;
    var ts', args', rs' := MapToks(f, ts), MapLeaves(f, args), MapRedirs(f, rs);
    MapStarts(f, ts);
    if StartsEnd(ts) || ts == [] {
      WrapNatural(f, Exec(args), rs);
    } else if ts[0].Word? && |args| + 1 < MAXARGS {
      RedirsNatural(f, ts[1..]);
      MapDrop(f, ts, 1);
      var r := Redirs(ts[1..]);
      if r.RedirOk? {
        ArgsStep(args, rs, ts, r.rs, r.rest);
        ArgsStep(args', rs', ts', MapRedirs(f, r.rs), MapToks(f, r.rest));
        hide Args;
        ArgsNatural(f, args + [ts[0].w], rs + r.rs, r.rest);
        assert MapLeaves(f, args + [ts[0].w]) == args' + [f(ts[0].w)];
        assert MapRedirs(f, rs + r.rs) == rs' + MapRedirs(f, r.rs);
      }
    }
  }

  lemma {:induction false} ExecNatural(f: Leaf -> Leaf, ts: seq<Tok>)
    ensures ParseExec(MapToks(f, ts)) == MapResult(f, ParseExec(ts))
    decreases |ts|, 1
  {
    hide Redirs;
    hide ParseLine;
    hide Args;
    hide Wrap;
    MapStarts(f, ts);
    if Starts(ts, '(') {
      BlockNatural(f, ts);
    } else {
      RedirsNatural(f, ts);
      if Redirs(ts).RedirOk? {
        ArgsNatural(f, [], Redirs(ts).rs, Redirs(ts).rest);
        assert MapLeaves(f, []) == [];
      }
    }
    hide ParseBlock;
  }

  lemma {:induction false} BlockNatural(f: Leaf -> Leaf, ts: seq<Tok>)
    requires Starts(ts, '(')
    ensures Starts(MapToks(f, ts), '(') && ParseBlock(MapToks(f, ts)) == MapResult(f, ParseBlock(ts))
    decreases |ts|, 0
  {
    hide Redirs;
    hide ParseLine;
    hide Wrap;
    MapStarts(f, ts);
    LineNatural(f, ts[1..]);
    MapDrop(f, ts, 1);
    var r := ParseLine(ts[1..]);
    if r.Ok? {
      MapStarts(f, r.rest);
      if Starts(r.rest, ')') {
        RedirsNatural(f, r.rest[1..]);
        MapDrop(f, r.rest, 1);
        var q := Redirs(r.rest[1..]);
        if q.RedirOk? { WrapNatural(f, r.cmd, q.rs); }
      }
    }
  }

  lemma {:induction false} PipeNatural(f: Leaf -> Leaf, ts: seq<Tok>)
    ensures ParsePipe(MapToks(f, ts)) == MapResult(f, ParsePipe(ts))
    decreases |ts|, 2
  {
    hide ParseExec;
    ExecNatural(f, ts);
    var r := ParseExec(ts);
    if r.Ok? {
      MapStarts(f, r.rest);
      if Starts(r.rest, '|') {
        PipeNatural(f, r.rest[1..]);
        MapDrop(f, r.rest, 1);
      }
    }
  }

  lemma {:induction false} BacksNatural(f: Leaf -> Leaf, c: Cmd, ts: seq<Tok>)
    ensures Backs(MapCmd(f, c), MapToks(f, ts)) == MapResult(f, Backs(c, ts))
    decreases |ts|
  {
    hide Backs;
    MapStarts(f, ts);
    if Starts(ts, '&') {
      BacksStep(c, ts);
      BacksStep(MapCmd(f, c), MapToks(f, ts));
      BacksNatural(f, Back(c), ts[1..]);
      MapDrop(f, ts, 1);
    } else {
      BacksNone(c, ts);
      BacksNone(MapCmd(f, c), MapToks(f, ts));
    }
  }

  lemma {:induction false} LineNatural(f: Leaf -> Leaf, ts: seq<Tok>)
    ensures ParseLine(MapToks(f, ts)) == MapResult(f, ParseLine(ts))
    decreases |ts|, 3
  {
    hide ParsePipe;
    hide ParseLine;
    hide Backs;
    PipeNatural(f, ts);
    LineIs(ts);
    LineIs(MapToks(f, ts));
    var r := ParsePipe(ts);
    if r.Ok? {
      BacksNatural(f, r.cmd, r.rest);
      var b := Backs(r.cmd, r.rest);
      MapStarts(f, b.rest);
      if Starts(b.rest, ';') {
        LineNatural(f, b.rest[1..]);
        MapDrop(f, b.rest, 1);
      }
    }
  }

  /** Replacing the words replaces the leaves of the tree, and nothing else. */
  lemma ParseNatural(f: Leaf -> Leaf, ts: seq<Tok>)
    ensures ParseAll(MapToks(f, ts)) == MapResult(f, ParseAll(ts))
  {
    hide ParseLine;
    LineNatural(f, ts);
    assert forall r: seq<Tok> :: (MapToks(f, r) == []) == (r == []);
  }

  // ------------------------------------------------------------------- scanning

  predicate Blank(c: char) { c == ' ' || c == '\t' || c == '\r' || c == '\n' || c == 11 as char }

  predicate Symbol(c: char) { c == '<' || c == '|' || c == '>' || c == '&' || c == ';' || c == '(' || c == ')' }

  predicate Plain(c: char) { !Blank(c) && !Symbol(c) }

  ghost function Skip(s: string, i: nat): (r: nat)
    requires i <= |s|
    ensures i <= r <= |s| && (r < |s| ==> !Blank(s[r])) && forall j | i <= j < r :: Blank(s[j])
    decreases |s| - i
  {
    if i < |s| && Blank(s[i]) then Skip(s, i + 1) else i
  }

  ghost function WordEnd(s: string, i: nat): (r: nat)
    requires i <= |s|
    ensures i <= r <= |s| && (r < |s| ==> !Plain(s[r])) && forall j | i <= j < r :: Plain(s[j])
    decreases |s| - i
  {
    if i < |s| && Plain(s[i]) then WordEnd(s, i + 1) else i
  }

  /** The token that starts at q, and where it ends. */
  ghost function TokAt(s: string, q: nat): (r: (Tok, nat))
    requires q < |s| && !Blank(s[q])
    ensures q < r.1 <= |s|
  {
    if s[q] == '>' && q + 1 < |s| && s[q + 1] == '>' then (Append, q + 2)
    else if Symbol(s[q]) then (Sym(s[q]), q + 1)
    else (Word(At(q, WordEnd(s, q))), WordEnd(s, q))
  }

  ghost function Lex(s: string, i: nat): seq<Tok>
    requires i <= |s|
    decreases |s| - i
  {
    var q := Skip(s, i);
    if q == |s| then [] else [TokAt(s, q).0] + Lex(s, TokAt(s, q).1)
  }

  lemma {:induction false} SkipSkip(s: string, i: nat)
    requires i <= |s|
    ensures Skip(s, Skip(s, i)) == Skip(s, i)
    decreases |s| - i
  {
    if i < |s| && Blank(s[i]) { SkipSkip(s, i + 1); }
  }

  lemma LexSkip(s: string, i: nat)
    requires i <= |s|
    ensures Lex(s, Skip(s, i)) == Lex(s, i)
  {
    SkipSkip(s, i);
  }

  /** At(q, eq) is a maximal run of word characters. */
  ghost predicate IsWord(s: string, w: Leaf) {
    && w.At? && w.q < w.eq <= |s| && (forall j | w.q <= j < w.eq :: Plain(s[j]))
    && (w.eq < |s| ==> !Plain(s[w.eq]))
  }

  lemma {:induction false} LexWords(s: string, i: nat)
    requires i <= |s|
    ensures forall k | 0 <= k < |Lex(s, i)| && Lex(s, i)[k].Word? :: IsWord(s, Lex(s, i)[k].w)
    decreases |s| - i
  {
    var q := Skip(s, i);
    if q < |s| {
      LexWords(s, TokAt(s, q).1);
    }
  }

  // ------------------------------------------------------------- words as text

  ghost function TextOf(s: string): Leaf -> Leaf {
    (w: Leaf) => if w.At? && w.q <= w.eq <= |s| then Text(s[w.q..w.eq]) else w
  }

  ghost predicate Leaves(p: Leaf -> bool, c: Cmd) {
    match c
    case Exec(argv) => forall i | 0 <= i < |argv| :: p(argv[i])
    case Redir(d, file, _, _) => p(file) && Leaves(p, d)
    case Pipe(l, r) => Leaves(p, l) && Leaves(p, r)
    case List(l, r) => Leaves(p, l) && Leaves(p, r)
    case Back(d) => Leaves(p, d)
  }

  /** Leaves that two different replacements leave alone are the ones they keep. */
  lemma {:induction false} KeptLeaves(p: Leaf -> bool, a: Leaf, b: Leaf, c: Cmd)
    requires a != b
    requires MapCmd((w: Leaf) => if p(w) then w else a, c) == c
    requires MapCmd((w: Leaf) => if p(w) then w else b, c) == c
    ensures Leaves(p, c)
  {
    match c
    case Exec(argv) =>
      forall i | 0 <= i < |argv| ensures p(argv[i]) {
        assert MapLeaves((w: Leaf) => if p(w) then w else a, argv)[i] == argv[i];
        assert MapLeaves((w: Leaf) => if p(w) then w else b, argv)[i] == argv[i];
      }
    case Redir(d, _, _, _) => KeptLeaves(p, a, b, d);
    case Pipe(l, r) => KeptLeaves(p, a, b, l); KeptLeaves(p, a, b, r);
    case List(l, r) => KeptLeaves(p, a, b, l); KeptLeaves(p, a, b, r);
    case Back(d) => KeptLeaves(p, a, b, d);
  }

  /** Every leaf of a parsed line is one of its words. */
  lemma ParsedWords(s: string)
    requires ParseAll(Lex(s, 0)).Ok?
    ensures Leaves((w: Leaf) => IsWord(s, w), ParseAll(Lex(s, 0)).cmd)
  {
    hide ParseAll;
    var ts, p := Lex(s, 0), (w: Leaf) => IsWord(s, w);
    LexWords(s, 0);
    hide Lex;
    var f := (w: Leaf) => if p(w) then w else At(1, 0);
    var g := (w: Leaf) => if p(w) then w else At(2, 0);
    assert MapToks(f, ts) == ts && MapToks(g, ts) == ts;
    ParseNatural(f, ts);
    ParseNatural(g, ts);
    KeptLeaves(p, At(1, 0), At(2, 0), ParseAll(ts).cmd);
  }

  // ------------------------------------------------------------------- printing

  ghost predicate LegalWord(w: Leaf) {
    w.Text? && w.s != [] && '\0' !in w.s && forall i | 0 <= i < |w.s| :: Plain(w.s[i])
  }

  ghost predicate LegalTok(t: Tok) {
    match t
    case Word(w) => LegalWord(w)
    case Sym(c) => Symbol(c)
    case Append => true
  }

  ghost function Shown(t: Tok): string
    requires LegalTok(t)
  {
    match t
    case Word(w) => w.s
    case Sym(c) => [c]
    case Append => ">>"
  }

  ghost function Render(ts: seq<Tok>): string
    requires forall i | 0 <= i < |ts| :: LegalTok(ts[i])
  {
    if ts == [] then [] else Shown(ts[0]) + " " + Render(ts[1..])
  }

  lemma {:induction false} WordEndIs(s: string, q: nat, e: nat)
    requires q <= e < |s| && !Plain(s[e]) && forall j | q <= j < e :: Plain(s[j])
    ensures WordEnd(s, q) == e
    decreases e - q
  {
    if q < e { WordEndIs(s, q + 1, e); }
  }

  /** The token at i is t, when s continues with t and a space. */
  lemma TokBack(s: string, i: nat, t: Tok)
    requires LegalTok(t) && i + |Shown(t)| < |s| && s[i..i + |Shown(t)|] == Shown(t) && s[i + |Shown(t)|] == ' '
    ensures !Blank(s[i]) && TokAt(s, i).1 == i + |Shown(t)| && MapTok(TextOf(s), TokAt(s, i).0) == t
  {
    var e := i + |Shown(t)|;
    assert s[i] == Shown(t)[0];
    if t.Word? {
      forall j | i <= j < e ensures Plain(s[j]) {
        assert s[j] == s[i..e][j - i];
      }
      WordEndIs(s, i, e);
    } else if t.Append? {
      assert s[i + 1] == s[i..e][1];
    }
  }

  ghost predicate AllLegal(ts: seq<Tok>) {
    forall k | 0 <= k < |ts| :: LegalTok(ts[k])
  }

  lemma RenderSplit(s: string, i: nat, ts: seq<Tok>)
    requires i <= |s| && AllLegal(ts) && ts != [] && s[i..] == Render(ts)
    ensures var e := i + |Shown(ts[0])|;
            e < |s| && s[i..e] == Shown(ts[0]) && s[e] == ' ' && s[e + 1..] == Render(ts[1..])
  {
    var t, later := Shown(ts[0]), Render(ts[1..]);
    var e := i + |t|;
    hide Shown;
    assert s[i..] == t + " " + later;
    hide Render;
    assert s[i..e] == s[i..][..e - i];
    assert s[e] == s[i..][e - i];
    assert s[e + 1..] == s[i..][e + 1 - i..];
  }

  lemma LexStep(s: string, i: nat, e: nat)
    requires i < e < |s| && !Blank(s[i]) && TokAt(s, i).1 == e && Blank(s[e])
    ensures Lex(s, i) == [TokAt(s, i).0] + Lex(s, e + 1)
  {
    assert Skip(s, i) == i;
    assert Skip(s, e) == Skip(s, e + 1);
  }

  /** Scanning printed tokens finds them again. */
  lemma {:induction false} LexBack(s: string, i: nat, ts: seq<Tok>)
    requires i <= |s| && AllLegal(ts) && s[i..] == Render(ts)
    ensures MapToks(TextOf(s), Lex(s, i)) == ts
    decreases |ts|
  {
    hide Lex;
    hide TokAt;
    hide TextOf;
    hide Render;
    hide Shown;
    hide Blank;
    hide LegalTok;
    hide MapTok;
    if ts == [] {
      LexNone(s, i);
    } else {
      RenderSplit(s, i, ts);
      var e := i + |Shown(ts[0])|;
      TokBack(s, i, ts[0]);
      SpaceBlank();
      LexStep(s, i, e);
      LexBack(s, e + 1, ts[1..]);
      assert ts == [ts[0]] + ts[1..];
      MapCons(TextOf(s), TokAt(s, i).0, Lex(s, e + 1));
    }
  }

  lemma SpaceBlank()
    ensures Blank(' ')
  {
  }

  lemma LexNone(s: string, i: nat)
    requires i <= |s| && s[i..] == Render([])
    ensures Lex(s, i) == []
  {
    assert |s[i..]| == 0;
  }

  lemma MapCons(f: Leaf -> Leaf, t: Tok, ts: seq<Tok>)
    ensures MapToks(f, [t] + ts) == [MapTok(f, t)] + MapToks(f, ts)
  {
  }

  // ------------------------------------------------ printed trees are legal tokens

  lemma {:induction false} WordToksLegal(ws: seq<Leaf>)
    requires forall i | 0 <= i < |ws| :: LegalWord(ws[i])
    ensures AllLegal(WordToks(ws))
  {
    if ws != [] { WordToksLegal(ws[1..]); }
  }

  lemma {:induction false} LineLegal(t: Cmd)
    requires Leaves(LegalWord, t)
    ensures AllLegal(LineToks(t))
    decreases t, 2
  {
    match t
    case List(l, r) => BackLegal(l); LineLegal(r);
    case Back(_) => BackLegal(t);
    case Pipe(_, _) => PipeLegal(t);
    case _ => ExecLegal(t);
  }

  lemma {:induction false} BackLegal(t: Cmd)
    requires Leaves(LegalWord, t)
    ensures AllLegal(BackToks(t))
    decreases t, if t.List? then 4 else 1
  {
    match t
    case List(_, _) => BlockLegal(t);
    case Back(c) => BackLegal(c);
    case Pipe(_, _) => PipeLegal(t);
    case _ => ExecLegal(t);
  }

  lemma {:induction false} PipeLegal(t: Cmd)
    requires Leaves(LegalWord, t)
    ensures AllLegal(PipeToks(t))
    decreases t, if t.Pipe? then 0 else if t.Exec? || t.Redir? then 1 else 4
  {
    match t
    case Pipe(l, r) => ExecLegal(l); PipeLegal(r);
    case List(_, _) => BlockLegal(t);
    case Back(_) => BlockLegal(t);
    case _ => ExecLegal(t);
  }

  lemma {:induction false} ExecLegal(t: Cmd)
    requires Leaves(LegalWord, t)
    ensures AllLegal(ExecToks(t))
    decreases t, if t.Exec? || t.Redir? then 0 else 4
  {
    match t
    case Exec(argv) => WordToksLegal(argv);
    case Redir(c, _, _, _) => ExecLegal(c);
    case _ => BlockLegal(t);
  }

  lemma {:induction false} BlockLegal(t: Cmd)
    requires Leaves(LegalWord, t) && !t.Exec? && !t.Redir?
    ensures AllLegal(BlockToks(t))
    decreases t, 3
  {
    LineLegal(t);
  }

  /** A command tree as a line of text. */
  ghost function Print(t: Cmd): string
    requires Leaves(LegalWord, t)
  {
    LineLegal(t);
    Render(LineToks(t))
  }

  /** Printing a legal tree, scanning the line and parsing it gives the tree. */
  lemma PrintParse(t: Cmd)
    requires Legal(t) && Leaves(LegalWord, t)
    ensures var s := Print(t); var r := ParseAll(Lex(s, 0)); r.Ok? && MapCmd(TextOf(s), r.cmd) == t
  {
    LineLegal(t);
    var s := Render(LineToks(t));
    assert s[0..] == s;
    LexBack(s, 0, LineToks(t));
    RoundTrip(t);
    hide ParseAll;
    ParseNatural(TextOf(s), Lex(s, 0));
  }

  lemma {:induction false} TextLegal(s: string, c: Cmd)
    requires '\0' !in s && Leaves((w: Leaf) => IsWord(s, w), c)
    ensures Leaves(LegalWord, MapCmd(TextOf(s), c))
  {
    match c
    case Exec(argv) =>
      forall i | 0 <= i < |argv| ensures LegalWord(TextOf(s)(argv[i])) {
        WordLegal(s, argv[i]);
      }
    case Redir(d, file, _, _) => WordLegal(s, file); TextLegal(s, d);
    case Pipe(l, r) => TextLegal(s, l); TextLegal(s, r);
    case List(l, r) => TextLegal(s, l); TextLegal(s, r);
    case Back(d) => TextLegal(s, d);
  }

  lemma WordLegal(s: string, w: Leaf)
    requires '\0' !in s && IsWord(s, w)
    ensures LegalWord(TextOf(s)(w))
  {
    var t := s[w.q..w.eq];
    forall i | 0 <= i < |t| ensures Plain(t[i]) && t[i] != '\0' {
      assert t[i] == s[w.q + i];
    }
  }

  lemma {:induction false} MapLegal(f: Leaf -> Leaf, c: Cmd)
    ensures Legal(MapCmd(f, c)) <==> Legal(c)
  {
    match c
    case Exec(_) =>
    case Redir(d, _, _, _) => MapLegal(f, d);
    case Pipe(l, r) => MapLegal(f, l); MapLegal(f, r);
    case List(l, r) => MapLegal(f, l); MapLegal(f, r);
    case Back(d) => MapLegal(f, d);
  }

  /** Any line the shell accepts, printed in the shell's own form, is read as the same tree. */
  lemma Reprinted(s: string)
    requires '\0' !in s && ParseAll(Lex(s, 0)).Ok?
    ensures var t := MapCmd(TextOf(s), ParseAll(Lex(s, 0)).cmd);
            && Legal(t) && Leaves(LegalWord, t)
            && var p := Print(t);
               ParseAll(Lex(p, 0)).Ok? && MapCmd(TextOf(p), ParseAll(Lex(p, 0)).cmd) == t
  {
    hide ParseAll;
    hide Lex;
    var c := ParseAll(Lex(s, 0)).cmd;
    ParsedLegal(Lex(s, 0));
    ParsedWords(s);
    TextLegal(s, c);
    MapLegal(TextOf(s), c);
    PrintParse(MapCmd(TextOf(s), c));
  }
}
