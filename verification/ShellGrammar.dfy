/**
 sh.c's command grammar on tokens: what the parser builds, how a tree is written back with
 parentheses where precedence needs them, and that parsing undoes writing.
 */
module ShellGrammar {

  const MAXARGS := 10
  const O_RDONLY := 0
  const O_WRONLY_CREATE := 0x201

  /** A word of the input: the bytes from q up to eq. */
  datatype Span = Span(q: nat, eq: nat)

  /** Append is `>>`. */
  datatype Tok<W> = Op(c: char) | Append | Word(w: W)

  datatype Cmd<W> =
    | Exec(args: seq<W>)
    | Redir(cmd: Cmd<W>, file: W, mode: nat, fd: nat)
    | Pipe(left: Cmd<W>, right: Cmd<W>)
    | List(left: Cmd<W>, right: Cmd<W>)
    | Back(cmd: Cmd<W>)

  datatype Error = MissingFile | Syntax | MissingParen | TooManyArgs | Leftovers

  datatype Parsed<W> = Ok(cmd: Cmd<W>, rest: seq<Tok<W>>) | Err(error: Error)

  datatype Target<W> = Target(file: W, mode: nat, fd: nat)

  datatype Targets<W> = Found(rs: seq<Target<W>>, rest: seq<Tok<W>>) | NoFile

  predicate Starts<W>(t: seq<Tok<W>>, ops: string) {
    |t| > 0 && t[0].Op? && t[0].c in ops
  }

  predicate IsRedir<W>(x: Tok<W>) {
    x.Append? || (x.Op? && (x.c == '<' || x.c == '>'))
  }

  // ---- the parser ----

  /** Both kinds of output redirection open the file the same way. */
  function TargetOf<W>(x: Tok<W>, file: W): Target<W> {
    if x.Op? && x.c == '<' then Target(file, O_RDONLY, 0) else Target(file, O_WRONLY_CREATE, 1)
  }

  function Redirs<W>(t: seq<Tok<W>>): (r: Targets<W>)
    ensures r.Found? ==> |r.rest| <= |t|
  {
    if |t| == 0 || !IsRedir(t[0]) then Found([], t)
    else if |t| < 2 || !t[1].Word? then NoFile
    else
      match Redirs(t[2..])
      case NoFile => NoFile
      case Found(rs, rest) => Found([TargetOf(t[0], t[1].w)] + rs, rest)
  }

  /** The first redirection is the innermost. */
  function Wrap<W>(c: Cmd<W>, rs: seq<Target<W>>): Cmd<W>
    decreases |rs|
  {
    if |rs| == 0 then c else Wrap(Redir(c, rs[0].file, rs[0].mode, rs[0].fd), rs[1..])
  }

  /** parseexec's loop, with the arguments and redirections found so far. */
  function Args<W>(t: seq<Tok<W>>, args: seq<W>, rs: seq<Target<W>>): (r: Parsed<W>)
    ensures r.Ok? ==> |r.rest| <= |t|
    decreases |t|
  {
    if |t| == 0 || Starts(t, "|)&;") then Ok(Wrap(Exec(args), rs), t)
    else if !t[0].Word? then Err(Syntax)
    else if |args| + 1 >= MAXARGS then Err(TooManyArgs)
    else
      match Redirs(t[1..])
      case NoFile => Err(MissingFile)
      case Found(more, rest) => Args(rest, args + [t[0].w], rs + more)
  }

  function ParseExec<W>(t: seq<Tok<W>>): (r: Parsed<W>)
    ensures r.Ok? ==> |r.rest| <= |t|
    decreases |t|, 1
  {
    if Starts(t, "(") then ParseBlock(t) else
      match Redirs(t)
      case NoFile => Err(MissingFile)
      case Found(rs, rest) => Args(rest, [], rs)
  }

  function ParseBlock<W>(t: seq<Tok<W>>): (r: Parsed<W>)
    requires Starts(t, "(")
    ensures r.Ok? ==> |r.rest| <= |t|
    decreases |t|, 0
  {
    match ParseLine(t[1..])
    case Err(e) => Err(e)
    case Ok(c, rest) =>
      if !Starts(rest, ")") then Err(MissingParen) else
        match Redirs(rest[1..])
        case NoFile => Err(MissingFile)
        case Found(rs, after) => Ok(Wrap(c, rs), after)
  }

  function ParsePipe<W>(t: seq<Tok<W>>): (r: Parsed<W>)
    ensures r.Ok? ==> |r.rest| <= |t|
    decreases |t|, 2
  {
    match ParseExec(t)
    case Err(e) => Err(e)
    case Ok(c, rest) =>
      if !Starts(rest, "|") then Ok(c, rest) else
        match ParsePipe(rest[1..])
        case Err(e) => Err(e)
        case Ok(d, after) => Ok(Pipe(c, d), after)
  }

  /** parseline's loop over `&`. */
  function Backs<W>(c: Cmd<W>, t: seq<Tok<W>>): (r: (Cmd<W>, seq<Tok<W>>))
    ensures |r.1| <= |t|
    decreases |t|
  {
    if Starts(t, "&") then Backs(Back(c), t[1..]) else (c, t)
  }

  function ParseLine<W>(t: seq<Tok<W>>): (r: Parsed<W>)
    ensures r.Ok? ==> |r.rest| <= |t|
    decreases |t|, 3
  {
    match ParsePipe(t)
    case Err(e) => Err(e)
    case Ok(c, rest) =>
      var b := Backs(c, rest);
      if !Starts(b.1, ";") then Ok(b.0, b.1) else
        match ParseLine(b.1[1..])
        case Err(e) => Err(e)
        case Ok(d, after) => Ok(List(b.0, d), after)
  }

  function ParseAll<W>(t: seq<Tok<W>>): Parsed<W> {
    match ParseLine(t)
    case Err(e) => Err(e)
    case Ok(c, rest) => if |rest| > 0 then Err(Leftovers) else Ok(c, rest)
  }

  // ---- writing a tree ----

  function Size<W>(c: Cmd<W>): (n: nat)
    ensures n > 0
  {
    match c
    case Exec(_) => 1
    case Redir(d, _, _, _) => Size(d) + 1
    case Pipe(l, r) => Size(l) + Size(r) + 1
    case List(l, r) => Size(l) + Size(r) + 1
    case Back(d) => Size(d) + 1
  }

  function Words(args: seq<string>): (r: seq<Tok<string>>)
    ensures |r| == |args|
  {
    seq(|args|, i requires 0 <= i < |args| => Word(args[i]))
  }

  function RedirToks(mode: nat, file: string): seq<Tok<string>> {
    [Op(if mode == O_RDONLY then '<' else '>'), Word(file)]
  }

  function WriteExec(c: Cmd<string>): seq<Tok<string>>
    decreases Size(c), if c.Exec? || c.Redir? then 0 else 4
  {
    match c
    case Exec(args) => Words(args)
    case Redir(d, file, mode, _) => WriteExec(d) + RedirToks(mode, file)
    case _ => [Op('(')] + WriteLine(c) + [Op(')')]
  }

  function WritePipe(c: Cmd<string>): seq<Tok<string>>
    decreases Size(c), if c.List? || c.Back? then 5 else 1
  {
    if c.Pipe? then WriteExec(c.left) + [Op('|')] + WritePipe(c.right) else WriteExec(c)
  }

  function WriteBack(c: Cmd<string>): seq<Tok<string>>
    decreases Size(c), if c.List? then 6 else 2
  {
    if c.Back? then WriteBack(c.cmd) + [Op('&')] else WritePipe(c)
  }

  function WriteLine(c: Cmd<string>): seq<Tok<string>>
    decreases Size(c), 3
  {
    if c.List? then WriteBack(c.left) + [Op(';')] + WriteLine(c.right) else WriteBack(c)
  }

  // ---- trees that can be written ----

  predicate GoodWord(w: string) {
    |w| > 0 && forall c :: c in w ==> !Special(c)
  }

  /** Whitespace, symbols and the terminator cannot be part of a word. */
  predicate Special(c: char) {
    Blank(c) || c in "<|>&;()" || c == '\0'
  }

  predicate Blank(c: char) {
    c == ' ' || c == '\t' || c == '\r' || c == '\n' || c == 11 as char
  }

  /** The two ways to open a file. */
  predicate GoodMode(mode: nat, fd: nat) {
    (mode == O_RDONLY && fd == 0) || (mode == O_WRONLY_CREATE && fd == 1)
  }

  /** Words the lexer can return, at most nine arguments. */
  predicate Good(c: Cmd<string>) {
    match c
    case Exec(args) => |args| < MAXARGS && forall w :: w in args ==> GoodWord(w)
    case Redir(d, file, mode, fd) =>
      Good(d) && GoodWord(file) && GoodMode(mode, fd)
    case Pipe(l, r) => Good(l) && Good(r)
    case List(l, r) => Good(l) && Good(r)
    case Back(d) => Good(d)
  }

  // ---- tokens and their text ----

  function Text(s: string, x: Span): string {
    if x.q <= x.eq <= |s| then s[x.q..x.eq] else ""
  }

  function TokText(s: string, t: Tok<Span>): Tok<string> {
    match t
    case Op(c) => Op(c)
    case Append => Append
    case Word(w) => Word(Text(s, w))
  }

  function ArgTexts(s: string, args: seq<Span>): (r: seq<string>)
    ensures |r| == |args|
  {
    seq(|args|, i requires 0 <= i < |args| => Text(s, args[i]))
  }

  function CmdText(s: string, c: Cmd<Span>): Cmd<string> {
    match c
    case Exec(args) => Exec(ArgTexts(s, args))
    case Redir(d, file, mode, fd) => Redir(CmdText(s, d), Text(s, file), mode, fd)
    case Pipe(l, r) => Pipe(CmdText(s, l), CmdText(s, r))
    case List(l, r) => List(CmdText(s, l), CmdText(s, r))
    case Back(d) => Back(CmdText(s, d))
  }

  function TargetText(s: string, r: Target<Span>): Target<string> {
    Target(Text(s, r.file), r.mode, r.fd)
  }

  function TargetsText(s: string, rs: seq<Target<Span>>): seq<Target<string>> {
    seq(|rs|, i requires 0 <= i < |rs| => TargetText(s, rs[i]))
  }

  /** The first tokens of t read as `shown`. */
  ghost predicate Shows(s: string, t: seq<Tok<Span>>, shown: seq<Tok<string>>) {
    |shown| <= |t| && forall i :: 0 <= i < |shown| ==> TokText(s, t[i]) == shown[i]
  }

  lemma ShowsBoth(s: string, t: seq<Tok<Span>>, a: seq<Tok<string>>, b: seq<Tok<string>>)
    requires Shows(s, t, a + b)
    ensures Shows(s, t, a) && Shows(s, t[|a|..], b) && t[|a|..][|b|..] == t[|a + b|..]
  {
    forall i | 0 <= i < |a| ensures TokText(s, t[i]) == a[i] {
      assert (a + b)[i] == a[i];
    }
    forall i | 0 <= i < |b| ensures TokText(s, t[|a|..][i]) == b[i] {
      assert (a + b)[|a| + i] == b[i];
    }
  }

  lemma ShowsOp(s: string, t: seq<Tok<Span>>, c: char)
    requires Shows(s, t, [Op(c)])
    ensures |t| > 0 && t[0] == Op(c)
  {
    assert TokText(s, t[0]) == [Op(c)][0];
  }

  /** What may follow: the end, or one of these operators. */
  predicate Ends<W>(t: seq<Tok<W>>, ops: string) {
    |t| == 0 || Starts(t, ops)
  }

  // ---- redirections ----

  function Core(c: Cmd<string>): (r: Cmd<string>)
    ensures Size(r) <= Size(c) && !r.Redir? && (Good(c) ==> Good(r)) && (c.Redir? ==> Size(r) < Size(c))
  {
    if c.Redir? then Core(c.cmd) else c
  }

  function Files(c: Cmd<string>): seq<Target<string>> {
    if c.Redir? then Files(c.cmd) + [Target(c.file, c.mode, c.fd)] else []
  }

  function FileToks(rs: seq<Target<string>>): seq<Tok<string>> {
    if |rs| == 0 then [] else RedirToks(rs[0].mode, rs[0].file) + FileToks(rs[1..])
  }

  predicate GoodFiles(rs: seq<Target<string>>) {
    forall r :: r in rs ==> GoodMode(r.mode, r.fd)
  }

  lemma {:induction false} WrapLast<W>(c: Cmd<W>, rs: seq<Target<W>>, x: Target<W>)
    ensures Wrap(c, rs + [x]) == Redir(Wrap(c, rs), x.file, x.mode, x.fd)
    decreases |rs|
  {
    if |rs| == 0 {
      assert rs + [x] == [x];
      assert [x][1..] == [];
    } else {
      assert (rs + [x])[1..] == rs[1..] + [x];
      WrapLast(Redir(c, rs[0].file, rs[0].mode, rs[0].fd), rs[1..], x);
    }
  }

  lemma {:induction false} FileToksLast(rs: seq<Target<string>>, x: Target<string>)
    ensures FileToks(rs + [x]) == FileToks(rs) + RedirToks(x.mode, x.file)
    decreases |rs|
  {
    if |rs| == 0 {
      assert rs + [x] == [x];
      assert [x][1..] == [];
    } else {
      assert (rs + [x])[1..] == rs[1..] + [x];
      FileToksLast(rs[1..], x);
    }
  }

  /** A tree is its core with its redirections around it, and is written that way. */
  lemma {:induction false} Peeled(c: Cmd<string>)
    requires Good(c)
    ensures c == Wrap(Core(c), Files(c)) && WriteExec(c) == WriteExec(Core(c)) + FileToks(Files(c)) && GoodFiles(Files(c))
  {
    if c.Redir? {
      Peeled(c.cmd);
      WrapLast(Core(c), Files(c.cmd), Target(c.file, c.mode, c.fd));
      FileToksLast(Files(c.cmd), Target(c.file, c.mode, c.fd));
    }
  }

  lemma {:induction false} WrapText(s: string, c: Cmd<Span>, rs: seq<Target<Span>>)
    ensures CmdText(s, Wrap(c, rs)) == Wrap(CmdText(s, c), TargetsText(s, rs))
    decreases |rs|
  {
    if |rs| > 0 {
      WrapText(s, Redir(c, rs[0].file, rs[0].mode, rs[0].fd), rs[1..]);
      assert TargetsText(s, rs)[1..] == TargetsText(s, rs[1..]);
    }
  }

  lemma RedirsOne<W>(t: seq<Tok<W>>)
    requires |t| >= 2 && IsRedir(t[0]) && t[1].Word? && Redirs(t[2..]).Found?
    ensures Redirs(t) == Found([TargetOf(t[0], t[1].w)] + Redirs(t[2..]).rs, Redirs(t[2..]).rest)
  {
  }

  lemma RedirsNone<W>(t: seq<Tok<W>>)
    requires |t| > 0 ==> !IsRedir(t[0])
    ensures Redirs(t) == Found([], t)
  {
  }

  lemma FileToksFirst(rs: seq<Target<string>>)
    ensures |rs| == 0 ==> FileToks(rs) == []
    ensures |rs| > 0 ==> FileToks(rs) == RedirToks(rs[0].mode, rs[0].file) + FileToks(rs[1..])
    ensures |rs| > 0 ==> |RedirToks(rs[0].mode, rs[0].file)| == 2
  {
  }

  lemma TargetBack(s: string, op: Tok<Span>, w: Tok<Span>, r: Target<string>)
    requires GoodMode(r.mode, r.fd)
    requires TokText(s, op) == RedirToks(r.mode, r.file)[0] && TokText(s, w) == RedirToks(r.mode, r.file)[1]
    ensures IsRedir(op) && w.Word? && TargetText(s, TargetOf(op, w.w)) == r
  {
  }

  /** parseredirs reads back written redirections. */
  lemma {:induction false} RedirsBack(s: string, t: seq<Tok<Span>>, rs: seq<Target<string>>)
    requires GoodFiles(rs) && Shows(s, t, FileToks(rs))
    requires |t| > |FileToks(rs)| ==> !IsRedir(t[|FileToks(rs)|])
    ensures Redirs(t).Found? && TargetsText(s, Redirs(t).rs) == rs && Redirs(t).rest == t[|FileToks(rs)|..]
    decreases |rs|
  {
    hide FileToks, Redirs, TokText, RedirToks;
    FileToksFirst(rs);
    if |rs| == 0 {
      assert rs == [];
      RedirsNone(t);
    } else {
      var head, tail := RedirToks(rs[0].mode, rs[0].file), FileToks(rs[1..]);
      assert rs[0] in rs;
      ShowsBoth(s, t, head, tail);
      TargetBack(s, t[0], t[1], rs[0]);
      RedirsBack(s, t[2..], rs[1..]);
      RedirsOne(t);
      var x, f := TargetOf(t[0], t[1].w), Redirs(t[2..]);
      assert TargetsText(s, [x] + f.rs) == [rs[0]] + TargetsText(s, f.rs) == rs;
    }
  }

  // ---- parsing undoes writing ----

  lemma ArgsStop<W>(t: seq<Tok<W>>, args: seq<W>, rs: seq<Target<W>>)
    requires Ends(t, "|)&;")
    ensures Args(t, args, rs) == Ok(Wrap(Exec(args), rs), t)
  {
  }

  lemma ArgsNext<W>(t: seq<Tok<W>>, args: seq<W>, rs: seq<Target<W>>)
    requires |t| > 0 && t[0].Word? && |args| + 1 < MAXARGS && Redirs(t[1..]).Found?
    ensures Args(t, args, rs) == Args(Redirs(t[1..]).rest, args + [t[0].w], rs + Redirs(t[1..]).rs)
  {
  }

  /** The last argument, with the redirections behind it. */
  lemma LastArgBack(s: string, t: seq<Tok<Span>>, arg: string, done: seq<Span>, rs: seq<Target<string>>)
    requires |done| + 1 < MAXARGS && GoodFiles(rs) && |t| > 0 && TokText(s, t[0]) == Word(arg) && Shows(s, t[1..], FileToks(rs))
    requires Ends(t[1..][|FileToks(rs)|..], "|)&;")
    ensures var r := Args(t, done, []);
            && r.Ok? && r.rest == t[1..][|FileToks(rs)|..]
            && CmdText(s, r.cmd) == Wrap(Exec(ArgTexts(s, done) + [arg]), rs)
  {
    hide Args, Wrap, FileToks, GoodFiles, Redirs;
    var u := t[1..];
    assert |u| > |FileToks(rs)| ==> u[|FileToks(rs)|] == u[|FileToks(rs)|..][0];
    RedirsBack(s, u, rs);
    ArgsNext(t, done, []);
    var f := Redirs(u);
    assert [] + f.rs == f.rs;
    ArgsStop(f.rest, done + [t[0].w], f.rs);
    WrapText(s, Exec(done + [t[0].w]), f.rs);
    assert ArgTexts(s, done + [t[0].w]) == ArgTexts(s, done) + [arg];
  }

  lemma {:induction false} ArgsBack(s: string, t: seq<Tok<Span>>, args: seq<string>, done: seq<Span>, rs: seq<Target<string>>)
    requires |done| + |args| < MAXARGS && |args| > 0 && GoodFiles(rs)
    requires Shows(s, t, Words(args)) && Shows(s, t[|args|..], FileToks(rs))
    requires Ends(t[|args|..][|FileToks(rs)|..], "|)&;")
    ensures var r := Args(t, done, []);
            && r.Ok? && r.rest == t[|args|..][|FileToks(rs)|..]
            && CmdText(s, r.cmd) == Wrap(Exec(ArgTexts(s, done) + args), rs)
    decreases |args|
  {
    hide Args, Wrap, CmdText, FileToks, GoodFiles, Redirs;
    assert TokText(s, t[0]) == Words(args)[0];
    if |args| == 1 {
      LastArgBack(s, t, args[0], done, rs);
      assert args == [args[0]];
    } else {
      assert TokText(s, t[1]) == Words(args)[1];
      NoRedirs(t[1..]);
      ArgsNext(t, done, []);
      var none: seq<Target<Span>> := [];
      assert none + none == none;
      assert forall i :: 0 <= i < |args| - 1 ==> Words(args[1..])[i] == Words(args)[i + 1];
      assert t[1..][|args| - 1..] == t[|args|..];
      var more := done + [t[0].w];
      ArgsBack(s, t[1..], args[1..], more, rs);
      assert ArgTexts(s, more) + args[1..] == ArgTexts(s, done) + args;
    }
  }

  lemma NoRedirs<W>(t: seq<Tok<W>>)
    requires |t| == 0 || !IsRedir(t[0])
    ensures Redirs(t) == Found([], t)
  {
  }

  lemma ExecBack(s: string, t: seq<Tok<Span>>, args: seq<string>, rs: seq<Target<string>>)
    requires |args| < MAXARGS && GoodFiles(rs) && Shows(s, t, Words(args)) && Shows(s, t[|args|..], FileToks(rs))
    requires Ends(t[|args|..][|FileToks(rs)|..], "|)&;")
    ensures var r := ParseExec(t);
            r.Ok? && r.rest == t[|args|..][|FileToks(rs)|..] && CmdText(s, r.cmd) == Wrap(Exec(args), rs)
  {
    if |args| == 0 {
      assert t[0..] == t;
      BareBack(s, t, rs);
      assert args == [];
    } else {
      hide FileToks, GoodFiles, Wrap, CmdText, Args;
      assert TokText(s, t[0]) == Words(args)[0];
      ArgsBack(s, t, args, [], rs);
      assert ArgTexts(s, []) + args == args;
      NoRedirs(t);
    }
  }

  /** Redirections with no command. */
  lemma BareBack(s: string, t: seq<Tok<Span>>, rs: seq<Target<string>>)
    requires GoodFiles(rs) && Shows(s, t, FileToks(rs)) && Ends(t[|FileToks(rs)|..], "|)&;")
    ensures var r := ParseExec(t);
            r.Ok? && r.rest == t[|FileToks(rs)|..] && CmdText(s, r.cmd) == Wrap(Exec([]), rs)
  {
    assert |t| > |FileToks(rs)| ==> t[|FileToks(rs)|] == t[|FileToks(rs)|..][0];
    RedirsBack(s, t, rs);
    var f := Redirs(t);
    if |rs| > 0 {
      assert TokText(s, t[0]) == FileToks(rs)[0];
    }
    assert !Starts(t, "(");
    ArgsStop(f.rest, [], f.rs);
    WrapText(s, Exec([]), f.rs);
    assert ArgTexts(s, []) == [];
  }

  /** r is the tree c, and all that is left is what follows its n tokens. */
  ghost predicate Undone(s: string, t: seq<Tok<Span>>, n: nat, r: Parsed<Span>, c: Cmd<string>) {
    n <= |t| && r.Ok? && r.rest == t[n..] && CmdText(s, r.cmd) == c
  }

  lemma BlockBack(s: string, t: seq<Tok<Span>>, n: nat, core: Cmd<string>, rs: seq<Target<string>>)
    requires |t| > 0 && t[0] == Op('(') && Undone(s, t[1..], n, ParseLine(t[1..]), core)
    requires |t| > n + 1 && t[n + 1] == Op(')') && GoodFiles(rs) && Shows(s, t[n + 2..], FileToks(rs))
    requires Ends(t[n + 2..][|FileToks(rs)|..], "|)&;")
    ensures Undone(s, t[n + 2..], |FileToks(rs)|, ParseExec(t), Wrap(core, rs))
  {
    var u := t[n + 2..];
    assert |u| > |FileToks(rs)| ==> u[|FileToks(rs)|] == u[|FileToks(rs)|..][0];
    RedirsBack(s, u, rs);
    assert t[1..][n..] == t[n + 1..];
    assert t[n + 1..][1..] == u;
    WrapText(s, ParseLine(t[1..]).cmd, Redirs(u).rs);
  }

  lemma ParensShown(s: string, t: seq<Tok<Span>>, inner: seq<Tok<string>>)
    requires Shows(s, t, [Op('(')] + inner + [Op(')')])
    ensures |t| > |inner| + 1 && t[0] == Op('(') && t[|inner| + 1] == Op(')')
    ensures Shows(s, t[1..], inner) && Ends(t[1..][|inner|..], ")&;")
  {
    assert [Op('(')] + inner + [Op(')')] == [Op('(')] + (inner + [Op(')')]);
    ShowsBoth(s, t, [Op('(')], inner + [Op(')')]);
    ShowsOp(s, t, '(');
    ShowsBoth(s, t[1..], inner, [Op(')')]);
    ShowsOp(s, t[1..][|inner|..], ')');
  }

  lemma {:induction false} ExecUndone(s: string, t: seq<Tok<Span>>, c: Cmd<string>)
    requires Good(c) && Shows(s, t, WriteExec(c)) && Ends(t[|WriteExec(c)|..], "|)&;")
    ensures Undone(s, t, |WriteExec(c)|, ParseExec(t), c)
    decreases Size(c), if c.Exec? || c.Redir? then 0 else 4
  {
    hide ParseExec, ParseLine, Wrap, CmdText, FileToks, TokText;
    Peeled(c);
    var core, rs := Core(c), Files(c);
    var n := |WriteExec(core)|;
    ShowsBoth(s, t, WriteExec(core), FileToks(rs));
    if core.Exec? {
      ExecBack(s, t, core.args, rs);
    } else {
      var inner := WriteLine(core);
      ParensShown(s, t, inner);
      LineUndone(s, t[1..], core);
      assert t[|inner| + 2..] == t[n..];
      BlockBack(s, t, |inner|, core, rs);
    }
  }

  lemma {:induction false} PipeUndone(s: string, t: seq<Tok<Span>>, c: Cmd<string>)
    requires Good(c) && Shows(s, t, WritePipe(c)) && Ends(t[|WritePipe(c)|..], ")&;")
    ensures Undone(s, t, |WritePipe(c)|, ParsePipe(t), c)
    decreases Size(c), if c.List? || c.Back? then 5 else 1
  {
    hide ParseExec, WriteExec;
    if c.Pipe? {
      var l, r := WriteExec(c.left), WritePipe(c.right);
      assert WritePipe(c) == l + ([Op('|')] + r);
      ShowsBoth(s, t, l, [Op('|')] + r);
      ShowsBoth(s, t[|l|..], [Op('|')], r);
      ShowsOp(s, t[|l|..], '|');
      ExecUndone(s, t, c.left);
      PipeUndone(s, t[|l|..][1..], c.right);
    } else {
      ExecUndone(s, t, c);
    }
  }

  /** However many `&` follow, the loop has come to c. */
  lemma {:induction false} BackUndone(s: string, t: seq<Tok<Span>>, c: Cmd<string>) returns (d: Cmd<Span>)
    requires Good(c) && Shows(s, t, WriteBack(c)) && Ends(t[|WriteBack(c)|..], ")&;")
    ensures ParsePipe(t).Ok? && CmdText(s, d) == c
    ensures Backs(ParsePipe(t).cmd, ParsePipe(t).rest) == Backs(d, t[|WriteBack(c)|..])
    decreases Size(c), if c.List? then 6 else 2
  {
    hide ParsePipe, WritePipe;
    if c.Back? {
      var w := WriteBack(c.cmd);
      ShowsBoth(s, t, w, [Op('&')]);
      ShowsOp(s, t[|w|..], '&');
      var e := BackUndone(s, t, c.cmd);
      d := Back(e);
    } else {
      PipeUndone(s, t, c);
      d := ParsePipe(t).cmd;
    }
  }

  lemma {:induction false} LineUndone(s: string, t: seq<Tok<Span>>, c: Cmd<string>)
    requires Good(c) && Shows(s, t, WriteLine(c)) && Ends(t[|WriteLine(c)|..], ")")
    ensures Undone(s, t, |WriteLine(c)|, ParseLine(t), c)
    decreases Size(c), 3
  {
    hide ParsePipe, WriteBack;
    if c.List? {
      var l, r := WriteBack(c.left), WriteLine(c.right);
      assert WriteLine(c) == l + ([Op(';')] + r);
      ShowsBoth(s, t, l, [Op(';')] + r);
      ShowsBoth(s, t[|l|..], [Op(';')], r);
      ShowsOp(s, t[|l|..], ';');
      var d := BackUndone(s, t, c.left);
      assert Backs(d, t[|l|..]) == (d, t[|l|..]);
      LineUndone(s, t[|l|..][1..], c.right);
    } else {
      var d := BackUndone(s, t, c);
      assert Backs(d, t[|WriteLine(c)|..]) == (d, t[|WriteLine(c)|..]);
    }
  }

  /** Tokens that read as a written tree parse to that tree. */
  lemma WriteThenParse(s: string, t: seq<Tok<Span>>, c: Cmd<string>)
    requires Good(c) && Shows(s, t, WriteLine(c)) && |t| == |WriteLine(c)|
    ensures ParseAll(t).Ok? && CmdText(s, ParseAll(t).cmd) == c
  {
    LineUndone(s, t, c);
  }

  // ---- what a parse can return ----

  /** Every word of c is a word among these tokens, and c has the shape of a tree that can be written. */
  ghost predicate Sourced(c: Cmd<Span>, t: seq<Tok<Span>>) {
    match c
    case Exec(args) => |args| < MAXARGS && forall w :: w in args ==> Word(w) in t
    case Redir(d, file, mode, fd) => Sourced(d, t) && Word(file) in t && GoodMode(mode, fd)
    case Pipe(l, r) => Sourced(l, t) && Sourced(r, t)
    case List(l, r) => Sourced(l, t) && Sourced(r, t)
    case Back(d) => Sourced(d, t)
  }

  ghost predicate Within<W(!new)>(a: seq<Tok<W>>, b: seq<Tok<W>>) {
    forall x :: x in a ==> x in b
  }

  lemma {:induction false} SourcedMore(c: Cmd<Span>, a: seq<Tok<Span>>, b: seq<Tok<Span>>)
    requires Sourced(c, a) && Within(a, b)
    ensures Sourced(c, b)
  {
    match c
    case Exec(_) =>
    case Redir(d, _, _, _) => SourcedMore(d, a, b);
    case Pipe(l, r) => SourcedMore(l, a, b); SourcedMore(r, a, b);
    case List(l, r) => SourcedMore(l, a, b); SourcedMore(r, a, b);
    case Back(d) => SourcedMore(d, a, b);
  }

  ghost predicate SourcedFiles(rs: seq<Target<Span>>, t: seq<Tok<Span>>) {
    forall r :: r in rs ==> Word(r.file) in t && GoodMode(r.mode, r.fd)
  }

  lemma {:induction false} RedirsSourced(t: seq<Tok<Span>>)
    requires Redirs(t).Found?
    ensures SourcedFiles(Redirs(t).rs, t) && Within(Redirs(t).rest, t)
    decreases |t|
  {
    if |t| > 0 && IsRedir(t[0]) {
      RedirsSourced(t[2..]);
      assert t[1] in t;
    }
  }

  lemma {:induction false} WrapSourced(c: Cmd<Span>, rs: seq<Target<Span>>, t: seq<Tok<Span>>)
    requires Sourced(c, t) && SourcedFiles(rs, t)
    ensures Sourced(Wrap(c, rs), t)
    decreases |rs|
  {
    if |rs| > 0 {
      assert rs[0] in rs;
      WrapSourced(Redir(c, rs[0].file, rs[0].mode, rs[0].fd), rs[1..], t);
    }
  }

  lemma {:induction false} ArgsSourced(t: seq<Tok<Span>>, args: seq<Span>, rs: seq<Target<Span>>, all: seq<Tok<Span>>)
    requires |args| < MAXARGS && (forall w :: w in args ==> Word(w) in all) && SourcedFiles(rs, all) && Within(t, all)
    requires Args(t, args, rs).Ok?
    ensures Sourced(Args(t, args, rs).cmd, all) && Within(Args(t, args, rs).rest, all)
    decreases |t|
  {
    if |t| == 0 || Starts(t, "|)&;") {
      WrapSourced(Exec(args), rs, all);
    } else {
      RedirsSourced(t[1..]);
      assert t[0] in t;
      var f := Redirs(t[1..]);
      assert Within(t[1..], all);
      ArgsSourced(f.rest, args + [t[0].w], rs + f.rs, all);
    }
  }

  lemma {:induction false} ExecSourced(t: seq<Tok<Span>>)
    requires ParseExec(t).Ok?
    ensures Sourced(ParseExec(t).cmd, t) && Within(ParseExec(t).rest, t)
    decreases |t|, 1
  {
    if Starts(t, "(") {
      LineSourced(t[1..]);
      var p := ParseLine(t[1..]);
      RedirsSourced(p.rest[1..]);
      var f := Redirs(p.rest[1..]);
      assert Within(t[1..], t) && Within(p.rest[1..], p.rest);
      SourcedMore(p.cmd, t[1..], t);
      WrapSourced(p.cmd, f.rs, t);
    } else {
      RedirsSourced(t);
      ArgsSourced(Redirs(t).rest, [], Redirs(t).rs, t);
    }
  }

  lemma {:induction false} PipeSourced(t: seq<Tok<Span>>)
    requires ParsePipe(t).Ok?
    ensures Sourced(ParsePipe(t).cmd, t) && Within(ParsePipe(t).rest, t)
    decreases |t|, 2
  {
    ExecSourced(t);
    var p := ParseExec(t);
    if Starts(p.rest, "|") {
      var u := p.rest[1..];
      PipeSourced(u);
      assert Within(u, t);
      SourcedMore(ParsePipe(u).cmd, u, t);
    }
  }

  lemma {:induction false} BacksSourced(c: Cmd<Span>, t: seq<Tok<Span>>, all: seq<Tok<Span>>)
    requires Sourced(c, all) && Within(t, all)
    ensures Sourced(Backs(c, t).0, all) && Within(Backs(c, t).1, all)
    decreases |t|
  {
    if Starts(t, "&") {
      BacksSourced(Back(c), t[1..], all);
    }
  }

  lemma {:induction false} LineSourced(t: seq<Tok<Span>>)
    requires ParseLine(t).Ok?
    ensures Sourced(ParseLine(t).cmd, t) && Within(ParseLine(t).rest, t)
    decreases |t|, 3
  {
    PipeSourced(t);
    var p := ParsePipe(t);
    BacksSourced(p.cmd, p.rest, t);
    var b := Backs(p.cmd, p.rest);
    if Starts(b.1, ";") {
      var u := b.1[1..];
      LineSourced(u);
      assert Within(u, t);
      SourcedMore(ParseLine(u).cmd, u, t);
    }
  }

  /** Trees made of good words can be written. */
  lemma {:induction false} SourcedGood(s: string, c: Cmd<Span>, t: seq<Tok<Span>>)
    requires Sourced(c, t) && forall w :: Word(w) in t ==> GoodWord(Text(s, w))
    ensures Good(CmdText(s, c))
  {
    match c
    case Exec(args) =>
      forall x | x in ArgTexts(s, args) ensures GoodWord(x) {
        var i :| 0 <= i < |args| && ArgTexts(s, args)[i] == x;
        assert args[i] in args;
      }
    case Redir(d, _, _, _) => SourcedGood(s, d, t);
    case Pipe(l, r) => SourcedGood(s, l, t); SourcedGood(s, r, t);
    case List(l, r) => SourcedGood(s, l, t); SourcedGood(s, r, t);
    case Back(d) => SourcedGood(s, d, t);
  }
}
