/**
 The shell's language without its parser: lines as they are written, how each is spelt in tokens and in bytes,
 and what it means. The parser accepts exactly the spellings of these lines, and gives their meaning.
 */
module ShellSyntax {
  import opened ShellGrammar
  import opened ShellLexer

  /** A word, or a redirection operator with its file. */
  datatype Item<W> = Arg(w: W) | To(op: Tok<W>, file: W)

  /** A command with its redirections anywhere among its words, or a line in parentheses with some behind it. */
  datatype Unit<W> = Simple(items: seq<Item<W>>) | Block(line: Line<W>, files: seq<Item<W>>)

  /** Units with bars between them, then `&`s, then perhaps a `;` and another line. */
  datatype Pipeline<W> = One(u: Unit<W>) | More(first: Unit<W>, others: Pipeline<W>)

  datatype Line<W> = Last(p: Pipeline<W>, backs: nat) | Then(p: Pipeline<W>, backs: nat, next: Line<W>)

  // ---- which lines there are ----

  ghost function ArgsOf<W>(items: seq<Item<W>>): seq<W> {
    if items == [] then [] else (if items[0].Arg? then [items[0].w] else []) + ArgsOf(items[1..])
  }

  ghost predicate ItemsOk<W>(items: seq<Item<W>>) {
    forall i :: 0 <= i < |items| && items[i].To? ==> IsRedir(items[i].op)
  }

  ghost predicate FilesOk<W>(items: seq<Item<W>>) {
    forall i :: 0 <= i < |items| ==> items[i].To? && IsRedir(items[i].op)
  }

  ghost predicate UnitOk<W>(u: Unit<W>) {
    match u
    case Simple(items) => ItemsOk(items) && |ArgsOf(items)| <= 9
    case Block(line, files) => LineOk(line) && FilesOk(files)
  }

  ghost predicate PipeOk<W>(p: Pipeline<W>) {
    match p
    case One(u) => UnitOk(u)
    case More(u, q) => UnitOk(u) && PipeOk(q)
  }

  ghost predicate LineOk<W>(l: Line<W>) {
    PipeOk(l.p) && (l.Then? ==> LineOk(l.next))
  }

  // ---- how they are spelt ----

  ghost function SpellItems<W>(items: seq<Item<W>>): seq<Tok<W>> {
    if items == [] then []
    else (match items[0] case Arg(w) => [Word(w)] case To(op, f) => [op, Word(f)]) + SpellItems(items[1..])
  }

  ghost function SpellUnit<W>(u: Unit<W>): seq<Tok<W>> {
    match u
    case Simple(items) => SpellItems(items)
    case Block(line, files) => [Op('(')] + SpellLine(line) + [Op(')')] + SpellItems(files)
  }

  ghost function SpellPipe<W>(p: Pipeline<W>): seq<Tok<W>> {
    match p
    case One(u) => SpellUnit(u)
    case More(u, q) => SpellUnit(u) + [Op('|')] + SpellPipe(q)
  }

  ghost function Amps<W>(n: nat): seq<Tok<W>> {
    seq(n, i => Op('&'))
  }

  ghost function SpellLine<W>(l: Line<W>): seq<Tok<W>> {
    SpellPipe(l.p) + Amps(l.backs) + if l.Then? then [Op(';')] + SpellLine(l.next) else []
  }

  // ---- what they mean ----

  /** The command under the redirections among the items: the last of them is outermost. */
  ghost function Under<W>(c: Cmd<W>, items: seq<Item<W>>): Cmd<W> {
    if items == [] then c else
      var (d, x) := (Under(c, items[..|items| - 1]), items[|items| - 1]);
      match x
      case Arg(_) => d
      case To(op, f) => if op == Op('<') then Redir(d, f, O_RDONLY, 0) else Redir(d, f, O_WRONLY_CREATE, 1)
  }

  ghost function MeanUnit<W>(u: Unit<W>): Cmd<W> {
    match u
    case Simple(items) => Under(Exec(ArgsOf(items)), items)
    case Block(line, files) => Under(MeanLine(line), files)
  }

  ghost function MeanPipe<W>(p: Pipeline<W>): Cmd<W> {
    match p
    case One(u) => MeanUnit(u)
    case More(u, q) => Pipe(MeanUnit(u), MeanPipe(q))
  }

  ghost function Backed<W>(c: Cmd<W>, n: nat): Cmd<W> {
    if n == 0 then c else Back(Backed(c, n - 1))
  }

  ghost function MeanLine<W>(l: Line<W>): Cmd<W> {
    var c := Backed(MeanPipe(l.p), l.backs);
    if l.Then? then List(c, MeanLine(l.next)) else c
  }

  // ---- every spelling is parsed ----

  ghost function FilesOf<W>(items: seq<Item<W>>): seq<Target<W>> {
    if items == [] then [] else (if items[0].To? then [TargetOf(items[0].op, items[0].file)] else []) + FilesOf(items[1..])
  }

  lemma {:induction false} FilesLast<W>(items: seq<Item<W>>, x: Item<W>)
    ensures FilesOf(items + [x]) == FilesOf(items) + FilesOf([x])
    decreases |items|
  {
    if items == [] {
      assert items + [x] == [x];
      assert [] + FilesOf([x]) == FilesOf([x]);
    } else {
      var first := if items[0].To? then [TargetOf(items[0].op, items[0].file)] else [];
      assert (items + [x])[1..] == items[1..] + [x];
      FilesLast(items[1..], x);
      assert FilesOf(items + [x]) == first + (FilesOf(items[1..]) + FilesOf([x]));
    }
  }

  lemma {:induction false} UnderIsWrap<W>(c: Cmd<W>, items: seq<Item<W>>)
    requires ItemsOk(items)
    ensures Under(c, items) == Wrap(c, FilesOf(items))
    decreases |items|
  {
    if items != [] {
      var (front, x) := (items[..|items| - 1], items[|items| - 1]);
      assert items == front + [x];
      FilesLast(front, x);
      UnderIsWrap(c, front);
      if x.To? {
        assert FilesOf([x]) == [TargetOf(x.op, x.file)];
        WrapLast(c, FilesOf(front), TargetOf(x.op, x.file));
      } else {
        assert FilesOf([x]) == [];
        assert FilesOf(front) + [] == FilesOf(front);
      }
    }
  }

  /** What parseexec's loop makes of the items to come, after the redirections ahead. */
  ghost function Rest<W>(t: seq<Tok<W>>, args: seq<W>, rs: seq<Target<W>>): Parsed<W> {
    match Redirs(t)
    case NoFile => Err(MissingFile)
    case Found(more, u) => Args(u, args, rs + more)
  }

  lemma RestEnd<W>(t: seq<Tok<W>>, args: seq<W>, rs: seq<Target<W>>)
    requires Ends(t, "|)&;")
    ensures Rest(t, args, rs) == Ok(Wrap(Exec(args), rs), t)
  {
    NoRedirs(t);
    assert rs + [] == rs;
  }

  lemma RestTo<W>(t: seq<Tok<W>>, args: seq<W>, rs: seq<Target<W>>)
    requires |t| >= 2 && IsRedir(t[0]) && t[1].Word?
    ensures Rest(t, args, rs) == Rest(t[2..], args, rs + [TargetOf(t[0], t[1].w)])
  {
    var x := TargetOf(t[0], t[1].w);
    assert Redirs(t[2..]).Found? ==> rs + ([x] + Redirs(t[2..]).rs) == (rs + [x]) + Redirs(t[2..]).rs;
  }

  lemma RestArg<W>(t: seq<Tok<W>>, args: seq<W>, rs: seq<Target<W>>)
    requires |t| > 0 && t[0].Word? && |args| + 1 < MAXARGS
    ensures Rest(t, args, rs) == Rest(t[1..], args + [t[0].w], rs)
  {
    NoRedirs(t);
    assert rs + [] == rs;
  }

  lemma FirstTo<W>(op: Tok<W>, f: W, items: seq<Item<W>>)
    ensures var all := [To(op, f)] + items;
            && SpellItems(all) == [op, Word(f)] + SpellItems(items) && ArgsOf(all) == ArgsOf(items)
            && FilesOf(all) == [TargetOf(op, f)] + FilesOf(items)
  {
    assert ([To(op, f)] + items)[1..] == items;
  }

  lemma FirstArg<W>(w: W, items: seq<Item<W>>)
    ensures var all := [Arg(w)] + items;
            && SpellItems(all) == [Word(w)] + SpellItems(items) && ArgsOf(all) == [w] + ArgsOf(items)
            && FilesOf(all) == FilesOf(items)
  {
    assert ([Arg(w)] + items)[1..] == items;
  }

  ghost predicate Parses<W>(items: seq<Item<W>>, rest: seq<Tok<W>>, args: seq<W>, rs: seq<Target<W>>) {
    Rest(SpellItems(items) + rest, args, rs) == Ok(Wrap(Exec(args + ArgsOf(items)), rs + FilesOf(items)), rest)
  }

  lemma ArgParses<W>(w: W, items: seq<Item<W>>, rest: seq<Tok<W>>, args: seq<W>, rs: seq<Target<W>>)
    requires |args| + 1 < MAXARGS && Parses(items, rest, args + [w], rs)
    ensures Parses([Arg(w)] + items, rest, args, rs)
  {
    hide Rest, Wrap, SpellItems, ArgsOf, FilesOf;
    FirstArg(w, items);
    var t := SpellItems([Arg(w)] + items) + rest;
    RestArg(t, args, rs);
    assert t[1..] == SpellItems(items) + rest;
    assert args + ([w] + ArgsOf(items)) == (args + [w]) + ArgsOf(items);
  }

  lemma ToParses<W>(op: Tok<W>, f: W, items: seq<Item<W>>, rest: seq<Tok<W>>, args: seq<W>, rs: seq<Target<W>>)
    requires IsRedir(op) && Parses(items, rest, args, rs + [TargetOf(op, f)])
    ensures Parses([To(op, f)] + items, rest, args, rs)
  {
    hide Rest, Wrap, SpellItems, ArgsOf, FilesOf;
    FirstTo(op, f, items);
    var t := SpellItems([To(op, f)] + items) + rest;
    RestTo(t, args, rs);
    assert t[2..] == SpellItems(items) + rest;
    assert rs + ([TargetOf(op, f)] + FilesOf(items)) == (rs + [TargetOf(op, f)]) + FilesOf(items);
  }

  lemma {:induction false} ItemsParse<W>(items: seq<Item<W>>, rest: seq<Tok<W>>, args: seq<W>, rs: seq<Target<W>>)
    requires ItemsOk(items) && |args| + |ArgsOf(items)| < MAXARGS && Ends(rest, "|)&;")
    ensures Parses(items, rest, args, rs)
    decreases |items|
  {
    if items == [] {
      assert SpellItems(items) + rest == rest && args + [] == args && rs + [] == rs;
      RestEnd(rest, args, rs);
    } else {
      hide Parses, SpellItems, FilesOf;
      assert items == [items[0]] + items[1..];
      match items[0]
      case Arg(w) =>
        ItemsParse(items[1..], rest, args + [w], rs);
        ArgParses(w, items[1..], rest, args, rs);
      case To(op, f) =>
        ItemsParse(items[1..], rest, args, rs + [TargetOf(op, f)]);
        ToParses(op, f, items[1..], rest, args, rs);
    }
  }

  lemma {:induction false} FilesParse<W>(files: seq<Item<W>>, rest: seq<Tok<W>>)
    requires FilesOk(files) && Ends(rest, "|)&;")
    ensures Redirs(SpellItems(files) + rest) == Found(FilesOf(files), rest)
    decreases |files|
  {
    var t := SpellItems(files) + rest;
    if files == [] {
      assert t == rest;
    } else {
      assert t[0] == files[0].op && t[1] == Word(files[0].file) && t[2..] == SpellItems(files[1..]) + rest;
      FilesParse(files[1..], rest);
    }
  }

  lemma SimpleParses<W>(items: seq<Item<W>>, rest: seq<Tok<W>>)
    requires UnitOk(Simple(items)) && Ends(rest, "|)&;")
    ensures ParseExec(SpellItems(items) + rest) == Ok(Under(Exec(ArgsOf(items)), items), rest)
  {
    var t := SpellItems(items) + rest;
    ItemsParse(items, rest, [], []);
    SimpleStarts(items, rest);
    UnderIsWrap(Exec(ArgsOf(items)), items);
    hide SpellItems, ArgsOf, FilesOf, Redirs, Args;
    assert [] + ArgsOf(items) == ArgsOf(items) && [] + FilesOf(items) == FilesOf(items);
    assert Redirs(t).Found? ==> [] + Redirs(t).rs == Redirs(t).rs;
  }

  lemma {:induction false} UnitParses<W>(u: Unit<W>, rest: seq<Tok<W>>)
    requires UnitOk(u) && Ends(rest, "|)&;")
    ensures ParseExec(SpellUnit(u) + rest) == Ok(MeanUnit(u), rest)
    decreases u
  {
    match u
    case Simple(items) => SimpleParses(items, rest);
    case Block(line, files) =>
      hide LineOk, SpellLine, MeanLine, Redirs, SpellItems;
      var t := SpellUnit(u) + rest;
      var after := SpellItems(files) + rest;
      var close := [Op(')')] + after;
      assert t[1..] == SpellLine(line) + close;
      LineParses(line, close);
      assert close[1..] == after;
      FilesParse(files, rest);
      UnderIsWrap(MeanLine(line), files);
  }

  lemma SimpleStarts<W>(items: seq<Item<W>>, rest: seq<Tok<W>>)
    requires ItemsOk(items) && Ends(rest, "|)&;")
    ensures !Starts(SpellItems(items) + rest, "(")
  {
    var t := SpellItems(items) + rest;
    if items == [] {
      assert t == rest;
    } else if items[0].To? {
      assert t[0] == items[0].op && IsRedir(items[0].op);
    } else {
      assert t[0] == Word(items[0].w);
    }
  }

  lemma {:induction false} PipeParses<W>(p: Pipeline<W>, rest: seq<Tok<W>>)
    requires PipeOk(p) && Ends(rest, ")&;")
    ensures ParsePipe(SpellPipe(p) + rest) == Ok(MeanPipe(p), rest)
    decreases p
  {
    hide UnitOk, SpellUnit, MeanUnit, ParseExec;
    match p
    case One(u) => UnitParses(u, rest);
    case More(u, q) =>
      var bar := [Op('|')] + SpellPipe(q) + rest;
      assert SpellPipe(p) + rest == SpellUnit(u) + bar;
      UnitParses(u, bar);
      assert bar[1..] == SpellPipe(q) + rest;
      PipeParses(q, rest);
  }

  lemma {:induction false} BacksParse<W>(c: Cmd<W>, n: nat, rest: seq<Tok<W>>, m: nat)
    requires !Starts(rest, "&") && m <= n
    ensures Backs(Backed(c, m), Amps(n - m) + rest) == (Backed(c, n), rest)
    decreases n - m
  {
    var t := Amps<W>(n - m) + rest;
    if m == n {
      assert t == rest;
    } else {
      assert t[0] == Op('&') && t[1..] == Amps(n - m - 1) + rest;
      BacksParse(c, n, rest, m + 1);
    }
  }

  lemma {:induction false} LineParses<W>(l: Line<W>, rest: seq<Tok<W>>)
    requires LineOk(l) && Ends(rest, ")")
    ensures ParseLine(SpellLine(l) + rest) == Ok(MeanLine(l), rest)
    decreases l
  {
    hide PipeOk, SpellPipe, MeanPipe, ParsePipe, Backs;
    var tail := (if l.Then? then [Op(';')] + SpellLine(l.next) else []) + rest;
    var amps := Amps<W>(l.backs) + tail;
    assert SpellLine(l) + rest == SpellPipe(l.p) + amps;
    assert Ends(amps, ")&;") by {
      if l.backs > 0 { assert amps[0] == Op('&'); } else { assert amps == tail; }
    }
    PipeParses(l.p, amps);
    BacksParse(MeanPipe(l.p), l.backs, tail, 0);
    if l.Then? {
      assert tail[1..] == SpellLine(l.next) + rest;
      LineParses(l.next, rest);
    } else {
      assert tail == rest;
    }
  }

  // ---- everything parsed is a spelling ----

  ghost predicate FilesRead<W>(files: seq<Item<W>>, t: seq<Tok<W>>, r: Targets<W>) {
    r.Found? && FilesOk(files) && t == SpellItems(files) + r.rest && r.rs == FilesOf(files)
  }

  lemma FirstRead<W>(op: Tok<W>, f: W, files: seq<Item<W>>, t: seq<Tok<W>>)
    requires IsRedir(op) && FilesRead(files, t, Redirs(t))
    ensures FilesRead([To(op, f)] + files, [op, Word(f)] + t, Redirs([op, Word(f)] + t))
  {
    hide Redirs, SpellItems, FilesOf;
    var all := [op, Word(f)] + t;
    assert all[2..] == t;
    RedirsOne(all);
    FirstTo(op, f, files);
    assert [op, Word(f)] + (SpellItems(files) + Redirs(t).rest) == ([op, Word(f)] + SpellItems(files)) + Redirs(t).rest;
  }

  lemma {:induction false} FilesSound<W>(t: seq<Tok<W>>) returns (files: seq<Item<W>>)
    requires Redirs(t).Found?
    ensures FilesRead(files, t, Redirs(t))
    decreases |t|
  {
    if |t| == 0 || !IsRedir(t[0]) {
      files := [];
    } else {
      hide FilesRead;
      var more := FilesSound(t[2..]);
      files := [To(t[0], t[1].w)] + more;
      FirstRead(t[0], t[1].w, more, t[2..]);
      assert t == [t[0], t[1]] + t[2..];
    }
  }

  /** What a loop that succeeds sees first. */
  lemma RestStarts<W>(t: seq<Tok<W>>, args: seq<W>, rs: seq<Target<W>>)
    requires Rest(t, args, rs).Ok? && !Ends(t, "|)&;")
    ensures if IsRedir(t[0]) then |t| >= 2 && t[1].Word? else t[0].Word? && |args| + 1 < MAXARGS
  {
  }

  ghost predicate ItemsRead<W>(items: seq<Item<W>>, t: seq<Tok<W>>, rest: seq<Tok<W>>, room: int) {
    ItemsOk(items) && |ArgsOf(items)| < room && t == SpellItems(items) + rest && Ends(rest, "|)&;")
  }

  lemma ToRead<W>(op: Tok<W>, f: W, items: seq<Item<W>>, t: seq<Tok<W>>, rest: seq<Tok<W>>, room: int)
    requires IsRedir(op) && ItemsRead(items, t, rest, room)
    ensures ItemsRead([To(op, f)] + items, [op, Word(f)] + t, rest, room)
  {
    hide SpellItems, ArgsOf, Ends;
    FirstTo(op, f, items);
    assert [op, Word(f)] + (SpellItems(items) + rest) == ([op, Word(f)] + SpellItems(items)) + rest;
  }

  lemma ArgRead<W>(w: W, items: seq<Item<W>>, t: seq<Tok<W>>, rest: seq<Tok<W>>, room: int)
    requires ItemsRead(items, t, rest, room - 1)
    ensures ItemsRead([Arg(w)] + items, [Word(w)] + t, rest, room)
  {
    hide SpellItems, ArgsOf, Ends;
    FirstArg(w, items);
    assert [Word(w)] + (SpellItems(items) + rest) == ([Word(w)] + SpellItems(items)) + rest;
  }

  lemma {:induction false} ItemsSound<W>(t: seq<Tok<W>>, args: seq<W>, rs: seq<Target<W>>) returns (items: seq<Item<W>>)
    requires |args| < MAXARGS && Rest(t, args, rs).Ok?
    ensures ItemsRead(items, t, Rest(t, args, rs).rest, MAXARGS - |args|)
    decreases |t|
  {
    hide Rest;
    if Ends(t, "|)&;") {
      items := [];
      RestEnd(t, args, rs);
    } else {
      hide ItemsRead;
      RestStarts(t, args, rs);
      if IsRedir(t[0]) {
        RestTo(t, args, rs);
        var behind := ItemsSound(t[2..], args, rs + [TargetOf(t[0], t[1].w)]);
        items := [To(t[0], t[1].w)] + behind;
        ToRead(t[0], t[1].w, behind, t[2..], Rest(t, args, rs).rest, MAXARGS - |args|);
        assert t == [t[0], t[1]] + t[2..];
      } else {
        RestArg(t, args, rs);
        var behind := ItemsSound(t[1..], args + [t[0].w], rs);
        items := [Arg(t[0].w)] + behind;
        ArgRead(t[0].w, behind, t[1..], Rest(t, args, rs).rest, MAXARGS - |args|);
        assert t == [t[0]] + t[1..];
      }
    }
  }

  lemma SimpleSound<W>(t: seq<Tok<W>>) returns (u: Unit<W>)
    requires !Starts(t, "(") && ParseExec(t).Ok?
    ensures UnitOk(u) && t == SpellUnit(u) + ParseExec(t).rest && ParseExec(t).cmd == MeanUnit(u)
  {
    assert ParseExec(t) == Rest(t, [], []) by {
      assert [] + Redirs(t).rs == Redirs(t).rs;
    }
    var items := ItemsSound(t, [], []);
    u := Simple(items);
    SimpleParses(items, ParseExec(t).rest);
  }

  lemma BlockSound<W>(t: seq<Tok<W>>, line: Line<W>) returns (u: Unit<W>)
    requires Starts(t, "(") && ParseBlock(t).Ok? && LineOk(line)
    requires t[1..] == SpellLine(line) + ParseLine(t[1..]).rest && ParseLine(t[1..]).cmd == MeanLine(line)
    ensures UnitOk(u) && t == SpellUnit(u) + ParseBlock(t).rest && ParseBlock(t).cmd == MeanUnit(u)
  {
    hide LineOk, SpellLine, MeanLine, ParseLine, Redirs, SpellItems, FilesOf, Wrap, Under;
    var after := ParseLine(t[1..]).rest;
    var files := FilesSound(after[1..]);
    u := Block(line, files);
    UnderIsWrap(MeanLine(line), files);
    var rest := Redirs(after[1..]).rest;
    assert t == [Op('(')] + (SpellLine(line) + ([Op(')')] + (SpellItems(files) + rest)));
    assert SpellUnit(u) + rest == [Op('(')] + (SpellLine(line) + ([Op(')')] + (SpellItems(files) + rest)));
  }

  lemma {:induction false} UnitSound<W>(t: seq<Tok<W>>) returns (u: Unit<W>)
    requires ParseExec(t).Ok?
    ensures UnitOk(u) && t == SpellUnit(u) + ParseExec(t).rest && ParseExec(t).cmd == MeanUnit(u)
    decreases |t|, 1
  {
    if Starts(t, "(") {
      hide LineOk, SpellLine, MeanLine, ParseLine, Redirs;
      var line := LineSound(t[1..]);
      u := BlockSound(t, line);
    } else {
      u := SimpleSound(t);
    }
  }

  lemma {:induction false} PipeSound<W>(t: seq<Tok<W>>) returns (p: Pipeline<W>)
    requires ParsePipe(t).Ok?
    ensures PipeOk(p) && t == SpellPipe(p) + ParsePipe(t).rest && ParsePipe(t).cmd == MeanPipe(p)
    decreases |t|, 2
  {
    hide UnitOk, SpellUnit, MeanUnit, ParseExec;
    var u := UnitSound(t);
    var bar := ParseExec(t).rest;
    if Starts(bar, "|") {
      var q := PipeSound(bar[1..]);
      p := More(u, q);
      var rest := ParsePipe(bar[1..]).rest;
      assert bar == [Op('|')] + (SpellPipe(q) + rest);
      assert SpellPipe(p) + rest == SpellUnit(u) + ([Op('|')] + (SpellPipe(q) + rest));
    } else {
      p := One(u);
    }
  }

  lemma {:induction false} BackedOnce<W>(c: Cmd<W>, n: nat)
    ensures Backed(Back(c), n) == Backed(c, n + 1)
  {
    if n > 0 {
      BackedOnce(c, n - 1);
    }
  }

  lemma {:induction false} BacksSound<W>(c: Cmd<W>, t: seq<Tok<W>>) returns (n: nat)
    ensures t == Amps(n) + Backs(c, t).1 && Backs(c, t).0 == Backed(c, n)
    decreases |t|
  {
    if Starts(t, "&") {
      var m := BacksSound(Back(c), t[1..]);
      n := m + 1;
      BackedOnce(c, m);
      assert t == [Op('&')] + t[1..];
      assert Amps<W>(n) == [Op('&')] + Amps(m);
    } else {
      n := 0;
    }
  }

  lemma {:induction false} LineSound<W>(t: seq<Tok<W>>) returns (l: Line<W>)
    requires ParseLine(t).Ok?
    ensures LineOk(l) && t == SpellLine(l) + ParseLine(t).rest && ParseLine(t).cmd == MeanLine(l)
    decreases |t|, 3
  {
    hide PipeOk, SpellPipe, MeanPipe, ParsePipe, Amps, Backed, Backs;
    var p := PipeSound(t);
    var n := BacksSound(ParsePipe(t).cmd, ParsePipe(t).rest);
    var tail := Backs(ParsePipe(t).cmd, ParsePipe(t).rest).1;
    assert t == SpellPipe(p) + Amps(n) + tail;
    if Starts(tail, ";") {
      var next := LineSound(tail[1..]);
      var rest := ParseLine(tail[1..]).rest;
      l := Then(p, n, next);
      assert tail == [Op(';')] + SpellLine(next) + rest;
      assert SpellLine(l) + rest == SpellPipe(p) + Amps(n) + ([Op(';')] + SpellLine(next) + rest);
    } else {
      l := Last(p, n);
      assert SpellLine(l) == SpellPipe(p) + Amps(n);
    }
  }

  ghost predicate Writes<W>(l: Line<W>, t: seq<Tok<W>>, c: Cmd<W>) {
    LineOk(l) && SpellLine(l) == t && MeanLine(l) == c
  }

  /** The parser takes exactly the spellings of lines, each to what it means. */
  lemma ParsesExactly<W(!new)>(t: seq<Tok<W>>, c: Cmd<W>)
    ensures ParseAll(t) == Ok(c, []) <==> exists l :: Writes(l, t, c)
  {
    if ParseAll(t) == Ok(c, []) {
      var l := LineSound(t);
      assert SpellLine(l) + [] == SpellLine(l);
      assert Writes(l, t, c);
    }
    forall l | Writes(l, t, c) ensures ParseAll(t) == Ok(c, []) {
      LineParses(l, []);
      assert SpellLine(l) + [] == SpellLine(l);
    }
  }

  // ---- tokens in bytes ----

  ghost predicate Plain(c: char) {
    !Blank(c) && !Symbol(c)
  }

  /** The bytes from k up to e are this token, and it goes no further. */
  ghost predicate Covers(s: string, k: nat, e: nat, x: Tok<Span>) {
    k < e <= |s| &&
    match x
    case Op(c) => e == k + 1 && s[k] == c && Symbol(c) && !(c == '>' && e < |s| && s[e] == '>')
    case Append => e == k + 2 && s[k] == '>' && s[k + 1] == '>'
    case Word(w) => w == Span(k, e) && (forall j :: k <= j < e ==> Plain(s[j])) && (e < |s| ==> !Plain(s[e]))
  }

  ghost predicate Blanks(s: string, i: nat, k: nat) {
    i <= k <= |s| && forall j :: i <= j < k ==> Blank(s[j])
  }

  /** The bytes from i on are these tokens, with any blanks, or none, before, between and behind them. */
  ghost predicate Reads(s: string, i: nat, ts: seq<Tok<Span>>)
    decreases |ts|
  {
    if ts == [] then Blanks(s, i, |s|)
    else exists k: nat, e: nat :: Blanks(s, i, k) && Covers(s, k, e, ts[0]) && Reads(s, e, ts[1..])
  }

  lemma TokenCovers(s: string, k: nat)
    requires k < |s| && !Blank(s[k])
    ensures Covers(s, k, TokenAt(s, k).end, TokenAt(s, k).tok)
  {
  }

  lemma {:induction false} WordStops(s: string, k: nat, e: nat)
    requires k <= e <= |s| && (forall j :: k <= j < e ==> Plain(s[j])) && (e < |s| ==> !Plain(s[e]))
    ensures WordEnd(s, k) == e
    decreases e - k
  {
    if k < e {
      WordStops(s, k + 1, e);
    }
  }

  lemma CoversToken(s: string, k: nat, e: nat, x: Tok<Span>)
    requires Covers(s, k, e, x)
    ensures !Blank(s[k]) && TokenAt(s, k) == Lexeme(x, e)
  {
    if x.Word? {
      assert Plain(s[k]);
      WordStops(s, k, e);
    }
  }

  lemma {:induction false} LexReads(s: string, i: nat)
    requires i <= |s|
    ensures Reads(s, i, Lex(s, i))
    decreases |s| - i
  {
    var b := SkipBlank(s, i);
    assert Blanks(s, i, b);
    if b < |s| {
      var x := TokenAt(s, b);
      TokenCovers(s, b);
      LexReads(s, x.end);
      hide Covers, Blanks, TokenAt, SkipBlank;
      assert Lex(s, i) == [x.tok] + Lex(s, x.end) && Lex(s, i)[1..] == Lex(s, x.end);
    }
  }

  /** The tokens gettoken finds are exactly the ones the bytes are. */
  lemma {:induction false} LexExactly(s: string, i: nat, ts: seq<Tok<Span>>)
    requires i <= |s|
    ensures ts == Lex(s, i) <==> Reads(s, i, ts)
    decreases |ts|
  {
    LexReads(s, i);
    if ts != [] && Reads(s, i, ts) {
      var k: nat, e: nat :| Blanks(s, i, k) && Covers(s, k, e, ts[0]) && Reads(s, e, ts[1..]);
      CoversToken(s, k, e, ts[0]);
      SkipTwice(s, i, k);
      LexExactly(s, e, ts[1..]);
      hide Reads;
      assert ts == [ts[0]] + ts[1..];
    }
  }

  ghost predicate LineOf(l: Line<Span>, s: string, c: Cmd<Span>) {
    LineOk(l) && Reads(s, 0, SpellLine(l)) && MeanLine(l) == c
  }

  /** A line of bytes parses to a tree just when it spells a line that means it. */
  lemma LineParsesExactly(s: string, c: Cmd<Span>)
    ensures ParseAll(Lex(s, 0)) == Ok(c, []) <==> exists l :: LineOf(l, s, c)
  {
    var t := Lex(s, 0);
    ParsesExactly(t, c);
    if l :| Writes(l, t, c) {
      LexExactly(s, 0, t);
      assert LineOf(l, s, c);
    }
    forall l | LineOf(l, s, c) ensures Writes(l, t, c) {
      LexExactly(s, 0, SpellLine(l));
    }
  }
}
