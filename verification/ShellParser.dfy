/**
 sh.c's parser as it runs: a cursor moves over the line, and nulterminate writes into the buffer that
 holds it.
 */
module ShellParser {
  import opened ShellGrammar
  import opened ShellLexer

  datatype Result = Done(cmd: Cmd<Span>) | Failed(error: Error)

  datatype RedirResult = Read(rs: seq<Target<Span>>) | Missing

  class Parser {
    const buf: string
    var ps: nat

    ghost predicate Valid()
      reads this
    {
      Clean(buf) && ps <= |buf|
    }

    /** The tokens still to come. */
    ghost function Left(): seq<Tok<Span>>
      requires Valid()
      reads this
    {
      Lex(buf, ps)
    }

    constructor (line: string)
      requires Clean(line)
      ensures Valid() && buf == line && ps == 0
    {
      buf, ps := line, 0;
    }

    /** *ps; the byte at the end is the terminator. */
    function Here(): char
      requires Valid()
      reads this
    {
      if ps < |buf| then buf[ps] else '\0'
    }

    method Skip()
      requires Valid()
      modifies this
      ensures Valid() && Left() == old(Left()) && ps == SkipBlank(buf, old(ps))
    {
      while ps < |buf| && Blank(buf[ps])
        invariant Valid() && old(ps) <= ps && forall k :: old(ps) <= k < ps ==> Blank(buf[k])
      {
        ps := ps + 1;
      }
      SkipTwice(buf, old(ps), ps);
    }

    /** peek, for a set of symbols. */
    method Peek(toks: string) returns (r: bool)
      requires Valid() && forall c :: c in toks ==> Symbol(c)
      modifies this
      ensures Valid() && Left() == old(Left()) && (ps == |buf| <==> Left() == [])
      ensures r <==> Left() != [] && (Starts(Left(), toks) || (Left()[0].Append? && '>' in toks))
    {
      Skip();
      r := Here() != '\0' && Here() in toks;
    }

    /** gettoken: the kind of the next token, 0 at the end, and where it starts and ends. */
    method GetToken() returns (kind: char, q: nat, eq: nat)
      requires Valid()
      modifies this
      ensures Valid() && (kind == '\0' <==> old(Left()) == [])
      ensures kind == '\0' ==> Left() == []
      ensures kind != '\0' ==> && Left() == old(Left())[1..]
                               && match old(Left())[0]
                                  case Op(c) => kind == c && Symbol(c)
                                  case Append => kind == '+'
                                  case Word(w) => kind == 'a' && w == Span(q, eq)
    {
      Skip();
      q := ps;
      kind := Here();
      var c := Here();
      ghost var start := ps;
      if c == '\0' {
      } else if c == '|' || c == '(' || c == ')' || c == ';' || c == '&' || c == '<' {
        ps := ps + 1;
      } else if c == '>' {
        ps := ps + 1;
        if Here() == '>' {
          kind := '+';
          ps := ps + 1;
        }
      } else {
        kind := 'a';
        ScanWord();
      }
      eq := ps;
      Skip();
    }

    method ScanWord()
      requires Valid()
      modifies this
      ensures Valid() && ps == WordEnd(buf, old(ps))
    {
      while ps < |buf| && !Blank(buf[ps]) && !Symbol(buf[ps])
        invariant Valid() && old(ps) <= ps && WordEnd(buf, old(ps)) == WordEnd(buf, ps)
      {
        ps := ps + 1;
      }
    }

    /** parseredirs; the files it finds, innermost first. */
    method ParseRedirs() returns (r: RedirResult)
      requires Valid()
      modifies this
      ensures Valid()
      ensures match Redirs(old(Left()))
              case Found(rs, rest) => r == Read(rs) && Left() == rest
              case NoFile => r == Missing
    {
      var rs: seq<Target<Span>> := [];
      var more := Peek("<>");
      while more
        invariant Valid() && (more <==> Left() != [] && IsRedir(Left()[0]))
        invariant Later(old(Left()), rs, Left())
        decreases |Left()|
      {
        hide Later, Redirs;
        LaterStep(old(Left()), rs, Left());
        var ok, x := ReadRedir();
        if !ok {
          return Missing;
        }
        rs := rs + [x];
        more := Peek("<>");
      }
      NoRedirs(Left());
      return Read(rs);
    }

    /** One turn of parseredirs' loop. */
    method ReadRedir() returns (ok: bool, x: Target<Span>)
      requires Valid() && Left() != [] && IsRedir(Left()[0])
      modifies this
      ensures Valid() && (ok <==> |old(Left())| >= 2 && old(Left())[1].Word?)
      ensures ok ==> Left() == old(Left())[2..] && x == TargetOf(old(Left())[0], old(Left())[1].w)
      ensures |Left()| < |old(Left())|
    {
      var tok, q, eq := GetToken();
      var kind;
      kind, q, eq := GetToken();
      x := Target(Span(q, eq), O_WRONLY_CREATE, 1);
      if kind != 'a' {
        return false, x;
      }
      if tok == '<' {
        x := Target(Span(q, eq), O_RDONLY, 0);
      } else if tok == '>' {
        x := Target(Span(q, eq), O_WRONLY_CREATE, 1);
      } else {
        x := Target(Span(q, eq), O_WRONLY_CREATE, 1);
      }
      return true, x;
    }

    /** parseexec's loop over arguments. */
    method ParseArgs(first: seq<Target<Span>>) returns (r: Result)
      requires Valid()
      modifies this
      ensures Valid() && Agrees(Args(old(Left()), [], first), r, Left())
    {
      var args: seq<Span>, rs := [], first;
      while true
        invariant Valid() && |args| < MAXARGS
        invariant Args(Left(), args, rs) == Args(old(Left()), [], first)
        decreases |Left()|
      {
        var stop := Peek("|)&;");
        if stop {
          break;
        }
        var tok, q, eq := GetToken();
        if tok == '\0' {
          break;
        }
        if tok != 'a' {
          return Failed(Syntax);
        }
        args := args + [Span(q, eq)];
        if |args| >= MAXARGS {
          return Failed(TooManyArgs);
        }
        var more := ParseRedirs();
        if more.Missing? {
          return Failed(MissingFile);
        }
        rs := rs + more.rs;
      }
      return Done(Wrap(Exec(args), rs));
    }

    method ParseExecCmd() returns (r: Result)
      requires Valid()
      modifies this
      ensures Valid() && Agrees(ParseExec(old(Left())), r, Left())
      decreases |Left()|, 1
    {
      var block := Peek("(");
      if block {
        r := ParseBlockCmd();
        return;
      }
      var first := ParseRedirs();
      if first.Missing? {
        return Failed(MissingFile);
      }
      r := ParseArgs(first.rs);
    }

    method ParseBlockCmd() returns (r: Result)
      requires Valid() && Starts(Left(), "(")
      modifies this
      ensures Valid() && Agrees(ParseBlock(old(Left())), r, Left())
      decreases |Left()|, 0
    {
      var tok, q, eq := GetToken();
      r := ParseLineCmd();
      if r.Failed? {
        return;
      }
      var close := Peek(")");
      if !close {
        return Failed(MissingParen);
      }
      tok, q, eq := GetToken();
      var files := ParseRedirs();
      if files.Missing? {
        return Failed(MissingFile);
      }
      r := Done(Wrap(r.cmd, files.rs));
    }

    method ParsePipeCmd() returns (r: Result)
      requires Valid()
      modifies this
      ensures Valid() && Agrees(ParsePipe(old(Left())), r, Left())
      decreases |Left()|, 2
    {
      r := ParseExecCmd();
      if r.Failed? {
        return;
      }
      var bar := Peek("|");
      if bar {
        var tok, q, eq := GetToken();
        var right := ParsePipeCmd();
        if right.Failed? {
          return right;
        }
        r := Done(Pipe(r.cmd, right.cmd));
      }
    }

    method ParseLineCmd() returns (r: Result)
      requires Valid()
      modifies this
      ensures Valid() && Agrees(ParseLine(old(Left())), r, Left())
      decreases |Left()|, 3
    {
      r := ParsePipeCmd();
      if r.Failed? {
        return;
      }
      var cmd := ParseBacks(r.cmd);
      r := Done(cmd);
      var semi := Peek(";");
      if semi {
        var tok, q, eq := GetToken();
        var right := ParseLineCmd();
        if right.Failed? {
          return right;
        }
        r := Done(List(cmd, right.cmd));
      }
    }

    method ParseBacks(c: Cmd<Span>) returns (cmd: Cmd<Span>)
      requires Valid()
      modifies this
      ensures Valid() && (cmd, Left()) == Backs(c, old(Left()))
    {
      cmd := c;
      var more := Peek("&");
      while more
        invariant Valid() && (more <==> Starts(Left(), "&")) && Backs(cmd, Left()) == Backs(c, old(Left()))
        decreases |Left()|
      {
        var tok, q, eq := GetToken();
        cmd := Back(cmd);
        more := Peek("&");
      }
    }

    /** parsecmd up to nulterminate. */
    method ParseCmd() returns (r: Result)
      requires Valid() && ps == 0
      modifies this
      ensures Valid()
      ensures match ParseAll(Lex(buf, 0))
              case Ok(c, _) => r == Done(c)
              case Err(e) => r == Failed(e)
    {
      r := ParseLineCmd();
      if r.Failed? {
        return;
      }
      var none := Peek("");
      if ps != |buf| {
        return Failed(Leftovers);
      }
    }
  }

  /** After reading rs from all, t is left. */
  ghost predicate Later(all: seq<Tok<Span>>, rs: seq<Target<Span>>, t: seq<Tok<Span>>) {
    match Redirs(t)
    case NoFile => Redirs(all).NoFile?
    case Found(more, rest) => Redirs(all) == Found(rs + more, rest)
  }

  lemma LaterStep(all: seq<Tok<Span>>, rs: seq<Target<Span>>, t: seq<Tok<Span>>)
    requires Later(all, rs, t) && |t| > 0 && IsRedir(t[0])
    ensures |t| < 2 || !t[1].Word? ==> Redirs(all).NoFile?
    ensures |t| >= 2 && t[1].Word? ==> Later(all, rs + [TargetOf(t[0], t[1].w)], t[2..])
  {
    if |t| >= 2 && t[1].Word? && Redirs(t[2..]).Found? {
      var x, more := TargetOf(t[0], t[1].w), Redirs(t[2..]).rs;
      assert rs + ([x] + more) == (rs + [x]) + more;
    }
  }

  /** The outcome of a method is what the grammar says, and the cursor is where the rest begins. */
  ghost predicate Agrees(p: Parsed<Span>, r: Result, left: seq<Tok<Span>>) {
    match p
    case Ok(c, rest) => r == Done(c) && left == rest
    case Err(e) => r == Failed(e)
  }

  // ---- nulterminate ----

  /** The bytes nulterminate clears. */
  function WordEnds(c: Cmd<Span>): set<nat> {
    match c
    case Exec(args) => set w | w in args :: w.eq
    case Redir(d, file, _, _) => WordEnds(d) + {file.eq}
    case Pipe(l, r) => WordEnds(l) + WordEnds(r)
    case List(l, r) => WordEnds(l) + WordEnds(r)
    case Back(d) => WordEnds(d)
  }

  ghost predicate IsWord(c: Cmd<Span>, w: Span) {
    match c
    case Exec(args) => w in args
    case Redir(d, file, _, _) => IsWord(d, w) || w == file
    case Pipe(l, r) => IsWord(l, w) || IsWord(r, w)
    case List(l, r) => IsWord(l, w) || IsWord(r, w)
    case Back(d) => IsWord(d, w)
  }

  method Nulterminate(buf: array<char>, c: Cmd<Span>)
    requires forall e :: e in WordEnds(c) ==> e < buf.Length
    modifies buf
    ensures forall i :: 0 <= i < buf.Length ==> buf[i] == if i in WordEnds(c) then '\0' else old(buf[i])
    decreases c
  {
    match c
    case Exec(args) =>
      var k := 0;
      while k < |args|
        invariant 0 <= k <= |args|
        invariant forall i :: 0 <= i < buf.Length ==>
                    buf[i] == if exists j :: 0 <= j < k && args[j].eq == i then '\0' else old(buf[i])
      {
        assert args[k] in args && args[k].eq in WordEnds(c);
        buf[args[k].eq] := '\0';
        k := k + 1;
      }
    case Redir(d, file, _, _) =>
      assert WordEnds(d) <= WordEnds(c) && file.eq in WordEnds(c);
      Nulterminate(buf, d);
      buf[file.eq] := '\0';
    case Pipe(l, r) =>
      assert WordEnds(l) <= WordEnds(c) && WordEnds(r) <= WordEnds(c);
      Nulterminate(buf, l);
      Nulterminate(buf, r);
    case List(l, r) =>
      assert WordEnds(l) <= WordEnds(c) && WordEnds(r) <= WordEnds(c);
      Nulterminate(buf, l);
      Nulterminate(buf, r);
    case Back(d) =>
      assert WordEnds(d) <= WordEnds(c);
      Nulterminate(buf, d);
  }

  lemma {:induction false} EndOfWord(c: Cmd<Span>, e: nat)
    ensures e in WordEnds(c) <==> exists w :: IsWord(c, w) && w.eq == e
  {
    match c
    case Exec(args) =>
    case Redir(d, file, _, _) =>
      EndOfWord(d, e);
      assert IsWord(c, file);
      assert forall w :: IsWord(d, w) ==> IsWord(c, w);
    case Pipe(l, r) =>
      EndOfWord(l, e);
      EndOfWord(r, e);
      assert forall w :: IsWord(c, w) <==> IsWord(l, w) || IsWord(r, w);
    case List(l, r) =>
      EndOfWord(l, e);
      EndOfWord(r, e);
      assert forall w :: IsWord(c, w) <==> IsWord(l, w) || IsWord(r, w);
    case Back(d) =>
      EndOfWord(d, e);
      assert forall w :: IsWord(c, w) <==> IsWord(d, w);
  }

  lemma {:induction false} SourcedWord(c: Cmd<Span>, t: seq<Tok<Span>>, w: Span)
    requires Sourced(c, t) && IsWord(c, w)
    ensures Word(w) in t
  {
    match c
    case Exec(_) =>
    case Redir(d, file, _, _) => if w != file { SourcedWord(d, t, w); }
    case Pipe(l, r) => if IsWord(l, w) { SourcedWord(l, t, w); } else { SourcedWord(r, t, w); }
    case List(l, r) => if IsWord(l, w) { SourcedWord(l, t, w); } else { SourcedWord(r, t, w); }
    case Back(d) => SourcedWord(d, t, w);
  }

  /** The C string that starts at q. */
  ghost predicate ReadsAs(mem: seq<char>, q: nat, text: string) {
    q + |text| < |mem| && mem[q..q + |text|] == text && '\0' !in text && mem[q + |text|] == '\0'
  }

  /** Every word of a parsed line lies in it, and no word's end falls inside another. */
  lemma ParsedWords(s: string, c: Cmd<Span>, v: Span, w: Span)
    requires Clean(s) && Sourced(c, Lex(s, 0)) && IsWord(c, v) && IsWord(c, w)
    ensures v.q < v.eq <= |s| && GoodWord(s[v.q..v.eq]) && !(v.q <= w.eq < v.eq)
  {
    var t := Lex(s, 0);
    LexWords(s, 0);
    SourcedWord(c, t, v);
    SourcedWord(c, t, w);
    assert Apart(v, w) && WordAt(s, 0, v) && WordAt(s, 0, w);
  }

  /** parsecmd: on success every argument and every file name reads, in the buffer, as its own token. */
  method ParseInPlace(buf: array<char>, s: string) returns (r: Result)
    requires Clean(s) && buf.Length == |s| + 1 && buf[..] == s + ['\0']
    modifies buf
    ensures match ParseAll(Lex(s, 0))
            case Ok(c, _) => r == Done(c)
            case Err(e) => r == Failed(e)
    ensures r.Done? ==> forall w :: IsWord(r.cmd, w) ==> ReadsAs(buf[..], w.q, Text(s, w))
    ensures r.Failed? ==> buf[..] == old(buf[..])
  {
    var p := new Parser(s);
    r := p.ParseCmd();
    if r.Failed? {
      return;
    }
    ghost var c := r.cmd;
    LineSourced(Lex(s, 0));
    forall e | e in WordEnds(c) ensures e < buf.Length {
      EndOfWord(c, e);
      var w :| IsWord(c, w) && w.eq == e;
      ParsedWords(s, c, w, w);
    }
    Nulterminate(buf, r.cmd);
    forall w | IsWord(c, w) ensures ReadsAs(buf[..], w.q, Text(s, w)) {
      InPlace(s, c, buf[..], w);
    }
  }

  lemma InPlace(s: string, c: Cmd<Span>, mem: seq<char>, w: Span)
    requires Clean(s) && Sourced(c, Lex(s, 0)) && IsWord(c, w) && |mem| == |s| + 1
    requires forall i :: 0 <= i < |mem| ==> mem[i] == if i in WordEnds(c) || i == |s| then '\0' else s[i]
    ensures ReadsAs(mem, w.q, Text(s, w))
  {
    ParsedWords(s, c, w, w);
    EndOfWord(c, w.eq);
    var text := s[w.q..w.eq];
    forall i | w.q <= i < w.eq ensures mem[i] == s[i] {
      EndOfWord(c, i);
      if i in WordEnds(c) {
        var v :| IsWord(c, v) && v.eq == i;
        ParsedWords(s, c, w, v);
      }
    }
    assert mem[w.q..w.eq] == text;
  }
}
