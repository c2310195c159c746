/**
 sh.c's tokens: what gettoken finds in a line, that written tokens are found again, and that words
 never touch.
 */
module ShellLexer {
  import opened ShellGrammar

  predicate Symbol(c: char) {
    c in "<|>&;()"
  }

  predicate Clean(s: string) {
    forall k :: 0 <= k < |s| ==> s[k] != '\0'
  }

  /** The first position from i on that holds no blank. */
  function SkipBlank(s: string, i: nat): (r: nat)
    requires i <= |s|
    ensures i <= r <= |s| && (r < |s| ==> !Blank(s[r])) && forall k :: i <= k < r ==> Blank(s[k])
    decreases |s| - i
  {
    if i < |s| && Blank(s[i]) then SkipBlank(s, i + 1) else i
  }

  /** Where the word at i ends. */
  function WordEnd(s: string, i: nat): (r: nat)
    requires i <= |s|
    ensures i <= r <= |s| && (r < |s| ==> Blank(s[r]) || Symbol(s[r]))
    ensures forall k :: i <= k < r ==> !Blank(s[k]) && !Symbol(s[k])
    decreases |s| - i
  {
    if i < |s| && !Blank(s[i]) && !Symbol(s[i]) then WordEnd(s, i + 1) else i
  }

  datatype Lexeme = Lexeme(tok: Tok<Span>, end: nat)

  function TokenAt(s: string, i: nat): (r: Lexeme)
    requires i < |s| && !Blank(s[i])
    ensures i < r.end <= |s|
  {
    if s[i] == '>' then
      if i + 1 < |s| && s[i + 1] == '>' then Lexeme(Append, i + 2) else Lexeme(Op('>'), i + 1)
    else if Symbol(s[i]) then Lexeme(Op(s[i]), i + 1)
    else
      assert WordEnd(s, i) == WordEnd(s, i + 1);
      Lexeme(Word(Span(i, WordEnd(s, i))), WordEnd(s, i))
  }

  /** The tokens from i to the end of the line. */
  function Lex(s: string, i: nat): (r: seq<Tok<Span>>)
    requires i <= |s|
    decreases |s| - i
  {
    var k := SkipBlank(s, i);
    if k == |s| then [] else [TokenAt(s, k).tok] + Lex(s, TokenAt(s, k).end)
  }

  lemma SkipTwice(s: string, i: nat, j: nat)
    requires i <= j <= |s| && forall k :: i <= k < j ==> Blank(s[k])
    ensures SkipBlank(s, i) == SkipBlank(s, j) && Lex(s, i) == Lex(s, j)
    decreases j - i
  {
    if i < j {
      SkipTwice(s, i + 1, j);
    }
  }

  // ---- writing tokens ----

  function TokString(t: Tok<string>): string {
    match t
    case Op(c) => [c]
    case Append => ">>"
    case Word(w) => w
  }

  /** Every token with a blank behind it. */
  function Render(ts: seq<Tok<string>>): string {
    if |ts| == 0 then "" else TokString(ts[0]) + " " + Render(ts[1..])
  }

  predicate GoodTok(t: Tok<string>) {
    match t
    case Op(c) => Symbol(c)
    case Append => true
    case Word(w) => GoodWord(w)
  }

  lemma {:induction false} WordEndAt(s: string, i: nat, n: nat)
    requires i + n < |s| && Blank(s[i + n]) && forall k :: i <= k < i + n ==> !Blank(s[k]) && !Symbol(s[k])
    ensures WordEnd(s, i) == i + n
    decreases n
  {
    if n > 0 {
      WordEndAt(s, i + 1, n - 1);
    }
  }

  /** The lexer finds a written token, and stops at the blank behind it. */
  lemma TokenBack(s: string, i: nat, t: Tok<string>)
    requires GoodTok(t) && i + |TokString(t)| < |s| && s[i..i + |TokString(t)|] == TokString(t) && s[i + |TokString(t)|] == ' '
    ensures !Blank(s[i]) && TokText(s, TokenAt(s, i).tok) == t && TokenAt(s, i).end == i + |TokString(t)|
  {
    var n := |TokString(t)|;
    forall k | 0 <= k < n ensures s[i + k] == TokString(t)[k] {
      assert s[i..i + n][k] == s[i + k];
    }
    match t
    case Op(c) => assert s[i] == c;
    case Append => assert s[i] == '>' && s[i + 1] == '>';
    case Word(w) =>
      forall k | i <= k < i + n ensures !Blank(s[k]) && !Symbol(s[k]) {
        assert s[k] == w[k - i] && w[k - i] in w;
      }
      WordEndAt(s, i, n);
  }

  lemma LexOne(s: string, i: nat, t: Tok<string>)
    requires GoodTok(t) && i + |TokString(t)| < |s| && s[i..i + |TokString(t)|] == TokString(t) && s[i + |TokString(t)|] == ' '
    ensures var r := Lex(s, i);
            |r| > 0 && TokText(s, r[0]) == t && r[1..] == Lex(s, i + |TokString(t)| + 1)
  {
    hide TokText, TokString, TokenAt, GoodTok, WordEnd;
    var n := |TokString(t)|;
    TokenBack(s, i, t);
    SkipTwice(s, i + n, i + n + 1);
  }

  lemma RenderFirst(s: string, i: nat, ts: seq<Tok<string>>) returns (j: nat)
    requires |ts| > 0 && i <= |s| && s[i..] == Render(ts) && GoodTok(ts[0])
    ensures j <= |s| && s[j..] == Render(ts[1..])
    ensures |Lex(s, i)| > 0 && TokText(s, Lex(s, i)[0]) == ts[0] && Lex(s, i)[1..] == Lex(s, j)
  {
    hide Lex, TokText, TokString, GoodTok;
    j := i + |TokString(ts[0])| + 1;
    Joined(s, i, TokString(ts[0]), Render(ts[1..]));
    LexOne(s, i, ts[0]);
  }

  ghost predicate AllGood(ts: seq<Tok<string>>) {
    forall t :: t in ts ==> GoodTok(t)
  }

  lemma {:induction false} LexRender(s: string, i: nat, ts: seq<Tok<string>>)
    requires i <= |s| && s[i..] == Render(ts) && AllGood(ts)
    ensures |Lex(s, i)| == |ts| && Shows(s, Lex(s, i), ts)
    decreases |ts|
  {
    if |ts| == 0 {
      assert |s[i..]| == 0;
      assert Lex(s, i) == [];
    } else {
      assert ts[0] in ts && AllGood(ts[1..]);
      hide Render, Lex, AllGood, GoodTok, TokText, Shows;
      var j := RenderFirst(s, i, ts);
      LexRender(s, j, ts[1..]);
      ShowsCons(s, Lex(s, i), Lex(s, j), ts);
    }
  }

  lemma Joined(s: string, i: nat, w: string, rest: string)
    requires i <= |s| && s[i..] == w + " " + rest
    ensures i + |w| < |s| && s[i..i + |w|] == w && s[i + |w|] == ' ' && s[i + |w| + 1..] == rest
  {
    var t := s[i..];
    assert s[i..i + |w|] == t[..|w|];
    assert s[i + |w|] == t[|w|];
    assert s[i + |w| + 1..] == t[|w| + 1..];
  }

  lemma ShowsCons(s: string, r: seq<Tok<Span>>, rest: seq<Tok<Span>>, ts: seq<Tok<string>>)
    requires |r| > 0 && |ts| > 0 && TokText(s, r[0]) == ts[0] && r[1..] == rest
    requires |rest| == |ts[1..]| && Shows(s, rest, ts[1..])
    ensures |r| == |ts| && Shows(s, r, ts)
  {
    forall i | 0 <= i < |ts| ensures i < |r| && TokText(s, r[i]) == ts[i] {
      if i > 0 {
        assert TokText(s, r[1..][i - 1]) == ts[1..][i - 1];
      }
    }
  }

  // ---- writing trees ----

  function Print(c: Cmd<string>): string {
    Render(WriteLine(c))
  }

  lemma {:induction false} WriteExecGood(c: Cmd<string>)
    requires Good(c)
    ensures AllGood(WriteExec(c))
    decreases Size(c), if c.Exec? || c.Redir? then 0 else 4
  {
    match c
    case Exec(args) =>
      forall t | t in Words(args) ensures GoodTok(t) {
        var i :| 0 <= i < |args| && Words(args)[i] == t;
        assert args[i] in args;
      }
    case Redir(d, _, _, _) => WriteExecGood(d);
    case _ => WriteLineGood(c);
  }

  lemma {:induction false} WritePipeGood(c: Cmd<string>)
    requires Good(c)
    ensures AllGood(WritePipe(c))
    decreases Size(c), if c.List? || c.Back? then 5 else 1
  {
    if c.Pipe? {
      WriteExecGood(c.left);
      WritePipeGood(c.right);
    } else {
      WriteExecGood(c);
    }
  }

  lemma {:induction false} WriteBackGood(c: Cmd<string>)
    requires Good(c)
    ensures AllGood(WriteBack(c))
    decreases Size(c), if c.List? then 6 else 2
  {
    if c.Back? {
      WriteBackGood(c.cmd);
    } else {
      WritePipeGood(c);
    }
  }

  lemma {:induction false} WriteLineGood(c: Cmd<string>)
    requires Good(c)
    ensures AllGood(WriteLine(c))
    decreases Size(c), 3
  {
    if c.List? {
      WriteBackGood(c.left);
      WriteLineGood(c.right);
    } else {
      WriteBackGood(c);
    }
  }

  /** Parsing a printed tree gives the tree back. */
  lemma PrintThenParse(c: Cmd<string>)
    requires Good(c)
    ensures var r := ParseAll(Lex(Print(c), 0));
            r.Ok? && CmdText(Print(c), r.cmd) == c
  {
    WriteLineGood(c);
    LexRender(Print(c), 0, WriteLine(c));
    WriteThenParse(Print(c), Lex(Print(c), 0), c);
  }

  /** Whatever a line parses to can be printed, and parses again to the same tree. */
  lemma ParseThenPrint(s: string)
    requires Clean(s) && ParseAll(Lex(s, 0)).Ok?
    ensures var c := CmdText(s, ParseAll(Lex(s, 0)).cmd);
            && Good(c) && ParseAll(Lex(Print(c), 0)).Ok?
            && CmdText(Print(c), ParseAll(Lex(Print(c), 0)).cmd) == c
  {
    var t := Lex(s, 0);
    LineSourced(t);
    LexWords(s, 0);
    SourcedGood(s, ParseLine(t).cmd, t);
    PrintThenParse(CmdText(s, ParseAll(t).cmd));
  }

  // ---- words in place ----

  ghost predicate Apart(a: Span, b: Span) {
    a == b || a.eq < b.q || b.eq < a.q
  }

  ghost predicate WordAt(s: string, i: nat, w: Span) {
    i <= w.q < w.eq <= |s| && GoodWord(s[w.q..w.eq])
  }

  /** Every word lies in the line and can be a word; between two words there is at least one byte. */
  lemma {:induction false} LexWords(s: string, i: nat)
    requires Clean(s) && i <= |s|
    ensures forall w :: Word(w) in Lex(s, i) ==> WordAt(s, i, w) && GoodWord(Text(s, w))
    ensures forall v, w :: Word(v) in Lex(s, i) && Word(w) in Lex(s, i) ==> Apart(v, w)
    decreases |s| - i
  {
    var k := SkipBlank(s, i);
    if k < |s| {
      var x := TokenAt(s, k);
      LexWords(s, x.end);
      if x.tok.Word? {
        FirstWord(s, k);
        WordsAfter(s, x.end);
      }
      assert Lex(s, i) == [x.tok] + Lex(s, x.end);
    }
  }

  lemma FirstWord(s: string, k: nat)
    requires Clean(s) && k < |s| && !Blank(s[k]) && TokenAt(s, k).tok.Word?
    ensures TokenAt(s, k).tok.w == Span(k, TokenAt(s, k).end) && GoodWord(s[k..TokenAt(s, k).end])
    ensures var e := TokenAt(s, k).end; e == |s| || Blank(s[e]) || Symbol(s[e])
  {
  }

  /** A word ends at a byte that starts no word. */
  lemma WordsAfter(s: string, e: nat)
    requires Clean(s) && e <= |s| && (e == |s| || Blank(s[e]) || Symbol(s[e]))
    requires forall w :: Word(w) in Lex(s, e) ==> WordAt(s, e, w)
    ensures forall w :: Word(w) in Lex(s, e) ==> e < w.q
  {
    forall w | Word(w) in Lex(s, e) ensures e < w.q {
      assert WordAt(s, e, w);
      assert s[w.q..w.eq][0] == s[w.q] && s[w.q] in s[w.q..w.eq];
    }
  }
}
