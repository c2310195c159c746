/**
 Two things the shell's grammar does not do that its operators suggest: tell `>>` from `>`, and take
 another command after `&`.
 */
module ShellOperators {
  import opened ShellGrammar

  // ---- `>>` is `>` ----

  function PlainTok<W>(x: Tok<W>): Tok<W> {
    if x.Append? then Op('>') else x
  }

  /** The tokens with every `>>` replaced by `>`. */
  function Plain<W>(t: seq<Tok<W>>): (r: seq<Tok<W>>)
    ensures |r| == |t| && forall i :: 0 <= i < |t| ==> r[i] == PlainTok(t[i])
  {
    seq(|t|, i requires 0 <= i < |t| => PlainTok(t[i]))
  }

  function PlainParsed<W>(r: Parsed<W>): Parsed<W> {
    if r.Ok? then Ok(r.cmd, Plain(r.rest)) else r
  }

  lemma PlainTail<W>(t: seq<Tok<W>>, n: nat)
    requires n <= |t|
    ensures Plain(t[n..]) == Plain(t)[n..]
  {
  }

  lemma PlainStarts<W>(t: seq<Tok<W>>, ops: string)
    requires '>' !in ops
    ensures Starts(Plain(t), ops) == Starts(t, ops)
  {
  }

  lemma {:induction false} PlainRedirs<W>(t: seq<Tok<W>>)
    ensures Redirs(Plain(t)) == match Redirs(t) case NoFile => NoFile case Found(rs, rest) => Found(rs, Plain(rest))
    decreases |t|
  {
    if |t| >= 2 && IsRedir(t[0]) && t[1].Word? {
      PlainTail(t, 2);
      PlainRedirs(t[2..]);
      assert TargetOf(PlainTok(t[0]), t[1].w) == TargetOf(t[0], t[1].w);
    }
  }

  lemma {:induction false} PlainArgs<W>(t: seq<Tok<W>>, args: seq<W>, rs: seq<Target<W>>)
    ensures Args(Plain(t), args, rs) == PlainParsed(Args(t, args, rs))
    decreases |t|
  {
    PlainStarts(t, "|)&;");
    if |t| > 0 && !Starts(t, "|)&;") && t[0].Word? && |args| + 1 < MAXARGS {
      PlainTail(t, 1);
      PlainRedirs(t[1..]);
      if Redirs(t[1..]).Found? {
        PlainArgs(Redirs(t[1..]).rest, args + [t[0].w], rs + Redirs(t[1..]).rs);
      }
    }
  }

  lemma {:induction false} PlainExec<W>(t: seq<Tok<W>>)
    ensures ParseExec(Plain(t)) == PlainParsed(ParseExec(t))
    decreases |t|, 1
  {
    PlainStarts(t, "(");
    if Starts(t, "(") {
      PlainBlock(t);
    } else {
      PlainRedirs(t);
      if Redirs(t).Found? {
        PlainArgs(Redirs(t).rest, [], Redirs(t).rs);
      }
    }
  }

  lemma {:induction false} PlainBlock<W>(t: seq<Tok<W>>)
    requires Starts(t, "(")
    ensures Starts(Plain(t), "(") && ParseBlock(Plain(t)) == PlainParsed(ParseBlock(t))
    decreases |t|, 0
  {
    PlainStarts(t, "(");
    PlainTail(t, 1);
    PlainLine(t[1..]);
    var r := ParseLine(t[1..]);
    if r.Ok? {
      PlainStarts(r.rest, ")");
      if Starts(r.rest, ")") {
        PlainTail(r.rest, 1);
        PlainRedirs(r.rest[1..]);
      }
    }
  }

  lemma {:induction false} PlainPipe<W>(t: seq<Tok<W>>)
    ensures ParsePipe(Plain(t)) == PlainParsed(ParsePipe(t))
    decreases |t|, 2
  {
    PlainExec(t);
    var r := ParseExec(t);
    if r.Ok? {
      PlainStarts(r.rest, "|");
      if Starts(r.rest, "|") {
        PlainTail(r.rest, 1);
        PlainPipe(r.rest[1..]);
      }
    }
  }

  lemma {:induction false} PlainBacks<W>(c: Cmd<W>, t: seq<Tok<W>>)
    ensures Backs(c, Plain(t)) == (Backs(c, t).0, Plain(Backs(c, t).1))
    decreases |t|
  {
    PlainStarts(t, "&");
    if Starts(t, "&") {
      PlainTail(t, 1);
      PlainBacks(Back(c), t[1..]);
    }
  }

  lemma {:induction false} PlainLine<W>(t: seq<Tok<W>>)
    ensures ParseLine(Plain(t)) == PlainParsed(ParseLine(t))
    decreases |t|, 3
  {
    PlainPipe(t);
    var r := ParsePipe(t);
    if r.Ok? {
      PlainBacks(r.cmd, r.rest);
      var b := Backs(r.cmd, r.rest);
      PlainStarts(b.1, ";");
      if Starts(b.1, ";") {
        PlainTail(b.1, 1);
        PlainLine(b.1[1..]);
      }
    }
  }

  /** Whatever the line, the shell builds the same tree, or reports the same error, when every `>>` in it is
      read as `>`: a file opened for appending is opened from its start. */
  lemma AppendIsIgnored<W>(t: seq<Tok<W>>)
    ensures ParseAll(Plain(t)) == ParseAll(t)
  {
    PlainLine(t);
    var r := ParseLine(t);
    if r.Ok? && |r.rest| == 0 {
      assert Plain(r.rest) == r.rest;
    }
  }

  // ---- after `&` ----

  ghost predicate OnlyBacks<W>(t: seq<Tok<W>>) {
    forall i :: 0 <= i < |t| ==> t[i] == Op('&')
  }

  /** The loop over `&` stops at the first token that is none. */
  lemma {:induction false} BacksStop<W>(c: Cmd<W>, amps: seq<Tok<W>>, t: seq<Tok<W>>)
    requires OnlyBacks(amps) && !Starts(t, "&")
    ensures Backs(c, amps + t).1 == t
    decreases |amps|
  {
    if |amps| == 0 {
      assert amps + t == t;
    } else {
      assert (amps + t)[1..] == amps[1..] + t;
      BacksStop(Back(c), amps[1..], t);
    }
  }

  /** A pipeline, some `&`, and then something else: a whole line if and only if that is nothing, or a `;` and
      a line. In particular a command may not follow `&` directly. */
  lemma AfterBackground<W>(t: seq<Tok<W>>, amps: seq<Tok<W>>, u: seq<Tok<W>>)
    requires ParsePipe(t).Ok? && ParsePipe(t).rest == amps + u && OnlyBacks(amps) && !Starts(u, "&")
    ensures ParseAll(t).Ok? <==> u == [] || (Starts(u, ";") && ParseAll(u[1..]).Ok?)
    ensures u != [] && !Starts(u, ";") ==> ParseAll(t) == Err(Leftovers)
  {
    BacksStop(ParsePipe(t).cmd, amps, u);
  }

  /** `a & b` is refused; `a & ; b` is two commands. */
  lemma BackgroundNeedsList(a: string, b: string)
    ensures ParseAll([Word(a), Op('&'), Word(b)]) == Err(Leftovers)
    ensures ParseAll([Word(a), Op('&'), Op(';'), Word(b)]) == Ok(List(Back(Exec([a])), Exec([b])), [])
  {
    var t, u := [Word(a), Op('&'), Word(b)], [Word(a), Op('&'), Op(';'), Word(b)];
    OneCommand(a, t[1..]);
    OneCommand(a, u[1..]);
    OneCommand(b, []);
    assert t == [Word(a)] + t[1..] && u == [Word(a)] + u[1..];
    AfterBackground(t, [Op('&')], [Word(b)]);
    var c := Exec([a]);
    assert u[1..][1..] == [Op(';'), Word(b)];
    assert Backs(c, u[1..]) == Backs(Back(c), [Op(';'), Word(b)]) == (Back(c), [Op(';'), Word(b)]);
    assert [Op(';'), Word(b)][1..] == [Word(b)] == [Word(b)] + [];
    assert ParseLine([Word(b)]) == Ok(Exec([b]), []);
  }

  lemma OneCommand(a: string, rest: seq<Tok<string>>)
    requires Ends(rest, "&;")
    ensures ParsePipe([Word(a)] + rest) == Ok(Exec([a]), rest)
  {
    var t := [Word(a)] + rest;
    assert t[1..] == rest;
    assert Redirs(t) == Found([], t);
    RedirsNone(rest);
    assert [] + [a] == [a];
    var none: seq<Target<string>> := [];
    assert none + [] == none;
    ArgsNext(t, [], []);
    ArgsStop(rest, [a], []);
  }
}
