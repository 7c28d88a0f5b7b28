/**
  The shell's parser as it runs: a cursor over the input, a loop for every repetition, and words
  as places in the buffer, which nulterminate cuts out at the end. None stands for a panic.
 */
module ShellParser {
  import opened Blocks
  import opened Shell

  const NUL := '\0'

  /** The characters from q up to eq. */
  datatype Slice = Slice(q: nat, eq: nat)

  /** A word of the input: word characters, up to where they end. */
  predicate SliceOk(s: string, x: Slice)
  {
    && x.q < x.eq <= |s|
    && (forall k :: x.q <= k < x.eq ==> IsWordChar(s[k]))
    && (x.eq < |s| ==> !IsWordChar(s[x.eq]))
  }

  predicate CmdSlices(s: string, c: Cmd<Slice>)
  {
    match c
    case Exec(argv) => ArgvOk(s, argv)
    case Redir(d, file, _, _) => CmdSlices(s, d) && SliceOk(s, file)
    case Pipe(l, r) => CmdSlices(s, l) && CmdSlices(s, r)
    case List(l, r) => CmdSlices(s, l) && CmdSlices(s, r)
    case Back(d) => CmdSlices(s, d)
  }

  predicate ArgvOk(s: string, argv: seq<Slice>)
  {
    forall k :: 0 <= k < |argv| ==> SliceOk(s, argv[k])
  }

  function TextOf(s: string, x: Slice): (w: string)
    requires SliceOk(s, x)
  {
    s[x.q..x.eq]
  }

  function Words(s: string, argv: seq<Slice>): (ws: seq<string>)
    requires ArgvOk(s, argv)
    ensures |ws| == |argv|
  {
    seq(|argv|, k requires 0 <= k < |argv| => TextOf(s, argv[k]))
  }

  /** The command with its words spelled out. */
  function Spelled(s: string, c: Cmd<Slice>): (r: Cmd<string>)
    requires CmdSlices(s, c)
  {
    match c
    case Exec(argv) => Exec(Words(s, argv))
    case Redir(d, file, mode, fd) => Redir(Spelled(s, d), TextOf(s, file), mode, fd)
    case Pipe(l, r) => Pipe(Spelled(s, l), Spelled(s, r))
    case List(l, r) => List(Spelled(s, l), Spelled(s, r))
    case Back(d) => Back(Spelled(s, d))
  }

  predicate RdsOk(s: string, rds: seq<Rd<Slice>>)
  {
    forall k :: 0 <= k < |rds| ==> SliceOk(s, rds[k].file)
  }

  function SpelledRds(s: string, rds: seq<Rd<Slice>>): (r: seq<Rd<string>>)
    requires RdsOk(s, rds)
    ensures |r| == |rds|
  {
    seq(|rds|, k requires 0 <= k < |rds| => SpelledRd(s, rds[k]))
  }

  function SpelledRd(s: string, rd: Rd<Slice>): (r: Rd<string>)
    requires SliceOk(s, rd.file)
  {
    Rd(TextOf(s, rd.file), rd.mode, rd.fd)
  }

  /** What was read already, before what is still to be read. */
  function After(rds: seq<Rd<string>>, e: Res<seq<Rd<string>>>): (r: Res<seq<Rd<string>>>)
  {
    if e.Err? then Err else Ok(rds + e.value, e.rest)
  }

  lemma {:induction false} NoneYet(s: string, e: Res<seq<Rd<string>>>)
    ensures RdsOk(s, []) && After(SpelledRds(s, []), e) == e
  {
    assert e.Ok? ==> [] + e.value == e.value;
  }

  lemma {:induction false} OneMore(s: string, rds: seq<Rd<Slice>>, rd: Rd<Slice>, e: Res<seq<Rd<string>>>)
    requires RdsOk(s, rds) && SliceOk(s, rd.file)
    ensures RdsOk(s, rds + [rd]) && After(SpelledRds(s, rds), After([SpelledRd(s, rd)], e)) == After(SpelledRds(s, rds + [rd]), e)
  {
    assert SpelledRds(s, rds + [rd]) == SpelledRds(s, rds) + [SpelledRd(s, rd)];
    assert e.Ok? ==> SpelledRds(s, rds) + ([SpelledRd(s, rd)] + e.value) == SpelledRds(s, rds + [rd]) + e.value;
  }

  lemma {:induction false} NoneLeft(u: string)
    requires !Peek(u, {'<', '>'}) && u == Skip(u)
    ensures Redirs(u) == Ok([], u)
    ensures forall rds :: After(rds, Redirs(u)) == Ok(rds, u)
  {
    assert forall rds: seq<Rd<string>> :: rds + [] == rds;
  }

  lemma {:induction false} SpelledWrap(s: string, c: Cmd<Slice>, rds: seq<Rd<Slice>>)
    requires CmdSlices(s, c) && RdsOk(s, rds)
    ensures CmdSlices(s, Wrap(c, rds)) && Spelled(s, Wrap(c, rds)) == Wrap(Spelled(s, c), SpelledRds(s, rds))
    decreases |rds|
  {
    if rds != [] {
      var init := rds[..|rds| - 1];
      SpelledWrap(s, c, init);
      assert SpelledRds(s, rds)[..|rds| - 1] == SpelledRds(s, init);
    }
  }

  lemma {:induction false} SpelledBackground(s: string, c: Cmd<Slice>, n: nat)
    requires CmdSlices(s, c)
    ensures CmdSlices(s, Background(c, n)) && Spelled(s, Background(c, n)) == Background(Spelled(s, c), n)
    decreases n
  {
    if n > 0 {
      SpelledBackground(s, c, n - 1);
    }
  }

  // ---------------------------------------------------------------- skipping again changes nothing

  lemma {:induction false} SkipAgain(u: string)
    ensures Skip(Skip(u)) == Skip(u)
  {
    hide Skip;
    NoSpace(Skip(u));
  }

  lemma {:induction false} SameTokens(u: string)
    ensures KindOf(Skip(u)) == KindOf(u) && Text(Skip(u)) == Text(u) && Rest(Skip(u)) == Rest(u)
    ensures forall toks :: Peek(Skip(u), toks) == Peek(u, toks)
  {
    SkipAgain(u);
    hide Skip;
  }

  lemma {:induction false} SkippedRest(u: string)
    ensures Skip(Rest(u)) == Rest(u)
  {
    hide Skip;
    SkipAgain(Skip(u)[TokenLen(u)..]);
  }

  lemma {:induction false} SameRedirs(u: string)
    ensures Redirs(Skip(u)) == Redirs(u)
    ensures Redirs(u).Ok? ==> Skip(Redirs(u).rest) == Redirs(u).rest
    decreases |u|
  {
    SameTokens(u);
    SkipAgain(u);
    if Peek(u, {'<', '>'}) {
      SameRedirs(Rest(Rest(u)));
    }
    hide Skip, KindOf, Text, Rest, Peek;
  }

  lemma {:induction false} SkipStep(u: string)
    requires |u| > 0 && IsSpace(u[0])
    ensures Skip(u) == Skip(u[1..])
  {
  }

  class Parser {
    const s: string
    var pos: nat

    ghost predicate Valid()
      reads this
    {
      pos <= |s|
    }

    constructor (s: string)
      ensures Valid() && this.s == s && pos == 0
    {
      this.s := s;
      pos := 0;
    }

    /** The cursor moves past any whitespace. */
    method SkipSpaces()
      requires Valid()
      modifies this
      ensures Valid() && pos >= old(pos) && s[pos..] == Skip(old(s[pos..]))
    {
      hide Skip;
      while pos < |s| && IsSpace(s[pos])
        invariant Valid() && pos >= old(pos) && Skip(s[pos..]) == Skip(old(s[pos..]))
      {
        SkipStep(s[pos..]);
        assert s[pos..][1..] == s[pos + 1..];
        pos := pos + 1;
      }
      NoSpace(s[pos..]);
    }

    /** gettoken: the next token, and the cursor at the one after it. */
    method Gettoken() returns (k: Kind, x: Slice)
      requires Valid()
      modifies this
      ensures Valid() && pos >= old(pos)
      ensures var u := old(s[pos..]); k == KindOf(u) && s[pos..] == Rest(u) && (k == Word ==> SliceOk(s, x) && TextOf(s, x) == Text(u))
    {
      hide Skip, FrontKind, FrontLen;
      SkipSpaces();
      ghost var v := s[pos..];
      k, x := Front();
      assert v[x.eq - x.q..] == s[pos..];
      SkipSpaces();
      assert s[x.q..x.eq] == v[..x.eq - x.q];
    }

    /** The switch in gettoken, past the spaces. */
    method Front() returns (k: Kind, x: Slice)
      requires Valid() && (pos < |s| ==> !IsSpace(s[pos]))
      modifies this
      ensures old(pos) <= pos <= |s| && x == Slice(old(pos), pos)
      ensures k == FrontKind(old(s[pos..])) && pos - old(pos) == FrontLen(old(s[pos..])) && (k == Word ==> SliceOk(s, x))
    {
      hide WordLen;
      var q := pos;
      if pos == |s| {
        k := Eof;
      } else if s[pos] == '>' {
        pos := pos + 1;
        k := Sym('>');
        if pos < |s| && s[pos] == '>' {
          k := Append;
          pos := pos + 1;
        }
      } else if IsSymbol(s[pos]) {
        k := Sym(s[pos]);
        pos := pos + 1;
      } else {
        k := Word;
        while pos < |s| && !IsSpace(s[pos]) && !IsSymbol(s[pos])
          invariant q <= pos <= |s| && forall j :: q <= j < pos ==> IsWordChar(s[j])
        {
          pos := pos + 1;
        }
        WordEnds(s, q, pos);
      }
      x := Slice(q, pos);
    }

    /** peek: skips spaces, and says whether one of toks comes next. */
    method PeekTok(toks: set<char>) returns (b: bool)
      requires Valid()
      modifies this
      ensures Valid() && pos >= old(pos) && b == Peek(old(s[pos..]), toks) && s[pos..] == Skip(old(s[pos..]))
      ensures b == Peek(s[pos..], toks) && s[pos..] == Skip(s[pos..])
    {
      SkipAgain(s[pos..]);
      SameTokens(s[pos..]);
      hide Skip;
      SkipSpaces();
      return pos < |s| && s[pos] in toks;
    }

    /** One turn of the loop in parseredirs: an operator, and a file name. */
    method ParseRedir() returns (r: Option<Rd<Slice>>)
      requires Valid() && Peek(s[pos..], {'<', '>'})
      modifies this
      ensures Valid() && pos > old(pos) && (r.None? ==> Redirs(old(s[pos..])).Err?)
      ensures r.Some? ==> s[pos..] == Skip(s[pos..]) && SliceOk(s, r.value.file)
      ensures r.Some? ==> Redirs(old(s[pos..])) == After([SpelledRd(s, r.value)], Redirs(s[pos..]))
    {
      hide Skip, KindOf, Text, Rest, Peek;
      var tok, _ := Gettoken();
      ghost var v := s[pos..];
      var k, file := Gettoken();
      if k != Word {
        return None;
      }
      SkippedRest(v);
      return Some(MakeRd(tok, file));
    }

    /** parseredirs: the redirections that come next, in order. */
    method ParseRedirs() returns (r: Option<seq<Rd<Slice>>>)
      requires Valid()
      modifies this
      ensures Valid() && pos >= old(pos)
      ensures var e := Redirs(old(s[pos..])); (r.None? <==> e.Err?) && (r.Some? ==> RdsOk(s, r.value) && SpelledRds(s, r.value) == e.value && s[pos..] == e.rest)
    {
      hide Skip, Peek, Redirs, SpelledRd, SpelledRds;
      ghost var u := s[pos..];
      var rds: seq<Rd<Slice>> := [];
      var more := PeekTok({'<', '>'});
      SameRedirs(u);
      NoneYet(s, Redirs(s[pos..]));
      while more
        invariant Valid() && pos >= old(pos) && RdsOk(s, rds) && more == Peek(s[pos..], {'<', '>'}) && s[pos..] == Skip(s[pos..])
        invariant Redirs(u) == After(SpelledRds(s, rds), Redirs(s[pos..]))
        decreases |s| - pos
      {
        var rd := ParseRedir();
        if rd.None? {
          return None;
        }
        OneMore(s, rds, rd.value, Redirs(s[pos..]));
        rds := rds + [rd.value];
        more := PeekTok({'<', '>'});
      }
      NoneLeft(s[pos..]);
      return Some(rds);
    }

    /** One turn of the loop in parseexec: a word, and the redirections after it. */
    method ParseArg(argv: seq<Slice>) returns (r: ArgResult)
      requires Valid() && |argv| < MAXARGS && ArgvOk(s, argv) && !Peek(s[pos..], {'|', ')', '&', ';'}) && s[pos..] == Skip(s[pos..])
      modifies this
      ensures Valid() && pos >= old(pos)
      ensures r.NoArg? ==> KindOf(old(s[pos..])) == Eof && s[pos..] == Rest(old(s[pos..]))
      ensures r.Panic? ==> Args(old(s[pos..]), |argv|).Err?
      ensures r.Arg? ==>
        var u := old(s[pos..]);
        var rd := Redirs(Rest(u));
        && KindOf(u) == Word && |argv| + 1 < MAXARGS && SliceOk(s, r.word) && TextOf(s, r.word) == Text(u)
        && rd.Ok? && RdsOk(s, r.rds) && SpelledRds(s, r.rds) == rd.value && s[pos..] == rd.rest && |rd.rest| < |u|
    {
      hide Skip, KindOf, Text, Rest, Peek;
      var tok, x := Gettoken();
      if tok == Eof {
        return NoArg;
      }
      if tok != Word {
        return Panic;
      }
      if |argv| + 1 >= MAXARGS {
        return Panic;
      }
      var rds := ParseRedirs();
      if rds.None? {
        return Panic;
      }
      return Arg(x, rds.value);
    }

    /** The loop in parseexec. */
    method ParseArgs() returns (r: Option<(seq<Slice>, seq<Rd<Slice>>)>)
      requires Valid()
      modifies this
      ensures Valid() && pos >= old(pos)
      ensures var e := Args(old(s[pos..]), 0);
        (r.None? <==> e.Err?) && (r.Some? ==>
          ArgvOk(s, r.value.0) && RdsOk(s, r.value.1) && e.value == Simple(Words(s, r.value.0), SpelledRds(s, r.value.1)) && s[pos..] == e.rest)
    {
      hide Skip, KindOf, Text, Rest, Peek, Redirs, Args;
      ghost var u := s[pos..];
      var argv: seq<Slice>, rds: seq<Rd<Slice>> := [], [];
      var stop := PeekTok({'|', ')', '&', ';'});
      SameArgs(u, 0);
      NothingYet(s, Args(s[pos..], 0));
      while !stop
        invariant Valid() && pos >= old(pos) && |argv| < MAXARGS && ArgvOk(s, argv) && RdsOk(s, rds)
        invariant stop == Peek(s[pos..], {'|', ')', '&', ';'}) && s[pos..] == Skip(s[pos..])
        invariant Args(u, 0) == Joined(Words(s, argv), SpelledRds(s, rds), Args(s[pos..], |argv|))
        decreases |s| - pos
      {
        ghost var v, argv0, rds0 := s[pos..], argv, rds;
        var a := ParseArg(argv);
        if a.Panic? {
          return None;
        }
        if a.NoArg? {
          ArgsAtEof(v, |argv|);
          JoinedEnd(Words(s, argv), SpelledRds(s, rds), Rest(v));
          return Some((argv, rds));
        }
        argv := argv + [a.word];
        rds := rds + a.rds;
        ArgsMore(v, |argv0|);
        SpelledMore(s, argv0, a.word, rds0, a.rds);
        JoinedMore(Words(s, argv0), SpelledRds(s, rds0), Text(v), SpelledRds(s, a.rds), Args(s[pos..], |argv|));
        ghost var w := s[pos..];
        stop := PeekTok({'|', ')', '&', ';'});
        SameArgs(w, |argv|);
      }
      ArgsAtStop(s[pos..], |argv|);
      JoinedEnd(Words(s, argv), SpelledRds(s, rds), s[pos..]);
      return Some((argv, rds));
    }

    /** parseexec: a block, or words with redirections before and among them. */
    method ParseExecCmd() returns (r: Option<Cmd<Slice>>)
      requires Valid()
      modifies this
      ensures Valid() && pos >= old(pos) && Agrees(s, r, ParseExec(old(s[pos..])), s[pos..])
      decreases |s| - pos, 1
    {
      hide Skip, KindOf, Text, Rest, Peek, Redirs, Args, ParseLine, Spelled, Wrap;
      ghost var u := s[pos..];
      SameTokens(u);
      SameRedirs(u);
      var block := PeekTok({'('});
      if block {
        r := ParseBlock();
        return;
      }
      var rds := ParseRedirs();
      if rds.None? {
        return None;
      }
      var args := ParseArgs();
      if args.None? {
        return None;
      }
      var all := rds.value + args.value.1;
      JoinRds(s, rds.value, args.value.1);
      SimpleSpelled(s, args.value.0, all);
      return Some(Wrap(Exec(args.value.0), all));
    }

    /** parseblock */
    method ParseBlock() returns (r: Option<Cmd<Slice>>)
      requires Valid() && Peek(s[pos..], {'('}) && s[pos..] == Skip(s[pos..])
      modifies this
      ensures Valid() && pos >= old(pos) && Agrees(s, r, ParseExec(old(s[pos..])), s[pos..])
      decreases |s| - pos, 0
    {
      hide Skip, KindOf, Text, Rest, Peek, Redirs, Args, ParseLine, Spelled, Wrap;
      ghost var u := s[pos..];
      var open := PeekTok({'('});
      if !open {
        return None;
      }
      var tok, x := Gettoken();
      SkippedRest(u);
      var body := ParseLineCmd();
      if body.None? {
        return None;
      }
      ghost var v := s[pos..];
      SameTokens(v);
      var close := PeekTok({')'});
      if !close {
        return None;
      }
      tok, x := Gettoken();
      var rds := ParseRedirs();
      if rds.None? {
        return None;
      }
      SpelledWrap(s, body.value, rds.value);
      return Some(Wrap(body.value, rds.value));
    }

    /** parsepipe */
    method ParsePipeCmd() returns (r: Option<Cmd<Slice>>)
      requires Valid()
      modifies this
      ensures Valid() && pos >= old(pos) && Agrees(s, r, ParsePipe(old(s[pos..])), s[pos..])
      decreases |s| - pos, 2
    {
      hide Skip, KindOf, Text, Rest, Peek, ParseExec;
      var l := ParseExecCmd();
      if l.None? {
        return None;
      }
      ghost var v := s[pos..];
      SameTokens(v);
      var bar := PeekTok({'|'});
      if !bar {
        return l;
      }
      var tok, x := Gettoken();
      var right := ParsePipeCmd();
      if right.None? {
        return None;
      }
      return Some(Pipe(l.value, right.value));
    }

    /** The loop over '&' in parseline. */
    method ParseBacks() returns (n: nat)
      requires Valid()
      modifies this
      ensures Valid() && pos >= old(pos) && Backs(old(s[pos..])) == Ok(n, s[pos..]) && s[pos..] == Skip(s[pos..])
    {
      hide Skip, KindOf, Text, Rest, Peek;
      ghost var u := s[pos..];
      SameTokens(u);
      SkipAgain(u);
      n := 0;
      var more := PeekTok({'&'});
      while more
        invariant Valid() && pos >= old(pos) && more == Peek(s[pos..], {'&'}) && s[pos..] == Skip(s[pos..])
        invariant Backs(u) == Ok(n + Backs(s[pos..]).value, Backs(s[pos..]).rest)
        decreases |s| - pos
      {
        ghost var v := s[pos..];
        var tok, x := Gettoken();
        SkippedRest(v);
        n := n + 1;
        more := PeekTok({'&'});
      }
    }

    /** parseline */
    method ParseLineCmd() returns (r: Option<Cmd<Slice>>)
      requires Valid()
      modifies this
      ensures Valid() && pos >= old(pos) && Agrees(s, r, ParseLine(old(s[pos..])), s[pos..])
      decreases |s| - pos, 3
    {
      hide Skip, KindOf, Text, Rest, Peek, ParsePipe, Backs;
      var l := ParsePipeCmd();
      if l.None? {
        return None;
      }
      var n := ParseBacks();
      SpelledBackground(s, l.value, n);
      var c := Background(l.value, n);
      hide Background;
      ghost var v := s[pos..];
      var semi := PeekTok({';'});
      if !semi {
        return Some(c);
      }
      var tok, x := Gettoken();
      var right := ParseLineCmd();
      if right.None? {
        return None;
      }
      return Some(List(c, right.value));
    }
  }

  /** The parser's result is what the grammar says: a panic, or a tree whose words spell the grammar's, and the same rest. */
  ghost predicate Agrees(s: string, r: Option<Cmd<Slice>>, e: Res<Cmd<string>>, rest: string)
  {
    (r.None? <==> e.Err?) && (r.Some? ==> CmdSlices(s, r.value) && Spelled(s, r.value) == e.value && rest == e.rest)
  }

  lemma {:induction false} JoinRds(s: string, a: seq<Rd<Slice>>, b: seq<Rd<Slice>>)
    requires RdsOk(s, a) && RdsOk(s, b)
    ensures RdsOk(s, a + b) && SpelledRds(s, a + b) == SpelledRds(s, a) + SpelledRds(s, b)
  {
  }

  lemma {:induction false} SimpleSpelled(s: string, argv: seq<Slice>, rds: seq<Rd<Slice>>)
    requires ArgvOk(s, argv) && RdsOk(s, rds)
    ensures CmdSlices(s, Wrap(Exec(argv), rds)) && Spelled(s, Wrap(Exec(argv), rds)) == Wrap(Exec(Words(s, argv)), SpelledRds(s, rds))
  {
    SpelledWrap(s, Exec(argv), rds);
  }

  datatype ArgResult = Arg(word: Slice, rds: seq<Rd<Slice>>) | NoArg | Panic

  /** Arguments and redirections read so far, before those still to be read. */
  function Joined(ws: seq<string>, rds: seq<Rd<string>>, e: Res<Simple>): (r: Res<Simple>)
  {
    if e.Err? then Err else Ok(Simple(ws + e.value.argv, rds + e.value.rds), e.rest)
  }

  lemma {:induction false} NothingYet(s: string, e: Res<Simple>)
    ensures Joined(Words(s, []), SpelledRds(s, []), e) == e
  {
    assert Words(s, []) == [] && SpelledRds(s, []) == [];
    if e.Ok? {
      assert [] + e.value.argv == e.value.argv && [] + e.value.rds == e.value.rds;
    }
  }

  lemma {:induction false} JoinedEnd(ws: seq<string>, rds: seq<Rd<string>>, rest: string)
    ensures Joined(ws, rds, Ok(Simple([], []), rest)) == Ok(Simple(ws, rds), rest)
  {
    assert ws + [] == ws && rds + [] == rds;
  }

  lemma {:induction false} JoinedMore(ws: seq<string>, rds: seq<Rd<string>>, w: string, more: seq<Rd<string>>, e: Res<Simple>)
    ensures Joined(ws, rds, Joined([w], more, e)) == Joined(ws + [w], rds + more, e)
  {
    if e.Ok? {
      assert ws + ([w] + e.value.argv) == ws + [w] + e.value.argv;
      assert rds + (more + e.value.rds) == rds + more + e.value.rds;
    }
  }

  lemma {:induction false} SpelledMore(s: string, argv: seq<Slice>, x: Slice, rds: seq<Rd<Slice>>, more: seq<Rd<Slice>>)
    requires ArgvOk(s, argv) && SliceOk(s, x) && RdsOk(s, rds) && RdsOk(s, more)
    ensures ArgvOk(s, argv + [x]) && Words(s, argv + [x]) == Words(s, argv) + [TextOf(s, x)]
    ensures RdsOk(s, rds + more) && SpelledRds(s, rds + more) == SpelledRds(s, rds) + SpelledRds(s, more)
  {
  }

  lemma {:induction false} SameArgs(u: string, n: nat)
    ensures Args(Skip(u), n) == Args(u, n)
  {
    SameTokens(u);
    SkipAgain(u);
    hide Skip, KindOf, Text, Rest, Peek, Redirs;
  }

  lemma {:induction false} ArgsAtEof(v: string, n: nat)
    requires !Peek(v, {'|', ')', '&', ';'}) && KindOf(v) == Eof
    ensures Args(v, n) == Ok(Simple([], []), Rest(v))
  {
    hide Skip, KindOf, Text, Rest, Peek, Redirs;
  }

  lemma {:induction false} ArgsAtStop(v: string, n: nat)
    requires Peek(v, {'|', ')', '&', ';'}) && Skip(v) == v
    ensures Args(v, n) == Ok(Simple([], []), v)
  {
    hide Skip, KindOf, Text, Rest, Peek, Redirs;
  }

  lemma {:induction false} ArgsMore(v: string, n: nat)
    requires !Peek(v, {'|', ')', '&', ';'}) && KindOf(v) == Word && n + 1 < MAXARGS && Redirs(Rest(v)).Ok?
    ensures Args(v, n) == Joined([Text(v)], Redirs(Rest(v)).value, Args(Redirs(Rest(v)).rest, n + 1))
  {
    hide Skip, KindOf, Text, Rest, Peek, Redirs;
  }

  lemma {:induction false} WordEnds(s: string, q: nat, e: nat)
    requires q < e <= |s| && (forall j :: q <= j < e ==> IsWordChar(s[j])) && (e < |s| ==> !IsWordChar(s[e]))
    ensures WordLen(s[q..]) == e - q
  {
    hide IsWordChar;
    var n := WordLen(s[q..]);
    assert n < |s| - q ==> s[q..][n] == s[q + n];
    assert e < |s| ==> s[q..][e - q] == s[e];
  }

  // ---------------------------------------------------------------- nulterminate

  /** The buffer still has every word character of the input. */
  ghost predicate KeepsWords(s: string, buf: seq<char>)
  {
    |buf| == |s| + 1 && forall k :: 0 <= k < |s| && IsWordChar(s[k]) ==> buf[k] == s[k]
  }

  /** Every word of the command is followed by a zero byte. */
  ghost predicate Cut(buf: seq<char>, c: Cmd<Slice>)
  {
    match c
    case Exec(argv) => forall k :: 0 <= k < |argv| ==> argv[k].eq < |buf| && buf[argv[k].eq] == NUL
    case Redir(d, file, _, _) => Cut(buf, d) && file.eq < |buf| && buf[file.eq] == NUL
    case Pipe(l, r) => Cut(buf, l) && Cut(buf, r)
    case List(l, r) => Cut(buf, l) && Cut(buf, r)
    case Back(d) => Cut(buf, d)
  }

  /** Zero bytes stay. */
  ghost predicate Grows(buf: seq<char>, buf': seq<char>)
  {
    |buf'| == |buf| && forall k :: 0 <= k < |buf| ==> buf'[k] == buf[k] || buf'[k] == NUL
  }

  lemma {:induction false} StaysCut(buf: seq<char>, buf': seq<char>, c: Cmd<Slice>)
    requires Cut(buf, c) && Grows(buf, buf')
    ensures Cut(buf', c)
  {
    match c
    case Exec(argv) =>
    case Redir(d, file, _, _) => StaysCut(buf, buf', d);
    case Pipe(l, r) =>
      StaysCut(buf, buf', l);
      StaysCut(buf, buf', r);
    case List(l, r) =>
      StaysCut(buf, buf', l);
      StaysCut(buf, buf', r);
    case Back(d) => StaysCut(buf, buf', d);
  }

  lemma {:induction false} GrowsTrans(a: seq<char>, b: seq<char>, c: seq<char>)
    requires Grows(a, b) && Grows(b, c)
    ensures Grows(a, c)
  {
  }

  /** The byte after a word becomes zero; no word character is lost, because a word ends where something else begins. */
  method CutWord(buf: array<char>, x: Slice, ghost s: string)
    requires SliceOk(s, x) && KeepsWords(s, buf[..])
    modifies buf
    ensures KeepsWords(s, buf[..]) && Grows(old(buf[..]), buf[..]) && x.eq < buf.Length && buf[x.eq] == NUL
  {
    hide IsWordChar;
    buf[x.eq] := NUL;
  }

  /** nulterminate: every word is cut out of the buffer, and none is damaged. */
  method Nulterminate(buf: array<char>, c: Cmd<Slice>, ghost s: string)
    requires CmdSlices(s, c) && KeepsWords(s, buf[..])
    modifies buf
    ensures KeepsWords(s, buf[..]) && Grows(old(buf[..]), buf[..]) && Cut(buf[..], c)
    decreases Size(c), 1
  {
    hide KeepsWords, Grows, SliceOk;
    match c
    case Exec(argv) => CutArgs(buf, argv, s);
    case Redir(d, file, _, _) =>
      Nulterminate(buf, d, s);
      ghost var b := buf[..];
      CutWord(buf, file, s);
      StaysCut(b, buf[..], d);
      GrowsTrans(old(buf[..]), b, buf[..]);
    case Pipe(l, r) => CutBoth(buf, l, r, s);
    case List(l, r) => CutBoth(buf, l, r, s);
    case Back(d) => Nulterminate(buf, d, s);
  }

  method CutBoth(buf: array<char>, l: Cmd<Slice>, r: Cmd<Slice>, ghost s: string)
    requires CmdSlices(s, l) && CmdSlices(s, r) && KeepsWords(s, buf[..])
    modifies buf
    ensures KeepsWords(s, buf[..]) && Grows(old(buf[..]), buf[..]) && Cut(buf[..], l) && Cut(buf[..], r)
    decreases Size(l) + Size(r) + 1, 0
  {
    hide KeepsWords, Grows, CmdSlices, Cut;
    Nulterminate(buf, l, s);
    ghost var b := buf[..];
    Nulterminate(buf, r, s);
    StaysCut(b, buf[..], l);
    GrowsTrans(old(buf[..]), b, buf[..]);
  }

  method CutArgs(buf: array<char>, argv: seq<Slice>, ghost s: string)
    requires ArgvOk(s, argv) && KeepsWords(s, buf[..])
    modifies buf
    ensures KeepsWords(s, buf[..]) && Grows(old(buf[..]), buf[..])
    ensures forall k :: 0 <= k < |argv| ==> argv[k].eq < buf.Length && buf[argv[k].eq] == NUL
  {
    hide KeepsWords, IsWordChar;
    var i := 0;
    while i < |argv|
      invariant 0 <= i <= |argv| && KeepsWords(s, buf[..]) && Grows(old(buf[..]), buf[..])
      invariant forall k :: 0 <= k < i ==> argv[k].eq < buf.Length && buf[argv[k].eq] == NUL
    {
      ghost var b := buf[..];
      CutWord(buf, argv[i], s);
      GrowsTrans(old(buf[..]), b, buf[..]);
      assert forall k :: 0 <= k < i ==> buf[argv[k].eq] == buf[..][argv[k].eq] && b[argv[k].eq] == NUL;
      i := i + 1;
    }
  }

  /** The C string at place k: what is before the next zero byte. */
  function CStringAt(buf: seq<char>, k: nat): (r: string)
    decreases |buf| - k
  {
    if k >= |buf| || buf[k] == NUL then "" else [buf[k]] + CStringAt(buf, k + 1)
  }

  lemma {:induction false} CutWordReads(s: string, buf: seq<char>, x: Slice, k: nat)
    requires SliceOk(s, x) && KeepsWords(s, buf) && NUL !in s && x.q <= k <= x.eq && x.eq < |buf| && buf[x.eq] == NUL
    ensures CStringAt(buf, k) == s[k..x.eq]
    decreases x.eq - k
  {
    if k < x.eq {
      CutWordReads(s, buf, x, k + 1);
      assert IsWordChar(s[k]) && buf[k] == s[k];
      assert s[k] in s;
      assert s[k..x.eq] == [s[k]] + s[k + 1..x.eq];
    }
  }

  /** The command as exec and open see it: every word a C string in the buffer. */
  function AsStrings(buf: seq<char>, c: Cmd<Slice>): (r: Cmd<string>)
  {
    match c
    case Exec(argv) => Exec(seq(|argv|, k requires 0 <= k < |argv| => CStringAt(buf, argv[k].q)))
    case Redir(d, file, mode, fd) => Redir(AsStrings(buf, d), CStringAt(buf, file.q), mode, fd)
    case Pipe(l, r) => Pipe(AsStrings(buf, l), AsStrings(buf, r))
    case List(l, r) => List(AsStrings(buf, l), AsStrings(buf, r))
    case Back(d) => Back(AsStrings(buf, d))
  }

  lemma {:induction false} CutReads(s: string, buf: seq<char>, c: Cmd<Slice>)
    requires CmdSlices(s, c) && KeepsWords(s, buf) && NUL !in s && Cut(buf, c)
    ensures AsStrings(buf, c) == Spelled(s, c)
  {
    match c
    case Exec(argv) =>
      forall k | 0 <= k < |argv|
        ensures CStringAt(buf, argv[k].q) == TextOf(s, argv[k])
      {
        CutWordReads(s, buf, argv[k], argv[k].q);
      }
    case Redir(d, file, _, _) =>
      CutReads(s, buf, d);
      CutWordReads(s, buf, file, file.q);
    case Pipe(l, r) =>
      CutReads(s, buf, l);
      CutReads(s, buf, r);
    case List(l, r) =>
      CutReads(s, buf, l);
      CutReads(s, buf, r);
    case Back(d) => CutReads(s, buf, d);
  }

  /**
    parsecmd: a panic exactly when the line is no command, and otherwise the command that the
    grammar gives, with every word a C string in the buffer.
   */
  method Parsecmd(s: string, buf: array<char>) returns (r: Option<Cmd<Slice>>)
    requires NUL !in s && buf[..] == s + [NUL]
    modifies buf
    ensures r.None? <==> ParseCmd(s).Err?
    ensures r.Some? ==> ParseCmd(s) == Ok(AsStrings(buf[..], r.value), "")
  {
    hide ParseLine, Skip;
    var p := new Parser(s);
    assert s[0..] == s;
    var c := p.ParseLineCmd();
    if c.None? {
      return None;
    }
    var b := p.PeekTok({});
    if p.pos != |s| {
      assert |s[p.pos..]| > 0;
      return None;
    }
    assert s[p.pos..] == "";
    Nulterminate(buf, c.value, s);
    CutReads(s, buf[..], c.value);
    return c;
  }
}
