/**
  The shell's command parser. The functions say what a line means: they read tokens off the front
  of a string and give back a command tree and the rest. ShellParser holds the parser itself,
  which moves a cursor over a buffer.
 */
module Shell {

  const MAXARGS := 10

  const O_RDONLY := 0x000
  const O_WRONLY := 0x001
  const O_CREATE := 0x200
  const O_TRUNC := 0x400

  /** A command whose words are of type W. */
  datatype Cmd<W> =
    | Exec(argv: seq<W>)
    | Redir(cmd: Cmd<W>, file: W, mode: nat, fd: nat)
    | Pipe(left: Cmd<W>, right: Cmd<W>)
    | List(left: Cmd<W>, right: Cmd<W>)
    | Back(cmd: Cmd<W>)

  // ---------------------------------------------------------------- tokens

  /** The characters " \t\r\n\v" */
  predicate IsSpace(c: char)
  {
    c == ' ' || c == '\t' || c == '\r' || c == '\n' || c == '\U{0B}'
  }

  /** The characters "<|>&;()" */
  predicate IsSymbol(c: char)
  {
    c == '<' || c == '|' || c == '>' || c == '&' || c == ';' || c == '(' || c == ')'
  }

  predicate IsWordChar(c: char)
  {
    !IsSpace(c) && !IsSymbol(c)
  }

  datatype Kind = Eof | Sym(c: char) | Append | Word

  function Skip(u: string): (v: string)
    ensures |v| <= |u| && (|v| > 0 ==> !IsSpace(v[0]))
  {
    if |u| > 0 && IsSpace(u[0]) then Skip(u[1..]) else u
  }

  function WordLen(u: string): (n: nat)
    ensures n <= |u| && (forall k :: 0 <= k < n ==> IsWordChar(u[k])) && (n < |u| ==> !IsWordChar(u[n]))
  {
    if |u| > 0 && IsWordChar(u[0]) then 1 + WordLen(u[1..]) else 0
  }

  /** The token at the front of a string without leading spaces, and its length. */
  function FrontKind(v: string): (k: Kind)
  {
    if |v| == 0 then Eof
    else if v[0] == '>' then (if |v| > 1 && v[1] == '>' then Append else Sym('>'))
    else if IsSymbol(v[0]) then Sym(v[0])
    else Word
  }

  function FrontLen(v: string): (n: nat)
    requires |v| > 0 ==> !IsSpace(v[0])
    ensures n <= |v| && (FrontKind(v) != Eof ==> n > 0)
  {
    match FrontKind(v)
    case Eof => 0
    case Sym(_) => 1
    case Append => 2
    case Word => WordLen(v)
  }

  function KindOf(u: string): (k: Kind)
  {
    FrontKind(Skip(u))
  }

  function TokenLen(u: string): (n: nat)
    ensures n <= |Skip(u)| && (KindOf(u) != Eof ==> n > 0)
  {
    FrontLen(Skip(u))
  }

  function Text(u: string): (w: string)
  {
    Skip(u)[..TokenLen(u)]
  }

  function Rest(u: string): (v: string)
    ensures |v| <= |u| && (KindOf(u) != Eof ==> |v| < |u|)
  {
    Skip(Skip(u)[TokenLen(u)..])
  }

  /** peek: is the next character one of toks? */
  predicate Peek(u: string, toks: set<char>): (b: bool)
    ensures b ==> |Rest(u)| < |u|
  {
    |Skip(u)| > 0 && Skip(u)[0] in toks
  }

  // ---------------------------------------------------------------- the grammar

  datatype Res<T> = Ok(value: T, rest: string) | Err

  /** A redirection: the file, the open mode, the descriptor. */
  datatype Rd<W> = Rd(file: W, mode: nat, fd: nat)

  function Wrap<W>(c: Cmd<W>, rds: seq<Rd<W>>): (r: Cmd<W>)
    decreases |rds|
  {
    if rds == [] then c else Redir(Wrap(c, rds[..|rds| - 1]), rds[|rds| - 1].file, rds[|rds| - 1].mode, rds[|rds| - 1].fd)
  }

  function MakeRd<W>(k: Kind, file: W): (r: Rd<W>)
  {
    if k == Sym('<') then Rd(file, O_RDONLY, 0)
    else if k == Append then Rd(file, O_WRONLY + O_CREATE, 1)
    else Rd(file, O_WRONLY + O_CREATE + O_TRUNC, 1)
  }

  function Redirs(u: string): (r: Res<seq<Rd<string>>>)
    ensures r.Ok? ==> |r.rest| <= |u|
    decreases |u|
  {
    if !Peek(u, {'<', '>'}) then Ok([], Skip(u))
    else
      var v := Rest(u);
      if KindOf(v) != Word then Err
      else
        var r := Redirs(Rest(v));
        if r.Err? then Err else Ok([MakeRd(KindOf(u), Text(v))] + r.value, r.rest)
  }

  datatype Simple = Simple(argv: seq<string>, rds: seq<Rd<string>>)

  /** The arguments that follow n others, with redirections among them. */
  function Args(u: string, n: nat): (r: Res<Simple>)
    ensures r.Ok? ==> |r.rest| <= |u|
    decreases |u|
  {
    if Peek(u, {'|', ')', '&', ';'}) then Ok(Simple([], []), Skip(u))
    else if KindOf(u) == Eof then Ok(Simple([], []), Rest(u))
    else if KindOf(u) != Word || n + 1 >= MAXARGS then Err
    else
      var rd := Redirs(Rest(u));
      if rd.Err? then Err
      else
        var r := Args(rd.rest, n + 1);
        if r.Err? then Err else Ok(Simple([Text(u)] + r.value.argv, rd.value + r.value.rds), r.rest)
  }

  function ParseExec(u: string): (r: Res<Cmd<string>>)
    ensures r.Ok? ==> |r.rest| <= |u|
    decreases |u|, 0
  {
    if Peek(u, {'('}) then
      var body := ParseLine(Rest(u));
      if body.Err? || !Peek(body.rest, {')'}) then Err
      else
        var rd := Redirs(Rest(body.rest));
        if rd.Err? then Err else Ok(Wrap(body.value, rd.value), rd.rest)
    else
      var rd := Redirs(u);
      if rd.Err? then Err
      else
        var r := Args(rd.rest, 0);
        if r.Err? then Err else Ok(Wrap(Exec(r.value.argv), rd.value + r.value.rds), r.rest)
  }

  function ParsePipe(u: string): (r: Res<Cmd<string>>)
    ensures r.Ok? ==> |r.rest| <= |u|
    decreases |u|, 1
  {
    var l := ParseExec(u);
    if l.Err? || !Peek(l.rest, {'|'}) then (if l.Err? then Err else Ok(l.value, Skip(l.rest)))
    else
      var r := ParsePipe(Rest(l.rest));
      if r.Err? then Err else Ok(Pipe(l.value, r.value), r.rest)
  }

  /** How many '&' there are. */
  function Backs(u: string): (r: Res<nat>)
    ensures r.Ok? && |r.rest| <= |u|
    decreases |u|
  {
    if Peek(u, {'&'}) then
      var r := Backs(Rest(u));
      Ok(r.value + 1, r.rest)
    else Ok(0, Skip(u))
  }

  function Background<W>(c: Cmd<W>, n: nat): (r: Cmd<W>)
  {
    if n == 0 then c else Back(Background(c, n - 1))
  }

  function ParseLine(u: string): (r: Res<Cmd<string>>)
    ensures r.Ok? ==> |r.rest| <= |u|
    decreases |u|, 2
  {
    var l := ParsePipe(u);
    if l.Err? then Err
    else
      var b := Backs(l.rest);
      var c := Background(l.value, b.value);
      if !Peek(b.rest, {';'}) then Ok(c, Skip(b.rest))
      else
        var r := ParseLine(Rest(b.rest));
        if r.Err? then Err else Ok(List(c, r.value), r.rest)
  }

  /** parsecmd: a line with nothing left over. */
  function ParseCmd(s: string): (r: Res<Cmd<string>>)
  {
    var r := ParseLine(s);
    if r.Ok? && Skip(r.rest) == "" then Ok(r.value, "") else Err
  }

  // ---------------------------------------------------------------- printing

  predicate WordOk(w: string)
  {
    |w| > 0 && forall k :: 0 <= k < |w| ==> IsWordChar(w[k])
  }

  /** The trees the shell can run: at most nine words, and the three kinds of redirection. */
  predicate CmdOk(c: Cmd<string>)
  {
    match c
    case Exec(argv) => |argv| < MAXARGS && forall k :: 0 <= k < |argv| ==> WordOk(argv[k])
    case Redir(d, file, mode, fd) => CmdOk(d) && WordOk(file) && RdKind(mode, fd) != Eof
    case Pipe(l, r) => CmdOk(l) && CmdOk(r)
    case List(l, r) => CmdOk(l) && CmdOk(r)
    case Back(d) => CmdOk(d)
  }

  function RdKind(mode: nat, fd: nat): (k: Kind)
  {
    if mode == O_RDONLY && fd == 0 then Sym('<')
    else if mode == O_WRONLY + O_CREATE + O_TRUNC && fd == 1 then Sym('>')
    else if mode == O_WRONLY + O_CREATE && fd == 1 then Append
    else Eof
  }

  function PrintKind(k: Kind): (s: string)
  {
    match k
    case Sym(c) => [c]
    case Append => ">>"
    case _ => ""
  }

  function PrintWords(ws: seq<string>): (s: string)
  {
    if ws == [] then "" else ws[0] + " " + PrintWords(ws[1..])
  }

  /** Fully parenthesised. */
  function Print(c: Cmd<string>): (s: string)
    decreases c, 0
  {
    match c
    case Exec(argv) => PrintWords(argv)
    case Redir(d, file, mode, fd) => Block(d) + (PrintKind(RdKind(mode, fd)) + file)
    case Pipe(l, r) => Block(l) + ("|" + Block(r))
    case List(l, r) => Block(l) + (";" + Block(r))
    case Back(d) => Block(d) + "&"
  }

  function Block(c: Cmd<string>): (s: string)
    decreases c, 1
  {
    "(" + (Print(c) + ")")
  }

  // ---------------------------------------------------------------- reading back what was printed

  function Size<W>(c: Cmd<W>): (n: nat)
  {
    match c
    case Exec(_) => 0
    case Redir(d, _, _, _) => Size(d) + 1
    case Pipe(l, r) => Size(l) + Size(r) + 1
    case List(l, r) => Size(l) + Size(r) + 1
    case Back(d) => Size(d) + 1
  }

  /** What may follow a printed command: nothing, or the parenthesis that closes it. */
  predicate Stops(u: string)
  {
    |u| == 0 || u[0] == ')'
  }

  lemma {:induction false} NoSpace(u: string)
    requires |u| == 0 || !IsSpace(u[0])
    ensures Skip(u) == u
  {
  }

  /** A string that does not begin with a space shows its first character to peek. */
  lemma {:induction false} PeekFirst(u: string, toks: set<char>)
    requires |u| == 0 || !IsSpace(u[0])
    ensures Skip(u) == u && (Peek(u, toks) <==> |u| > 0 && u[0] in toks)
  {
    NoSpace(u);
  }

  lemma {:induction false} SymToken(c: char, u: string)
    requires IsSymbol(c) && c != '>'
    ensures Skip([c] + u) == [c] + u && KindOf([c] + u) == Sym(c) && Rest([c] + u) == Skip(u)
  {
    hide Skip, WordLen;
    NoSpace([c] + u);
    assert ([c] + u)[1..] == u;
  }

  lemma {:induction false} GtToken(u: string)
    requires |u| == 0 || u[0] != '>'
    ensures Skip(">" + u) == ">" + u && KindOf(">" + u) == Sym('>') && Rest(">" + u) == Skip(u)
  {
    hide Skip, WordLen;
    var v := ">" + u;
    NoSpace(v);
    assert |v| > 1 ==> v[1] == u[0];
    assert KindOf(v) == Sym('>') && TokenLen(v) == 1;
    hide KindOf, TokenLen;
    assert v[1..] == u;
  }

  lemma {:induction false} AppendToken(u: string)
    ensures Skip(">>" + u) == ">>" + u && KindOf(">>" + u) == Append && Rest(">>" + u) == Skip(u)
  {
    hide Skip, WordLen;
    NoSpace(">>" + u);
    assert (">>" + u)[2..] == u;
  }

  lemma {:induction false} WordLenIs(w: string, u: string)
    requires (forall k :: 0 <= k < |w| ==> IsWordChar(w[k])) && (|u| == 0 || !IsWordChar(u[0]))
    ensures WordLen(w + u) == |w|
  {
    hide IsWordChar;
    assert forall k :: 0 <= k < |w| ==> (w + u)[k] == w[k];
    assert |u| > 0 ==> (w + u)[|w|] == u[0];
  }

  lemma {:induction false} WordToken(w: string, u: string)
    requires WordOk(w) && (|u| == 0 || !IsWordChar(u[0]))
    ensures Skip(w + u) == w + u && KindOf(w + u) == Word && Text(w + u) == w && Rest(w + u) == Skip(u)
  {
    hide Skip, WordLen;
    NoSpace(w + u);
    WordLenIs(w, u);
    assert (w + u)[..|w|] == w && (w + u)[|w|..] == u;
  }

  /** Where nothing is to be redirected. */
  lemma {:induction false} NoRedirs(u: string)
    requires |u| == 0 || (!IsSpace(u[0]) && u[0] != '<' && u[0] != '>')
    ensures Redirs(u) == Ok([], u)
  {
    hide Skip, KindOf, Rest, Text, Peek, IsSpace;
    PeekFirst(u, {'<', '>'});
  }

  /** One more argument, and no redirection after it. */
  lemma {:induction false} ArgsStep(w: string, more: string, n: nat)
    requires WordOk(w) && n + 1 < MAXARGS && (|more| == 0 || (!IsSpace(more[0]) && more[0] != '<' && more[0] != '>'))
    ensures Args(w + (" " + more), n) ==
            var r := Args(more, n + 1); if r.Err? then Err else Ok(Simple([w] + r.value.argv, r.value.rds), r.rest)
  {
    hide Skip, KindOf, Rest, Text, Peek, Redirs;
    var u := w + (" " + more);
    WordToken(w, " " + more);
    assert u[0] == w[0];
    PeekFirst(u, {'|', ')', '&', ';'});
    SkipOne(more);
    NoRedirs(more);
    hide IsSpace, IsSymbol, WordOk;
    var none: seq<Rd<string>> := [];
    assert forall x: seq<Rd<string>> :: none + x == x;
  }

  lemma {:induction false} SkipOne(more: string)
    requires |more| == 0 || !IsSpace(more[0])
    ensures Skip(" " + more) == more
  {
    assert (" " + more)[1..] == more;
    NoSpace(more);
  }

  lemma {:induction false} ArgsEnd(rest: string, n: nat)
    requires Stops(rest)
    ensures Args(rest, n) == Ok(Simple([], []), rest)
  {
    if |rest| == 0 {
      assert KindOf("") == Eof && Rest("") == "";
    }
    hide Skip, KindOf, Rest, Text, Peek, Redirs;
    PeekFirst(rest, {'|', ')', '&', ';'});
  }

  /** A printed list of words begins with a word, or not at all. */
  predicate StartsPlain(u: string)
  {
    |u| == 0 || IsWordChar(u[0]) || u[0] == ')'
  }

  lemma {:induction false} ArgsRoundTrip(ws: seq<string>, n: nat, rest: string)
    requires n + |ws| < MAXARGS && (forall k :: 0 <= k < |ws| ==> WordOk(ws[k])) && Stops(rest)
    ensures Args(PrintWords(ws) + rest, n) == Ok(Simple(ws, []), rest)
    ensures StartsPlain(PrintWords(ws) + rest)
    decreases |ws|
  {
    hide Args, Redirs, IsSpace, IsSymbol;
    if ws == [] {
      assert PrintWords(ws) + rest == rest;
      ArgsEnd(rest, n);
    } else {
      var w, more := ws[0], PrintWords(ws[1..]) + rest;
      assert WordOk(ws[0]);
      ArgsRoundTrip(ws[1..], n + 1, rest);
      assert PrintWords(ws) + rest == w + (" " + more);
      PlainStart(more);
      ArgsStep(w, more, n);
      assert [w] + ws[1..] == ws;
      assert (w + (" " + more))[0] == w[0];
    }
  }

  lemma {:induction false} PlainStart(u: string)
    requires StartsPlain(u)
    ensures |u| == 0 || (!IsSpace(u[0]) && u[0] != '<' && u[0] != '>' && u[0] != '(')
  {
  }

  lemma {:induction false} ExecRoundTrip(ws: seq<string>, rest: string)
    requires CmdOk(Exec(ws)) && Stops(rest)
    ensures ParseExec(PrintWords(ws) + rest) == Ok(Exec(ws), rest)
  {
    hide Skip, KindOf, Rest, Text, Peek, IsSpace, Redirs, Args, PrintWords, ParseLine, StartsPlain;
    var u := PrintWords(ws) + rest;
    ArgsRoundTrip(ws, 0, rest);
    PlainStart(u);
    PeekFirst(u, {'('});
    NoRedirs(u);
    var none: seq<Rd<string>> := [];
    assert none + none == none;
  }

  /** A printed command does not begin with a space. */
  lemma {:induction false} PrintStart(c: Cmd<string>, rest: string)
    requires CmdOk(c) && Stops(rest)
    ensures Skip(Print(c) + rest) == Print(c) + rest
  {
    hide Skip;
    if c.Exec? {
      ArgsRoundTrip(c.argv, 0, rest);
      PlainStart(Print(c) + rest);
    } else {
      assert (Print(c) + rest)[0] == '(';
    }
    NoSpace(Print(c) + rest);
  }

  /** parseblock on a parenthesised line; what follows it may redirect it. */
  lemma {:induction false} BlockStep(inner: string, c: Cmd<string>, tail: string)
    requires Skip(inner) == inner && ParseLine(inner) == Ok(c, ")" + tail)
    ensures Skip("(" + inner) == "(" + inner
    ensures
      var rd := Redirs(Skip(tail));
      ParseExec("(" + inner) == if rd.Err? then Err else Ok(Wrap(c, rd.value), rd.rest)
  {
    hide Skip, KindOf, Rest, Text, Peek, Redirs, Args, ParseLine;
    SymToken('(', inner);
    SymToken(')', tail);
    PeekFirst("(" + inner, {'('});
    PeekFirst(")" + tail, {')'});
  }

  lemma {:induction false} BlockRoundTrip(c: Cmd<string>, tail: string)
    requires CmdOk(c)
    ensures Skip(Block(c) + tail) == Block(c) + tail
    ensures
      var rd := Redirs(Skip(tail));
      ParseExec(Block(c) + tail) == if rd.Err? then Err else Ok(Wrap(c, rd.value), rd.rest)
    decreases Size(c), 2
  {
    hide Skip, Redirs, ParseExec, ParseLine, Print, CmdOk;
    var inner := Print(c) + (")" + tail);
    assert Block(c) + tail == "(" + inner;
    PrintStart(c, ")" + tail);
    LineRoundTrip(c, ")" + tail);
    BlockStep(inner, c, tail);
  }

  /** Nothing more to do after an element. */
  lemma {:induction false} NoPipe(u: string, c: Cmd<string>, tail: string)
    requires ParseExec(u) == Ok(c, tail) && (|tail| == 0 || (!IsSpace(tail[0]) && tail[0] != '|'))
    ensures ParsePipe(u) == Ok(c, tail)
  {
    hide Skip, KindOf, Rest, Text, Peek, IsSpace, ParseExec;
    PeekFirst(tail, {'|'});
  }

  /** A block that nothing redirects. */
  lemma {:induction false} BlockAlone(c: Cmd<string>, tail: string)
    requires CmdOk(c) && (|tail| == 0 || tail[0] == ')' || tail[0] == '|' || tail[0] == '&' || tail[0] == ';')
    ensures ParseExec(Block(c) + tail) == Ok(c, tail)
    ensures |tail| == 0 || tail[0] != '|' ==> ParsePipe(Block(c) + tail) == Ok(c, tail)
    decreases Size(c), 3
  {
    NoSpace(tail);
    NoRedirs(tail);
    BlockRoundTrip(c, tail);
    hide Skip, Redirs, ParseExec, ParsePipe, Block, CmdOk;
    if |tail| == 0 || tail[0] != '|' {
      NoPipe(Block(c) + tail, c, tail);
    }
  }

  lemma {:induction false} NoBacks(u: string)
    requires |u| == 0 || (!IsSpace(u[0]) && u[0] != '&')
    ensures Backs(u) == Ok(0, u)
  {
    hide Skip, KindOf, Rest, Text, Peek, IsSpace;
    PeekFirst(u, {'&'});
  }

  /** A pipeline that nothing follows is a line. */
  lemma {:induction false} PipeIsLine(u: string, c: Cmd<string>, rest: string)
    requires ParsePipe(u) == Ok(c, rest) && Stops(rest)
    ensures ParseLine(u) == Ok(c, rest)
  {
    hide Skip, KindOf, Rest, Text, Peek, ParsePipe, Backs;
    NoBacks(rest);
    PeekFirst(rest, {';'});
  }

  lemma {:induction false} PipeStep(u: string, l: Cmd<string>, v: string, r: Cmd<string>, rest: string)
    requires ParseExec(u) == Ok(l, "|" + v) && Skip(v) == v && ParsePipe(v) == Ok(r, rest)
    ensures ParsePipe(u) == Ok(Pipe(l, r), rest)
  {
    hide Skip, KindOf, Rest, Text, Peek, ParseExec;
    SymToken('|', v);
    PeekFirst("|" + v, {'|'});
  }

  lemma {:induction false} ListStep(u: string, l: Cmd<string>, v: string, r: Cmd<string>, rest: string)
    requires ParsePipe(u) == Ok(l, ";" + v) && Skip(v) == v && ParseLine(v) == Ok(r, rest)
    ensures ParseLine(u) == Ok(List(l, r), rest)
  {
    hide Skip, KindOf, Rest, Text, Peek, ParsePipe, Backs;
    SymToken(';', v);
    PeekFirst(";" + v, {';'});
    NoBacks(";" + v);
  }

  lemma {:induction false} OneBack(rest: string)
    requires Stops(rest)
    ensures Backs("&" + rest) == Ok(1, rest)
  {
    hide Skip, KindOf, Rest, Text, Peek;
    SymToken('&', rest);
    PeekFirst("&" + rest, {'&'});
    NoSpace(rest);
    NoBacks(rest);
  }

  lemma {:induction false} BackStep(u: string, c: Cmd<string>, rest: string)
    requires ParsePipe(u) == Ok(c, "&" + rest) && Stops(rest)
    ensures ParseLine(u) == Ok(Back(c), rest)
  {
    hide Skip, KindOf, Rest, Text, Peek, ParsePipe, Backs;
    OneBack(rest);
    PeekFirst(rest, {';'});
    assert Background(c, 1) == Back(c);
  }

  /** Parsing the fully parenthesised printing of a tree gives back the tree. */
  lemma {:induction false} LineRoundTrip(c: Cmd<string>, rest: string)
    requires CmdOk(c) && Stops(rest)
    ensures ParseLine(Print(c) + rest) == Ok(c, rest)
    decreases Size(c), 1
  {
    hide Skip, Redirs, ParseExec, ParsePipe, ParseLine, Block;
    match c
    case Exec(argv) =>
      ExecRoundTrip(argv, rest);
      NoPipe(Print(c) + rest, c, rest);
      PipeIsLine(Print(c) + rest, c, rest);
    case Redir(d, file, mode, fd) => RedirRoundTrip(d, file, mode, fd, rest);
    case Pipe(l, r) => PipeRoundTrip(l, r, rest);
    case List(l, r) => ListRoundTrip(l, r, rest);
    case Back(d) =>
      Regroup(Block(d), "&", "", rest);
      BlockAlone(d, "&" + rest);
      BackStep(Print(c) + rest, d, rest);
  }

  lemma {:induction false} Regroup(a: string, b: string, c: string, d: string)
    ensures (a + (b + c)) + d == a + (b + (c + d))
    ensures c == "" ==> (a + b) + d == a + (b + d)
  {
  }

  lemma {:induction false} PipeRoundTrip(l: Cmd<string>, r: Cmd<string>, rest: string)
    requires CmdOk(l) && CmdOk(r) && Stops(rest)
    ensures ParseLine(Print(Pipe(l, r)) + rest) == Ok(Pipe(l, r), rest)
    decreases Size(l) + Size(r) + 1, 0
  {
    hide Skip, Redirs, ParseExec, ParsePipe, ParseLine, Block, CmdOk;
    var v := Block(r) + rest;
    BlockAlone(l, "|" + v);
    BlockAlone(r, rest);
    BlockRoundTrip(r, rest);
    Regroup(Block(l), "|", Block(r), rest);
    PipeStep(Block(l) + ("|" + v), l, v, r, rest);
    PipeIsLine(Block(l) + ("|" + v), Pipe(l, r), rest);
  }

  lemma {:induction false} ListRoundTrip(l: Cmd<string>, r: Cmd<string>, rest: string)
    requires CmdOk(l) && CmdOk(r) && Stops(rest)
    ensures ParseLine(Print(List(l, r)) + rest) == Ok(List(l, r), rest)
    decreases Size(l) + Size(r) + 1, 0
  {
    hide Skip, Redirs, ParseExec, ParsePipe, ParseLine, Block, CmdOk;
    var v := Block(r) + rest;
    BlockAlone(l, ";" + v);
    BlockAlone(r, rest);
    BlockRoundTrip(r, rest);
    Regroup(Block(l), ";", Block(r), rest);
    PipeIsLine(v, r, rest);
    ListStep(Block(l) + (";" + v), l, v, r, rest);
  }

  /** A redirection as it is printed. */
  lemma {:induction false} RedirToken(k: Kind, file: string, rest: string)
    requires WordOk(file) && Stops(rest) && (k == Sym('<') || k == Sym('>') || k == Append)
    ensures Redirs(PrintKind(k) + (file + rest)) == Ok([MakeRd(k, file)], rest)
    ensures Skip(PrintKind(k) + (file + rest)) == PrintKind(k) + (file + rest)
  {
    hide Skip, KindOf, Rest, Text, Peek;
    var tail := PrintKind(k) + (file + rest);
    WordToken(file, rest);
    NoSpace(file + rest);
    NoSpace(rest);
    NoRedirs(rest);
    if k == Sym('<') {
      SymToken('<', file + rest);
    } else if k == Append {
      AppendToken(file + rest);
    } else {
      GtToken(file + rest);
    }
    PeekFirst(tail, {'<', '>'});
    hide IsSpace, IsSymbol, WordOk;
    assert [MakeRd(k, file)] + [] == [MakeRd(k, file)];
  }

  lemma {:induction false} RedirRoundTrip(d: Cmd<string>, file: string, mode: nat, fd: nat, rest: string)
    requires CmdOk(Redir(d, file, mode, fd)) && Stops(rest)
    ensures ParseLine(Print(Redir(d, file, mode, fd)) + rest) == Ok(Redir(d, file, mode, fd), rest)
    decreases Size(d), 4
  {
    hide Skip, Redirs, ParseExec, ParsePipe, ParseLine, Block, WordOk;
    var c, k := Redir(d, file, mode, fd), RdKind(mode, fd);
    var tail := PrintKind(k) + (file + rest);
    assert Print(c) + rest == Block(d) + tail;
    RedirToken(k, file, rest);
    BlockRoundTrip(d, tail);
    WrapOne(d, MakeRd(k, file));
    NoPipe(Print(c) + rest, c, rest);
    PipeIsLine(Print(c) + rest, c, rest);
  }

  lemma {:induction false} WrapOne<W>(c: Cmd<W>, rd: Rd<W>)
    ensures Wrap(c, [rd]) == Redir(c, rd.file, rd.mode, rd.fd)
  {
    assert [rd][..0] == [];
  }

  /** parsecmd undoes printing, for every command tree the shell can run. */
  lemma {:induction false} RoundTrip(c: Cmd<string>)
    requires CmdOk(c)
    ensures ParseCmd(Print(c)) == Ok(c, "")
  {
    LineRoundTrip(c, "");
    assert Print(c) + "" == Print(c);
  }
}
