/**
  The shell's lines as their users write them: simple commands with redirections before and among
  the words, groups in parentheses with redirections after, pipelines, '&' and ';', in any
  spacing. The parser reads every such line as the tree it means, and reads no other line.
 */
module ShellSyntax {
  import opened Shell

  // ---------------------------------------------------------------- written lines

  datatype Tok = Mark(c: char) | Twice | Name(w: string)

  /** A word of a simple command, or a redirection: "<", ">" or ">>" and a file. */
  datatype Item = Arg(w: string) | From(file: string) | To(file: string) | Add(file: string)

  datatype Elem = Plain(items: seq<Item>) | Group(line: Line, rds: seq<Item>)

  datatype Pipes = One(e: Elem) | Bar(e: Elem, more: Pipes)

  /** A pipeline, how many '&' follow it, and what follows a ';'. */
  datatype Line = Last(p: Pipes, backs: nat) | Semi(p: Pipes, backs: nat, more: Line)

  function ItemToks(i: Item): (t: seq<Tok>)
  {
    match i
    case Arg(w) => [Name(w)]
    case From(f) => [Mark('<'), Name(f)]
    case To(f) => [Mark('>'), Name(f)]
    case Add(f) => [Twice, Name(f)]
  }

  function ItemsToks(items: seq<Item>): (t: seq<Tok>)
  {
    if items == [] then [] else ItemToks(items[0]) + ItemsToks(items[1..])
  }

  function ElemToks(e: Elem): (t: seq<Tok>)
    decreases e, 0
  {
    match e
    case Plain(items) => ItemsToks(items)
    case Group(l, rds) => [Mark('(')] + (LineToks(l) + ([Mark(')')] + ItemsToks(rds)))
  }

  function PipesToks(p: Pipes): (t: seq<Tok>)
    decreases p, 0
  {
    match p
    case One(e) => ElemToks(e)
    case Bar(e, more) => ElemToks(e) + ([Mark('|')] + PipesToks(more))
  }

  function BackToks(n: nat): (t: seq<Tok>)
  {
    if n == 0 then [] else [Mark('&')] + BackToks(n - 1)
  }

  function LineToks(l: Line): (t: seq<Tok>)
    decreases l, 0
  {
    match l
    case Last(p, n) => PipesToks(p) + BackToks(n)
    case Semi(p, n, more) => PipesToks(p) + (BackToks(n) + ([Mark(';')] + LineToks(more)))
  }

  function Words(items: seq<Item>): (ws: seq<string>)
  {
    if items == [] then [] else (if items[0].Arg? then [items[0].w] else []) + Words(items[1..])
  }

  predicate ItemOk(i: Item)
  {
    match i
    case Arg(w) => WordOk(w)
    case From(f) => WordOk(f)
    case To(f) => WordOk(f)
    case Add(f) => WordOk(f)
  }

  predicate ItemsOk(items: seq<Item>)
  {
    forall k :: 0 <= k < |items| ==> ItemOk(items[k])
  }

  predicate NoWords(items: seq<Item>)
  {
    forall k :: 0 <= k < |items| ==> !items[k].Arg?
  }

  /** A simple command has at most nine words, and only redirections follow a group. */
  predicate ElemOk(e: Elem)
    decreases e, 0
  {
    match e
    case Plain(items) => ItemsOk(items) && |Words(items)| < MAXARGS
    case Group(l, rds) => LineOk(l) && ItemsOk(rds) && NoWords(rds)
  }

  predicate PipesOk(p: Pipes)
    decreases p, 0
  {
    match p
    case One(e) => ElemOk(e)
    case Bar(e, more) => ElemOk(e) && PipesOk(more)
  }

  predicate LineOk(l: Line)
    decreases l, 0
  {
    match l
    case Last(p, _) => PipesOk(p)
    case Semi(p, _, more) => PipesOk(p) && LineOk(more)
  }

  // ---------------------------------------------------------------- what they mean

  /** Each redirection in turn is put around the command: reading from the file, creating and truncating it, or creating it and not truncating. */
  function Redirected(c: Cmd<string>, items: seq<Item>): (r: Cmd<string>)
    decreases |items|
  {
    if items == [] then c
    else
      var i := items[0];
      var d := match i
        case Arg(_) => c
        case From(f) => Redir(c, f, 0, 0)
        case To(f) => Redir(c, f, 0x601, 1)
        case Add(f) => Redir(c, f, 0x201, 1);
      Redirected(d, items[1..])
  }

  function ElemMeans(e: Elem): (c: Cmd<string>)
    decreases e, 0
  {
    match e
    case Plain(items) => Redirected(Exec(Words(items)), items)
    case Group(l, rds) => Redirected(LineMeans(l), rds)
  }

  function PipesMeans(p: Pipes): (c: Cmd<string>)
    decreases p, 0
  {
    match p
    case One(e) => ElemMeans(e)
    case Bar(e, more) => Shell.Pipe(ElemMeans(e), PipesMeans(more))
  }

  function Backed(c: Cmd<string>, n: nat): (r: Cmd<string>)
    decreases n
  {
    if n == 0 then c else Backed(Back(c), n - 1)
  }

  function LineMeans(l: Line): (c: Cmd<string>)
    decreases l, 0
  {
    match l
    case Last(p, n) => Backed(PipesMeans(p), n)
    case Semi(p, n, more) => Shell.List(Backed(PipesMeans(p), n), LineMeans(more))
  }

  // ---------------------------------------------------------------- spelling

  function TokText(t: Tok): (s: string)
  {
    match t
    case Mark(c) => [c]
    case Twice => ">>"
    case Name(w) => w
  }

  predicate TokOk(t: Tok)
  {
    match t
    case Mark(c) => IsSymbol(c)
    case Twice => true
    case Name(w) => WordOk(w)
  }

  function TokKind(t: Tok): (k: Kind)
  {
    match t
    case Mark(c) => Sym(c)
    case Twice => Append
    case Name(_) => Word
  }

  predicate Spaces(g: string)
  {
    forall k :: 0 <= k < |g| ==> IsSpace(g[k])
  }

  /** The characters that part words: five spaces and seven symbols. */
  lemma {:induction false} Characters(c: char)
    ensures IsSpace(c) <==> c in {' ', '\t', '\r', '\n', 11 as char}
    ensures IsSymbol(c) <==> c in {'<', '|', '>', '&', ';', '(', ')'}
  {
  }

  /** u is token t, then spaces, then v; a word ends there, and a single '>' stays single. */
  predicate Glued(u: string, t: Tok, gap: string, v: string)
  {
    && u == TokText(t) + (gap + v) && Spaces(gap) && TokOk(t)
    && (t.Name? ==> |gap + v| == 0 || !IsWordChar((gap + v)[0]))
    && (t == Mark('>') ==> |gap + v| == 0 || (gap + v)[0] != '>')
  }

  /** u is the tokens toks with any spaces after each, and then v. */
  ghost predicate Spells(u: string, toks: seq<Tok>, v: string)
    decreases |toks|
  {
    if toks == [] then u == v
    else exists gap, m :: Glued(u, toks[0], gap, m) && Begins(m) && Spells(m, toks[1..], v)
  }

  /** No space at the beginning. */
  predicate Begins(u: string)
  {
    |u| == 0 || !IsSpace(u[0])
  }

  lemma {:induction false} SkipGap(gap: string, v: string)
    requires Spaces(gap) && Begins(v)
    ensures Skip(gap + v) == v
  {
    if gap == "" {
      assert gap + v == v;
      NoSpace(v);
    } else {
      SkipGap(gap[1..], v);
      assert (gap + v)[1..] == gap[1..] + v;
    }
  }

  /** The lexer on a spelled token. */
  lemma {:induction false} Lexed(u: string, t: Tok, gap: string, v: string)
    requires Glued(u, t, gap, v) && Begins(v)
    ensures Begins(u) && Skip(u) == u && KindOf(u) == TokKind(t) && Rest(u) == v && |u| > 0 && u[0] == TokText(t)[0]
    ensures t.Name? ==> Text(u) == t.w
  {
    hide Skip, KindOf, Rest, Text, IsSymbol;
    SkipGap(gap, v);
    match t
    case Mark(c) =>
      if c == '>' {
        GtToken(gap + v);
      } else {
        SymToken(c, gap + v);
      }
      MarkNoSpace(c);
    case Twice => AppendToken(gap + v);
    case Name(w) =>
      WordToken(w, gap + v);
      assert u[0] == w[0];
  }

  lemma {:induction false} MarkNoSpace(c: char)
    requires IsSymbol(c)
    ensures !IsSpace(c)
  {
  }

  /** And backwards: what the lexer takes off the front is a spelled token. */
  lemma {:induction false} Unlexed(u: string) returns (t: Tok, gap: string)
    requires KindOf(u) != Eof
    ensures TokKind(t) == KindOf(u) && Glued(Skip(u), t, gap, Rest(u)) && Begins(Rest(u)) && (t.Name? ==> t.w == Text(u))
  {
    var v := Skip(u);
    var w := v[TokenLen(u)..];
    gap := Gap(w);
    t := match KindOf(u) case Sym(c) => Mark(c) case Append => Twice case _ => Name(Text(u));
    FrontToken(v);
    hide Skip;
    assert gap + Rest(u) == w;
  }

  lemma {:induction false} FrontToken(v: string)
    requires Begins(v) && FrontKind(v) != Eof
    ensures var w := v[FrontLen(v)..];
      match FrontKind(v)
      case Sym(c) => v == [c] + w && IsSymbol(c) && (c == '>' ==> |w| == 0 || w[0] != '>')
      case Append => v == ">>" + w
      case Eof => true
      case Word => v == v[..FrontLen(v)] + w && WordOk(v[..FrontLen(v)]) && (|w| == 0 || !IsWordChar(w[0]))
  {
  }

  /** The spaces at the front of a string. */
  lemma {:induction false} Gap(w: string) returns (gap: string)
    ensures Spaces(gap) && w == gap + Skip(w) && Begins(Skip(w))
  {
    if |w| > 0 && IsSpace(w[0]) {
      gap := Gap(w[1..]);
      gap := [w[0]] + gap;
    } else {
      gap := "";
    }
  }

  lemma {:induction false} SpellsJoin(u: string, a: seq<Tok>, m: string, b: seq<Tok>, v: string)
    requires Spells(u, a, m) && Spells(m, b, v)
    ensures Spells(u, a + b, v)
    decreases |a|
  {
    hide Glued, Begins;
    if a == [] {
      assert a + b == b;
    } else {
      var gap, x :| Glued(u, a[0], gap, x) && Begins(x) && Spells(x, a[1..], m);
      SpellsJoin(x, a[1..], m, b, v);
      assert (a + b)[1..] == a[1..] + b && (a + b)[0] == a[0];
    }
  }

  lemma {:induction false} SpellsSplit(u: string, a: seq<Tok>, b: seq<Tok>, v: string) returns (m: string)
    requires Spells(u, a + b, v) && Begins(v)
    ensures Spells(u, a, m) && Spells(m, b, v) && Begins(m)
    decreases |a|
  {
    hide Glued;
    if a == [] {
      assert a + b == b;
      m := u;
      if b != [] {
        var t, w := SpellsHead(u, b, v);
      }
    } else {
      assert (a + b)[1..] == a[1..] + b && (a + b)[0] == a[0];
      var gap, x :| Glued(u, (a + b)[0], gap, x) && Begins(x) && Spells(x, (a + b)[1..], v);
      m := SpellsSplit(x, a[1..], b, v);
    }
  }

  /** The first token of what is spelled, as the lexer sees it. */
  lemma {:induction false} SpellsHead(u: string, toks: seq<Tok>, v: string) returns (t: Tok, m: string)
    requires Spells(u, toks, v) && toks != []
    ensures t == toks[0] && Begins(u) && Skip(u) == u && KindOf(u) == TokKind(t) && Rest(u) == m && |u| > 0 && u[0] == TokText(t)[0]
    ensures (t.Name? ==> Text(u) == t.w) && Begins(m) && Spells(m, toks[1..], v) && TokOk(t)
  {
    hide KindOf, Rest, Text, Skip;
    var gap, x :| Glued(u, toks[0], gap, x) && Begins(x) && Spells(x, toks[1..], v);
    Lexed(u, toks[0], gap, x);
    t, m := toks[0], x;
  }

  // ---------------------------------------------------------------- the parser reads what is written

  /** Redirections as the parser collects them. */
  function Rds(items: seq<Item>): (rds: seq<Rd<string>>)
  {
    if items == [] then []
    else
      var rest := Rds(items[1..]);
      match items[0]
      case Arg(_) => rest
      case From(f) => [Rd(f, O_RDONLY, 0)] + rest
      case To(f) => [Rd(f, O_WRONLY + O_CREATE + O_TRUNC, 1)] + rest
      case Add(f) => [Rd(f, O_WRONLY + O_CREATE, 1)] + rest
  }

  lemma {:induction false} WrapFirst(c: Cmd<string>, rd: Rd<string>, rds: seq<Rd<string>>)
    ensures Wrap(c, [rd] + rds) == Wrap(Redir(c, rd.file, rd.mode, rd.fd), rds)
    decreases |rds|
  {
    var all := [rd] + rds;
    if rds == [] {
      assert all == [rd];
      WrapOne(c, rd);
    } else {
      WrapFirst(c, rd, rds[..|rds| - 1]);
      assert all[..|all| - 1] == [rd] + rds[..|rds| - 1] && all[|all| - 1] == rds[|rds| - 1];
    }
  }

  /** Putting the collected redirections around a command is putting each around it in turn. */
  lemma {:induction false} WrapMeans(c: Cmd<string>, items: seq<Item>)
    ensures Wrap(c, Rds(items)) == Redirected(c, items)
    decreases |items|
  {
    if items != [] {
      var rest := Rds(items[1..]);
      match items[0]
      case Arg(_) => WrapMeans(c, items[1..]);
      case From(f) =>
        WrapFirst(c, Rd(f, O_RDONLY, 0), rest);
        WrapMeans(Redir(c, f, 0, 0), items[1..]);
      case To(f) =>
        WrapFirst(c, Rd(f, O_WRONLY + O_CREATE + O_TRUNC, 1), rest);
        WrapMeans(Redir(c, f, 0x601, 1), items[1..]);
      case Add(f) =>
        WrapFirst(c, Rd(f, O_WRONLY + O_CREATE, 1), rest);
        WrapMeans(Redir(c, f, 0x201, 1), items[1..]);
    }
  }

  /** What ends a simple command or a group. */
  predicate EndsElem(v: string)
  {
    |v| == 0 || v[0] == '|' || v[0] == ')' || v[0] == '&' || v[0] == ';'
  }

  predicate EndsPipes(v: string)
  {
    |v| == 0 || v[0] == ')' || v[0] == '&' || v[0] == ';'
  }

  lemma {:induction false} EndBegins(v: string)
    requires EndsElem(v)
    ensures Begins(v) && Skip(v) == v && (|v| == 0 || (v[0] != '<' && v[0] != '>' && v[0] != '('))
  {
    NoSpace(v);
  }

  /** How many redirections come before the first word. */
  function Leading(items: seq<Item>): (n: nat)
    ensures n <= |items| && NoWords(items[..n]) && (n < |items| ==> items[n].Arg?)
  {
    if items == [] || items[0].Arg? then 0
    else
      var n := 1 + Leading(items[1..]);
      assert items[..n] == [items[0]] + items[1..][..n - 1];
      n
  }

  lemma {:induction false} ReadRedirs(u: string, items: seq<Item>, v: string)
    requires ItemsOk(items) && Spells(u, ItemsToks(items), v) && EndsElem(v)
    ensures var n, r := Leading(items), Redirs(u);
      r.Ok? && r.value == Rds(items[..n]) && Spells(r.rest, ItemsToks(items[n..]), v) && Begins(r.rest)
    decreases |items|
  {
    hide Skip, KindOf, Rest, Text, Glued, Redirs;
    EndBegins(v);
    if items == [] {
      NoRedirs(u);
    } else {
      assert ItemOk(items[0]);
      assert ItemsToks(items) == ItemToks(items[0]) + ItemsToks(items[1..]);
      if items[0].Arg? {
        var t, m := SpellsHead(u, ItemsToks(items), v);
        WordStarts(items[0].w);
        NoRedirs(u);
        assert items[0..] == items;
      } else {
        ReadRedir(u, items, v);
      }
    }
  }

  lemma {:induction false} WordStarts(w: string)
    requires WordOk(w)
    ensures !IsSpace(w[0]) && w[0] != '<' && w[0] != '>' && w[0] != '(' && w[0] != '|' && w[0] != ')' && w[0] != '&' && w[0] != ';'
  {
  }

  lemma {:induction false} ReadRedir(u: string, items: seq<Item>, v: string)
    requires items != [] && !items[0].Arg? && ItemsOk(items) && Spells(u, ItemsToks(items), v) && EndsElem(v)
    ensures var n, r := Leading(items), Redirs(u);
      r.Ok? && r.value == Rds(items[..n]) && Spells(r.rest, ItemsToks(items[n..]), v) && Begins(r.rest)
    decreases |items|, 0
  {
    hide Skip, KindOf, Rest, Text, Glued, Spells, ItemsToks, Redirs, Rds;
    FirstToks(items);
    var t, m := SpellsHead(u, ItemsToks(items), v);
    var t2, m2 := SpellsHead(m, ItemsToks(items)[1..], v);
    assert ItemsToks(items)[1..][1..] == ItemsToks(items[1..]);
    assert ItemsOk(items[1..]);
    ReadRedirs(m2, items[1..], v);
    OneRedir(u, t, m, t2, m2);
    MarkedRd(items[0], t, t2);
    LeadingFirst(items);
  }

  lemma {:induction false} OneRedir(u: string, t: Tok, m: string, t2: Tok, m2: string)
    requires Skip(u) == u && |u| > 0 && (u[0] == '<' || u[0] == '>') && KindOf(u) == TokKind(t) && Rest(u) == m
    requires t2.Name? && KindOf(m) == Word && Text(m) == t2.w && Rest(m) == m2 && Redirs(m2).Ok?
    ensures Redirs(u) == Ok([MakeRd(TokKind(t), t2.w)] + Redirs(m2).value, Redirs(m2).rest)
  {
    hide Skip, KindOf, Rest, Text;
  }

  lemma {:induction false} MarkedRd(i: Item, t: Tok, t2: Tok)
    requires !i.Arg? && ItemToks(i) == [t, t2]
    ensures t2.Name? && Rds([i]) == [MakeRd(TokKind(t), t2.w)]
  {
    assert [i][1..] == [] && Rds([]) == [];
  }

  lemma {:induction false} LeadingFirst(items: seq<Item>)
    requires items != [] && !items[0].Arg?
    ensures var n, k := Leading(items), Leading(items[1..]);
      n == k + 1 && Rds(items[..n]) == Rds([items[0]]) + Rds(items[1..][..k]) && items[n..] == items[1..][k..]
  {
    hide Rds, Words;
    var n := Leading(items);
    WordsFirst(items[..n]);
    assert items[..n][1..] == items[1..][..n - 1];
  }

  lemma {:induction false} WordsJoin(a: seq<Item>, b: seq<Item>)
    ensures Words(a + b) == Words(a) + Words(b) && Rds(a + b) == Rds(a) + Rds(b)
    decreases |a|
  {
    hide Words, Rds;
    if a == [] {
      Nothing();
      assert a + b == b;
    } else {
      assert (a + b)[1..] == a[1..] + b && (a + b)[0] == a[0];
      WordsJoin(a[1..], b);
      WordsFirst(a);
      WordsFirst(a + b);
    }
  }

  lemma {:induction false} WordsFirst(items: seq<Item>)
    requires items != []
    ensures Words(items) == (if items[0].Arg? then [items[0].w] else []) + Words(items[1..])
    ensures Rds(items) == Rds([items[0]]) + Rds(items[1..])
  {
    var one := [items[0]];
    assert one[1..] == [] && Rds([]) == [];
  }

  lemma {:induction false} NoneIn(items: seq<Item>)
    requires NoWords(items)
    ensures Words(items) == []
    decreases |items|
  {
    if items != [] {
      assert !items[0].Arg?;
      assert forall k :: 0 <= k < |items| - 1 ==> items[1..][k] == items[k + 1];
      NoneIn(items[1..]);
    }
  }

  /** The words all come after the leading redirections. */
  lemma {:induction false} WordsLater(items: seq<Item>)
    ensures var k := Leading(items); Words(items) == Words(items[k..]) && Rds(items) == Rds(items[..k]) + Rds(items[k..])
  {
    var k := Leading(items);
    WordsJoin(items[..k], items[k..]);
    NoneIn(items[..k]);
    assert items[..k] + items[k..] == items;
  }

  lemma {:induction false} ArgsTurn(u: string, n: nat, rds: seq<Rd<string>>, m: string, r: Simple, v: string)
    requires Skip(u) == u && KindOf(u) == Word && !Peek(u, {'|', ')', '&', ';'}) && n + 1 < MAXARGS
    requires Redirs(Rest(u)) == Ok(rds, m) && Args(m, n + 1) == Ok(r, v)
    ensures Args(u, n) == Ok(Simple([Text(u)] + r.argv, rds + r.rds), v)
  {
    hide Skip, KindOf, Rest, Text, Peek, Redirs;
  }

  /** The words of a simple command, with redirections among them. */
  lemma {:induction false} ReadArgs(u: string, items: seq<Item>, n: nat, v: string)
    requires ItemsOk(items) && (items == [] || items[0].Arg?) && n + |Words(items)| < MAXARGS && Spells(u, ItemsToks(items), v) && EndsElem(v)
    ensures Args(u, n) == Ok(Simple(Words(items), Rds(items)), v)
    decreases |items|
  {
    hide Skip, KindOf, Rest, Text, Glued, Redirs, Args, Words, Rds, Spells;
    EndBegins(v);
    if items == [] {
      Nothing();
      SpellsNothing(u, v);
      ArgsOver(v, n);
    } else {
      var w, more := items[0].w, items[1..];
      assert ItemOk(items[0]) && ItemsOk(more);
      assert ItemsToks(items) == [Name(w)] + ItemsToks(more);
      var t, m := SpellsHead(u, ItemsToks(items), v);
      WordStarts(w);
      PeekFirst(u, {'|', ')', '&', ';'});
      ReadRedirs(m, more, v);
      var k := Leading(more);
      WordsLater(more);
      WordsFirst(items);
      ArgIsNone(w);
      assert items[0] == Arg(w) && Rds([items[0]]) + Rds(more) == Rds(more);
      ReadArgs(Redirs(m).rest, more[k..], n + 1, v);
      ArgsTurn(u, n, Rds(more[..k]), Redirs(m).rest, Simple(Words(more[k..]), Rds(more[k..])), v);
    }
  }

  lemma {:induction false} Nothing()
    ensures Words([]) == [] && Rds([]) == []
  {
  }

  lemma {:induction false} ArgIsNone(w: string)
    ensures Rds([Arg(w)]) == []
  {
  }

  lemma {:induction false} SpellsNothing(u: string, v: string)
    requires Spells(u, [], v)
    ensures u == v
  {
  }

  lemma {:induction false} ArgsOver(v: string, n: nat)
    requires EndsElem(v)
    ensures Args(v, n) == Ok(Simple([], []), v)
  {
    EndBegins(v);
    if |v| == 0 {
      assert KindOf("") == Eof && Rest("") == "";
    }
    hide Skip, KindOf, Rest, Text, Peek, Redirs;
    PeekFirst(v, {'|', ')', '&', ';'});
  }

  lemma {:induction false} ReadPlain(u: string, items: seq<Item>, v: string)
    requires ElemOk(Plain(items)) && Spells(u, ItemsToks(items), v) && EndsElem(v)
    ensures ParseExec(u) == Ok(ElemMeans(Plain(items)), v)
  {
    hide Skip, KindOf, Rest, Text, Glued, Redirs, Args, ParseLine, Words, Rds, Redirected, Spells;
    EndBegins(v);
    PlainBegins(u, items, v);
    PeekFirst(u, {'('});
    ReadRedirs(u, items, v);
    var k := Leading(items);
    WordsLater(items);
    ReadArgs(Redirs(u).rest, items[k..], 0, v);
    WrapMeans(Exec(Words(items)), items);
  }

  lemma {:induction false} PlainBegins(u: string, items: seq<Item>, v: string)
    requires ItemsOk(items) && Spells(u, ItemsToks(items), v) && EndsElem(v)
    ensures Begins(u) && (|u| == 0 || u[0] != '(')
  {
    hide Skip, KindOf, Rest, Text, Glued;
    EndBegins(v);
    if items != [] {
      assert ItemOk(items[0]);
      assert ItemsToks(items) == ItemToks(items[0]) + ItemsToks(items[1..]);
      var t, m := SpellsHead(u, ItemsToks(items), v);
      if items[0].Arg? {
        WordStarts(items[0].w);
      }
    }
  }

  lemma {:induction false} ReadGroup(u: string, l: Line, rds: seq<Item>, v: string)
    requires ElemOk(Group(l, rds)) && Spells(u, ElemToks(Group(l, rds)), v) && EndsElem(v)
    ensures ParseExec(u) == Ok(ElemMeans(Group(l, rds)), v)
    decreases Group(l, rds), 9
  {
    hide Skip, KindOf, Rest, Text, Glued, Redirs, Args, ParseLine, LineOk, LineMeans, LineToks;
    EndBegins(v);
    var toks := ElemToks(Group(l, rds));
    var close := [Mark(')')] + ItemsToks(rds);
    assert toks[1..] == LineToks(l) + close;
    var t, m := SpellsHead(u, toks, v);
    PeekFirst(u, {'('});
    var w := SpellsSplit(m, LineToks(l), close, v);
    var t2, m2 := SpellsHead(w, close, v);
    ReadLine(m, l, w);
    PeekFirst(w, {')'});
    assert close[1..] == ItemsToks(rds);
    ReadRedirs(m2, rds, v);
    AllLeading(rds);
    WrapMeans(LineMeans(l), rds);
  }

  lemma {:induction false} AllLeading(rds: seq<Item>)
    requires NoWords(rds)
    ensures Leading(rds) == |rds| && rds[..|rds|] == rds && rds[|rds|..] == []
  {
    var n := Leading(rds);
  }

  lemma {:induction false} ReadElem(u: string, e: Elem, v: string)
    requires ElemOk(e) && Spells(u, ElemToks(e), v) && EndsElem(v)
    ensures ParseExec(u) == Ok(ElemMeans(e), v)
    decreases e, 10
  {
    hide ParseExec, Spells, Redirected;
    match e
    case Plain(items) => ReadPlain(u, items, v);
    case Group(l, rds) => ReadGroup(u, l, rds, v);
  }

  lemma {:induction false} ReadPipes(u: string, p: Pipes, v: string)
    requires PipesOk(p) && Spells(u, PipesToks(p), v) && EndsPipes(v)
    ensures ParsePipe(u) == Ok(PipesMeans(p), v)
    decreases p, 11
  {
    hide Skip, KindOf, Rest, Text, Glued, ParseExec, ElemOk, ElemMeans, ElemToks;
    EndBegins(v);
    match p
    case One(e) =>
      ReadElem(u, e, v);
      PeekFirst(v, {'|'});
    case Bar(e, more) =>
      var tail := [Mark('|')] + PipesToks(more);
      var w := SpellsSplit(u, ElemToks(e), tail, v);
      var t, m := SpellsHead(w, tail, v);
      assert tail[1..] == PipesToks(more);
      ReadElem(u, e, w);
      PeekFirst(w, {'|'});
      ReadPipes(m, more, v);
  }

  lemma {:induction false} ReadBacks(u: string, n: nat, v: string)
    requires Spells(u, BackToks(n), v) && (|v| == 0 || v[0] == ')' || v[0] == ';')
    ensures Backs(u) == Ok(n, v) && EndsPipes(u)
    decreases n
  {
    hide Skip, KindOf, Rest, Text, Glued;
    EndBegins(v);
    if n == 0 {
      PeekFirst(v, {'&'});
    } else {
      var t, m := SpellsHead(u, BackToks(n), v);
      assert BackToks(n)[1..] == BackToks(n - 1);
      PeekFirst(u, {'&'});
      ReadBacks(m, n - 1, v);
    }
  }

  lemma {:induction false} BackedAgain(c: Cmd<string>, n: nat)
    ensures Backed(c, n) == Background(c, n)
    ensures Background(Back(c), n) == Back(Background(c, n))
    decreases n
  {
    if n > 0 {
      BackedAgain(Back(c), n - 1);
      BackedAgain(c, n - 1);
    }
  }

  /** The parser on a written line, up to what follows it. */
  lemma {:induction false} ReadLine(u: string, l: Line, v: string)
    requires LineOk(l) && Spells(u, LineToks(l), v) && Stops(v)
    ensures ParseLine(u) == Ok(LineMeans(l), v)
    decreases l, 12
  {
    hide Skip, KindOf, Rest, Text, Glued, ParsePipe, Backs, PipesOk, PipesMeans, PipesToks, BackToks;
    EndBegins(v);
    match l
    case Last(p, n) =>
      var w := SpellsSplit(u, PipesToks(p), BackToks(n), v);
      ReadBacks(w, n, v);
      ReadPipes(u, p, w);
      BackedAgain(PipesMeans(p), n);
      PeekFirst(v, {';'});
    case Semi(p, n, more) =>
      var last := [Mark(';')] + LineToks(more);
      var tail := BackToks(n) + last;
      var w := SpellsSplit(u, PipesToks(p), tail, v);
      var x := SpellsSplit(w, BackToks(n), last, v);
      var t, m := SpellsHead(x, last, v);
      assert last[1..] == LineToks(more);
      ReadBacks(w, n, x);
      ReadPipes(u, p, w);
      BackedAgain(PipesMeans(p), n);
      PeekFirst(x, {';'});
      ReadLine(m, more, v);
  }

  // ---------------------------------------------------------------- and nothing else

  lemma {:induction false} OneSpelled(u: string) returns (t: Tok)
    requires KindOf(u) != Eof
    ensures TokKind(t) == KindOf(u) && (t.Name? ==> t.w == Text(u) && WordOk(t.w)) && Begins(Rest(u)) && Spells(Skip(u), [t], Rest(u))
  {
    hide KindOf, Rest, Text, Skip;
    var gap;
    t, gap := Unlexed(u);
    assert [t][1..] == [] && Spells(Rest(u), [], Rest(u)) && Glued(Skip(u), [t][0], gap, Rest(u));
  }

  /** Redirections that parse are written. */
  lemma {:induction false} WrittenRedirs(u: string) returns (items: seq<Item>)
    requires Redirs(u).Ok?
    ensures ItemsOk(items) && NoWords(items) && Redirs(u).value == Rds(items) && Spells(Skip(u), ItemsToks(items), Redirs(u).rest) && Begins(Redirs(u).rest)
    decreases |u|
  {
    hide KindOf, Rest, Text, Skip, Spells, ItemsToks, Rds;
    items := [];
    Nothing();
    EmptySpelled(Skip(u));
    if Peek(u, {'<', '>'}) {
      PeekKind(u);
      var v := Rest(u);
      var t := OneSpelled(u);
      var t2 := OneSpelled(v);
      var more := WrittenRedirs(Rest(v));
      var i := if t == Mark('<') then From(t2.w) else if t == Mark('>') then To(t2.w) else Add(t2.w);
      items := [i] + more;
      assert items[1..] == more;
      MarkedRd(i, t, t2);
      WordsFirst(items);
      FirstToks(items);
      RestSkipped(u);
      RestSkipped(v);
      SpellsJoin(v, [t2], Rest(v), ItemsToks(more), Redirs(u).rest);
      SpellsJoin(Skip(u), [t], v, [t2] + ItemsToks(more), Redirs(u).rest);
      assert ItemsToks(items) == [t] + ([t2] + ItemsToks(more));
    } else {
      SkipBegins(u);
    }
  }

  lemma {:induction false} PeekKind(u: string)
    ensures Peek(u, {'<', '>'}) ==> KindOf(u) == Sym('<') || KindOf(u) == Sym('>') || KindOf(u) == Append
    ensures Peek(u, {'('}) ==> KindOf(u) == Sym('(')
    ensures Peek(u, {')'}) ==> KindOf(u) == Sym(')')
    ensures Peek(u, {'|'}) ==> KindOf(u) == Sym('|')
    ensures Peek(u, {'&'}) ==> KindOf(u) == Sym('&')
    ensures Peek(u, {';'}) ==> KindOf(u) == Sym(';')
  {
  }

  lemma {:induction false} SkipBegins(u: string)
    ensures Begins(Skip(u)) && Skip(Skip(u)) == Skip(u)
  {
    NoSpace(Skip(u));
  }

  lemma {:induction false} RestSkipped(u: string)
    ensures Skip(Rest(u)) == Rest(u) && Begins(Rest(u))
  {
    SkipBegins(Skip(u)[TokenLen(u)..]);
  }

  /** So are the words of a simple command, with the redirections among them. */
  lemma {:induction false} WrittenArgs(u: string, n: nat) returns (items: seq<Item>)
    requires Args(u, n).Ok? && n < MAXARGS
    ensures var r := Args(u, n);
      && ItemsOk(items) && (items == [] || items[0].Arg?) && r.value == Simple(Words(items), Rds(items)) && n + |Words(items)| < MAXARGS
      && Spells(Skip(u), ItemsToks(items), r.rest) && Begins(r.rest)
    decreases |u|
  {
    hide KindOf, Rest, Text, Skip, Redirs, Spells, Words, Rds, ItemsToks;
    items := [];
    Nothing();
    EmptySpelled(Skip(u));
    SkipBegins(u);
    RestSkipped(u);
    if !Peek(u, {'|', ')', '&', ';'}) && KindOf(u) == Eof {
      EofRest(u);
    } else if !Peek(u, {'|', ')', '&', ';'}) {
      var t := OneSpelled(u);
      var rds := WrittenRedirs(Rest(u));
      var m := Redirs(Rest(u)).rest;
      RedirsSkipped(Rest(u));
      var more := WrittenArgs(m, n + 1);
      items := [Arg(t.w)] + (rds + more);
      ItemsJoin(rds, more);
      WordsJoin(rds, more);
      NoneIn(rds);
      SpellsJoin(Rest(u), ItemsToks(rds), m, ItemsToks(more), Args(u, n).rest);
      SpellsJoin(Skip(u), [t], Rest(u), ItemsToks(rds + more), Args(u, n).rest);
      WordsFirst(items);
      ArgIsNone(t.w);
      FirstToks(items);
      assert items[1..] == rds + more && items[0] == Arg(t.w) && Rds([items[0]]) + Rds(rds + more) == Rds(rds + more);
    }
  }

  lemma {:induction false} EmptySpelled(v: string)
    ensures ItemsToks([]) == [] && Spells(v, ItemsToks([]), v)
  {
  }

  lemma {:induction false} FirstToks(items: seq<Item>)
    requires items != []
    ensures ItemsToks(items) == ItemToks(items[0]) + ItemsToks(items[1..])
  {
  }

  lemma {:induction false} EofRest(u: string)
    requires KindOf(u) == Eof
    ensures Skip(u) == "" && Rest(u) == ""
  {
  }

  lemma {:induction false} RedirsSkipped(u: string)
    requires Redirs(u).Ok?
    ensures Skip(Redirs(u).rest) == Redirs(u).rest
    decreases |u|
  {
    hide KindOf, Text, Skip;
    if Peek(u, {'<', '>'}) {
      RedirsSkipped(Rest(Rest(u)));
    } else {
      SkipBegins(u);
    }
  }

  lemma {:induction false} ItemsJoin(a: seq<Item>, b: seq<Item>)
    ensures ItemsToks(a + b) == ItemsToks(a) + ItemsToks(b)
    decreases |a|
  {
    if a == [] {
      assert a + b == b;
    } else {
      assert (a + b)[1..] == a[1..] + b && (a + b)[0] == a[0];
      ItemsJoin(a[1..], b);
      hide ItemToks;
      assert ItemsToks(a + b) == ItemToks(a[0]) + (ItemsToks(a[1..]) + ItemsToks(b));
    }
  }

  lemma {:induction false} WrittenPlain(u: string) returns (e: Elem)
    requires ParseExec(u).Ok? && !Peek(u, {'('})
    ensures var r := ParseExec(u); e.Plain? && ElemOk(e) && r.value == ElemMeans(e) && Spells(Skip(u), ElemToks(e), r.rest) && Begins(r.rest)
  {
    hide KindOf, Rest, Text, Skip, Redirs, Args, Words, Rds, Redirected, Spells;
    var rds := WrittenRedirs(u);
    var m := Redirs(u).rest;
    RedirsSkipped(u);
    var more := WrittenArgs(m, 0);
    var items := rds + more;
    ItemsJoin(rds, more);
    WordsJoin(rds, more);
    NoneIn(rds);
    assert Words(items) == Words(more);
    SpellsJoin(Skip(u), ItemsToks(rds), m, ItemsToks(more), ParseExec(u).rest);
    WrapMeans(Exec(Words(items)), items);
    e := Plain(items);
  }

  lemma {:induction false} WrittenGroup(u: string) returns (e: Elem)
    requires ParseExec(u).Ok? && Peek(u, {'('})
    ensures var r := ParseExec(u); ElemOk(e) && r.value == ElemMeans(e) && Spells(Skip(u), ElemToks(e), r.rest) && Begins(r.rest)
    decreases |u|, 0
  {
    hide KindOf, Rest, Text, Skip, Redirs, Args, Words, Rds, Redirected, Spells, ParseLine, LineMeans, LineOk, LineToks;
    PeekKind(u);
    RestSkipped(u);
    var t := OneSpelled(u);
    var l := WrittenLine(Rest(u));
    var body := ParseLine(Rest(u));
    PeekKind(body.rest);
    BeginsSkip(body.rest);
    var t2 := OneSpelled(body.rest);
    RestSkipped(body.rest);
    var rds := WrittenRedirs(Rest(body.rest));
    var v := ParseExec(u).rest;
    SpellsJoin(body.rest, [t2], Rest(body.rest), ItemsToks(rds), v);
    SpellsJoin(Rest(u), LineToks(l), body.rest, [t2] + ItemsToks(rds), v);
    SpellsJoin(Skip(u), [t], Rest(u), LineToks(l) + ([t2] + ItemsToks(rds)), v);
    WrapMeans(LineMeans(l), rds);
    e := Group(l, rds);
  }

  lemma {:induction false} BeginsSkip(u: string)
    requires Begins(u)
    ensures Skip(u) == u
  {
    NoSpace(u);
  }

  lemma {:induction false} WrittenPipes(u: string) returns (p: Pipes)
    requires ParsePipe(u).Ok?
    ensures var r := ParsePipe(u); PipesOk(p) && r.value == PipesMeans(p) && Spells(Skip(u), PipesToks(p), r.rest) && Begins(r.rest)
    decreases |u|, 1
  {
    hide KindOf, Rest, Text, Skip, Redirs, Args, Spells, ParseExec, ElemOk, ElemMeans, ElemToks;
    var e;
    if Peek(u, {'('}) {
      e := WrittenGroup(u);
    } else {
      e := WrittenPlain(u);
    }
    var w := ParseExec(u).rest;
    BeginsSkip(w);
    p := One(e);
    if Peek(w, {'|'}) {
      PeekKind(w);
      RestSkipped(w);
      var t := OneSpelled(w);
      var more := WrittenPipes(Rest(w));
      SpellsJoin(w, [t], Rest(w), PipesToks(more), ParsePipe(u).rest);
      SpellsJoin(Skip(u), ElemToks(e), w, [t] + PipesToks(more), ParsePipe(u).rest);
      p := Bar(e, more);
    }
  }

  lemma {:induction false} WrittenBacks(u: string)
    ensures var r := Backs(u); Spells(Skip(u), BackToks(r.value), r.rest) && Begins(r.rest)
    decreases |u|
  {
    hide KindOf, Rest, Text, Skip;
    SkipBegins(u);
    if Peek(u, {'&'}) {
      PeekKind(u);
      RestSkipped(u);
      var t := OneSpelled(u);
      WrittenBacks(Rest(u));
      SpellsJoin(Skip(u), [t], Rest(u), BackToks(Backs(Rest(u)).value), Backs(u).rest);
    }
  }

  /** A line that parses is written. */
  lemma {:induction false} WrittenLine(u: string) returns (l: Line)
    requires ParseLine(u).Ok?
    ensures var r := ParseLine(u); LineOk(l) && r.value == LineMeans(l) && Spells(Skip(u), LineToks(l), r.rest) && Begins(r.rest)
    decreases |u|, 2
  {
    hide KindOf, Rest, Text, Skip, Spells, ParsePipe, PipesOk, PipesMeans, PipesToks, Backs, BackToks;
    var p := WrittenPipes(u);
    var w := ParsePipe(u).rest;
    BeginsSkip(w);
    WrittenBacks(w);
    var b := Backs(w);
    BackedAgain(PipesMeans(p), b.value);
    BeginsSkip(b.rest);
    SpellsJoin(Skip(u), PipesToks(p), w, BackToks(b.value), b.rest);
    l := Last(p, b.value);
    if Peek(b.rest, {';'}) {
      PeekKind(b.rest);
      RestSkipped(b.rest);
      var t := OneSpelled(b.rest);
      var more := WrittenLine(Rest(b.rest));
      var v := ParseLine(u).rest;
      SpellsJoin(b.rest, [t], Rest(b.rest), LineToks(more), v);
      SpellsJoin(w, BackToks(b.value), b.rest, [t] + LineToks(more), v);
      SpellsJoin(Skip(u), PipesToks(p), w, BackToks(b.value) + ([t] + LineToks(more)), v);
      l := Semi(p, b.value, more);
    }
  }

  // ---------------------------------------------------------------- parsecmd

  /** Every written line, in any spacing, is read as the tree it means, with every redirection around its command, in order. */
  lemma {:induction false} ReadsWritten(lead: string, u: string, l: Line)
    requires Spaces(lead) && LineOk(l) && Spells(u, LineToks(l), "")
    ensures ParseCmd(lead + u) == Ok(LineMeans(l), "")
  {
    hide ParseLine, LineOk, LineToks, LineMeans, Skip, Spells;
    var m := SpelledBegins(u, LineToks(l));
    SkipGap(lead, u);
    LeadingSpaces(lead + u);
    ReadLine(u, l, "");
    NoSpace("");
  }

  lemma {:induction false} SpelledBegins(u: string, toks: seq<Tok>) returns (m: string)
    requires Spells(u, toks, "")
    ensures Begins(u)
  {
    m := "";
    if toks != [] {
      var t;
      t, m := SpellsHead(u, toks, "");
    }
  }

  /** The parser does not see spaces at the beginning. */
  lemma {:induction false} LeadingSpaces(s: string)
    ensures ParseLine(s) == ParseLine(Skip(s))
  {
    SkipBegins(s);
    hide Skip;
    SameTokens(s);
    assert Redirs(s) == Redirs(Skip(s));
    hide KindOf, Rest, Text, Args, Redirs;
    assert ParseExec(s) == ParseExec(Skip(s));
    assert ParsePipe(s) == ParsePipe(Skip(s));
  }

  lemma {:induction false} SameTokens(s: string)
    ensures KindOf(Skip(s)) == KindOf(s) && Rest(Skip(s)) == Rest(s) && Text(Skip(s)) == Text(s)
    ensures forall toks :: Peek(Skip(s), toks) == Peek(s, toks)
  {
    SkipBegins(s);
  }

  /** And whatever the parser accepts is a written line, read as what it means. */
  lemma {:induction false} OnlyWritten(s: string) returns (l: Line)
    requires ParseCmd(s).Ok?
    ensures LineOk(l) && ParseCmd(s).value == LineMeans(l) && Spells(Skip(s), LineToks(l), "")
  {
    hide ParseLine, LineOk, LineToks, LineMeans, Skip, Spells;
    l := WrittenLine(s);
    BeginsSkip(ParseLine(s).rest);
  }

  /** Tokens with one space after each. */
  function Spaced(toks: seq<Tok>): (s: string)
  {
    if toks == [] then "" else TokText(toks[0]) + (" " + Spaced(toks[1..]))
  }

  predicate ToksOk(toks: seq<Tok>)
  {
    forall k :: 0 <= k < |toks| ==> TokOk(toks[k])
  }

  lemma {:induction false} SpacedSpells(toks: seq<Tok>)
    requires ToksOk(toks)
    ensures Spells(Spaced(toks), toks, "") && Begins(Spaced(toks))
    decreases |toks|
  {
    if toks != [] {
      SpacedSpells(toks[1..]);
      assert TokOk(toks[0]);
      TokBegins(toks[0], " " + Spaced(toks[1..]));
      assert Glued(Spaced(toks), toks[0], " ", Spaced(toks[1..]));
    }
  }

  lemma {:induction false} TokBegins(t: Tok, v: string)
    requires TokOk(t)
    ensures Begins(TokText(t) + v)
  {
    assert t.Name? ==> (t.w + v)[0] == t.w[0];
  }

  lemma {:induction false} ItemsToksOk(items: seq<Item>)
    requires ItemsOk(items)
    ensures ToksOk(ItemsToks(items))
    decreases |items|
  {
    if items != [] {
      assert ItemOk(items[0]);
      ItemsToksOk(items[1..]);
    }
  }

  lemma {:induction false} ElemToksOk(e: Elem)
    requires ElemOk(e)
    ensures ToksOk(ElemToks(e))
    decreases e, 0
  {
    match e
    case Plain(items) => ItemsToksOk(items);
    case Group(l, rds) =>
      LineToksOk(l);
      ItemsToksOk(rds);
  }

  lemma {:induction false} PipesToksOk(p: Pipes)
    requires PipesOk(p)
    ensures ToksOk(PipesToks(p))
    decreases p, 0
  {
    match p
    case One(e) => ElemToksOk(e);
    case Bar(e, more) =>
      ElemToksOk(e);
      PipesToksOk(more);
  }

  lemma {:induction false} BackToksOk(n: nat)
    ensures ToksOk(BackToks(n))
    decreases n
  {
    if n > 0 {
      BackToksOk(n - 1);
    }
  }

  lemma {:induction false} LineToksOk(l: Line)
    requires LineOk(l)
    ensures ToksOk(LineToks(l))
    decreases l, 0
  {
    PipesToksOk(l.p);
    BackToksOk(l.backs);
    if l.Semi? {
      LineToksOk(l.more);
    }
  }

  /** Printed without parentheses but for groups: the parser gives back the tree. */
  lemma {:induction false} PlainRoundTrip(l: Line)
    requires LineOk(l)
    ensures ParseCmd(Spaced(LineToks(l))) == Ok(LineMeans(l), "")
  {
    hide ParseCmd, LineOk, LineToks, LineMeans, Spaced, Spells;
    LineToksOk(l);
    SpacedSpells(LineToks(l));
    ReadsWritten("", Spaced(LineToks(l)), l);
    assert "" + Spaced(LineToks(l)) == Spaced(LineToks(l));
  }

  /** A line that is one simple command. */
  lemma {:induction false} PlainLine(items: seq<Item>)
    ensures var l := Last(One(Plain(items)), 0);
      && LineToks(l) == ItemsToks(items) && LineMeans(l) == Redirected(Exec(Words(items)), items)
      && (LineOk(l) <==> ItemsOk(items) && |Words(items)| < MAXARGS)
  {
    hide ItemsToks, Words, Redirected, ItemsOk;
    var e := Plain(items);
    assert ElemToks(e) == ItemsToks(items) && PipesToks(One(e)) == ElemToks(e) && BackToks(0) == [];
    assert ElemMeans(e) == Redirected(Exec(Words(items)), items) && PipesMeans(One(e)) == ElemMeans(e);
    assert PipesOk(One(e)) == ElemOk(e);
  }

  /** Such a line: two words, and their output to a file that is created, and emptied first. */
  lemma {:induction false} WordsToFile(w: string, x: string, file: string)
    requires WordOk(w) && WordOk(x) && WordOk(file)
    ensures ParseCmd(Spaced([Name(w), Name(x), Mark('>'), Name(file)])) == Ok(Redir(Exec([w, x]), file, 0x601, 1), "")
  {
    hide ParseCmd, Words, ItemsToks, Rds;
    var i3, i2, i1 := [To(file)], [Arg(x), To(file)], [Arg(w), Arg(x), To(file)];
    assert i1[1..] == i2 && i2[1..] == i3 && i3[1..] == [];
    FirstToks(i1);
    FirstToks(i2);
    FirstToks(i3);
    WordsFirst(i1);
    WordsFirst(i2);
    WordsFirst(i3);
    Nothing();
    EmptySpelled("");
    assert Words(i1) == [w, x] && ItemsToks(i1) == [Name(w), Name(x), Mark('>'), Name(file)];
    var c := Exec([w, x]);
    assert Redirected(c, i1) == Redirected(c, i2) == Redirected(c, i3) == Redir(c, file, 0x601, 1);
    assert forall k :: 0 <= k < 3 ==> ItemOk(i1[k]);
    PlainLine(i1);
    PlainRoundTrip(Last(One(Plain(i1)), 0));
  }
}
