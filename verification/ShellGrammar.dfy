/**
 The language of the shell (user/sh.c): which texts the parser accepts and what
 they mean. A line is written with any white space between its tokens, with
 redirections anywhere among the words of a simple command and behind blocks,
 and with no more parentheses than the writer likes. The parser accepts exactly
 these lines and gives their meaning.
 */
module ShellGrammar {
  import opened Shell

  // ---------------------------------------------------------------- meaning

  // A command with the texts of its words
  datatype Tree =
    | Simple(args: seq<string>)
    | To(cmd: Tree, file: string, mode: Mode)
    | Piped(left: Tree, right: Tree)
    | Then(left: Tree, right: Tree)
    | Behind(cmd: Tree)

  function Text(buf: string, w: Word): string {
    if w.q <= w.eq <= |buf| then buf[w.q..w.eq] else ""
  }

  function Texts(buf: string, ws: seq<Word>): (ts: seq<string>)
    ensures |ts| == |ws|
  {
    seq(|ws|, i requires 0 <= i < |ws| => Text(buf, ws[i]))
  }

  // What the parser built, with the words read in the buffer
  function TreeOf(buf: string, c: Cmd): Tree {
    match c
    case Exec(argv) => Simple(Texts(buf, argv))
    case Redir(d, f, m) => To(TreeOf(buf, d), Text(buf, f), m)
    case Pipe(a, b) => Piped(TreeOf(buf, a), TreeOf(buf, b))
    case List(a, b) => Then(TreeOf(buf, a), TreeOf(buf, b))
    case Back(d) => Behind(TreeOf(buf, d))
  }

  // ---------------------------------------------------------------- lines as they are written

  datatype Target = Target(file: string, mode: Mode)

  datatype Item = Arg(text: string) | Into(to: Target)

  datatype Part = Plain(items: seq<Item>) | Block(body: Line, targets: seq<Target>)

  datatype Pipes = One(part: Part) | Join(part: Part, rest: Pipes)

  // backs is the number of "&"s.
  datatype Line = Last(pipes: Pipes, backs: nat) | More(pipes: Pipes, backs: nat, rest: Line)

  function ArgTexts(items: seq<Item>): seq<string> {
    if items == [] then [] else (if items[0].Arg? then [items[0].text] else []) + ArgTexts(items[1..])
  }

  function Targets(items: seq<Item>): seq<Target> {
    if items == [] then [] else (if items[0].Into? then [items[0].to] else []) + Targets(items[1..])
  }

  // The first redirection written is the innermost.
  function Redirected(t: Tree, targets: seq<Target>): Tree
    decreases |targets|
  {
    if targets == [] then t else Redirected(To(t, targets[0].file, targets[0].mode), targets[1..])
  }

  function InBackground(t: Tree, n: nat): Tree
    decreases n
  {
    if n == 0 then t else InBackground(Behind(t), n - 1)
  }

  function PartTree(part: Part): Tree {
    match part
    case Plain(items) => Redirected(Simple(ArgTexts(items)), Targets(items))
    case Block(body, targets) => Redirected(LineTree(body), targets)
  }

  function PipesTree(pipes: Pipes): Tree {
    match pipes
    case One(part) => PartTree(part)
    case Join(part, rest) => Piped(PartTree(part), PipesTree(rest))
  }

  function LineTree(line: Line): Tree {
    match line
    case Last(pipes, n) => InBackground(PipesTree(pipes), n)
    case More(pipes, n, rest) => Then(InBackground(PipesTree(pipes), n), LineTree(rest))
  }

  // ---------------------------------------------------------------- tokens

  // ">>" is the symbol '+', as in gettoken.
  datatype Tok = Sym(c: char) | Name(text: string)

  function Arrow(m: Mode): Tok {
    match m
    case Read => Sym('<')
    case Truncate => Sym('>')
    case Append => Sym('+')
  }

  function TargetToks(targets: seq<Target>): seq<Tok> {
    if targets == [] then [] else [Arrow(targets[0].mode), Name(targets[0].file)] + TargetToks(targets[1..])
  }

  function ItemToks(items: seq<Item>): seq<Tok> {
    if items == [] then []
    else (match items[0] case Arg(w) => [Name(w)] case Into(t) => [Arrow(t.mode), Name(t.file)]) + ItemToks(items[1..])
  }

  function Amps(n: nat): seq<Tok> {
    if n == 0 then [] else [Sym('&')] + Amps(n - 1)
  }

  function PartToks(part: Part): seq<Tok> {
    match part
    case Plain(items) => ItemToks(items)
    case Block(body, targets) => [Sym('(')] + (LineToks(body) + ([Sym(')')] + TargetToks(targets)))
  }

  function PipesToks(pipes: Pipes): seq<Tok> {
    match pipes
    case One(part) => PartToks(part)
    case Join(part, rest) => PartToks(part) + ([Sym('|')] + PipesToks(rest))
  }

  function LineToks(line: Line): seq<Tok> {
    match line
    case Last(pipes, n) => PipesToks(pipes) + Amps(n)
    case More(pipes, n, rest) => PipesToks(pipes) + (Amps(n) + ([Sym(';')] + LineToks(rest)))
  }

  ghost predicate LegalWord(w: string) {
    w != "" && forall i :: 0 <= i < |w| ==> w[i] !in " \t\r\n\U{0B}" && w[i] !in "<|>&;()" && w[i] != '\0'
  }

  ghost predicate LegalTok(t: Tok) {
    match t
    case Sym(c) => c in "<|>&;()+"
    case Name(w) => LegalWord(w)
  }

  ghost predicate LegalToks(toks: seq<Tok>) {
    forall i :: 0 <= i < |toks| ==> LegalTok(toks[i])
  }

  // The limit of the argument vector
  ghost predicate FitsPart(part: Part) {
    match part
    case Plain(items) => |ArgTexts(items)| < MAXARGS
    case Block(body, _) => FitsLine(body)
  }

  ghost predicate FitsPipes(pipes: Pipes) {
    FitsPart(pipes.part) && (pipes.Join? ==> FitsPipes(pipes.rest))
  }

  ghost predicate FitsLine(line: Line) {
    FitsPipes(line.pipes) && (line.More? ==> FitsLine(line.rest))
  }

  // ---------------------------------------------------------------- reading tokens

  // The token at p
  function Kind(buf: string, p: nat): char
    requires p <= |buf|
  {
    TokenAt(buf, p).kind
  }

  function Lexeme(buf: string, p: nat): Word
    requires p <= |buf|
  {
    Word(TokenAt(buf, p).q, TokenAt(buf, p).eq)
  }

  function Next(buf: string, p: nat): (n: nat)
    requires p <= |buf|
    ensures p <= n <= |buf|
  {
    TokenAt(buf, p).next
  }

  function Skip(buf: string, p: nat): (n: nat)
    requires p <= |buf|
    ensures p <= n <= |buf|
  {
    SkipSpace(buf, p)
  }

  ghost predicate Matches(buf: string, p: nat, k: Tok)
    requires p <= |buf|
  {
    match k
    case Sym(c) => Kind(buf, p) == c
    case Name(w) => Kind(buf, p) == 'a' && Text(buf, Lexeme(buf, p)) == w
  }

  // gettoken from p on gives these tokens.
  ghost predicate Reads(buf: string, p: nat, toks: seq<Tok>)
    requires p <= |buf|
    decreases |toks|
  {
    toks == [] || (Matches(buf, p, toks[0]) && Reads(buf, Next(buf, p), toks[1..]))
  }

  // Where gettoken is after n tokens
  function Skim(buf: string, p: nat, n: nat): (e: nat)
    requires p <= |buf|
    ensures p <= e <= |buf|
    decreases n
  {
    if n == 0 then Skip(buf, p) else Skim(buf, Next(buf, p), n - 1)
  }

  // Spaces before a token do not matter.
  lemma SkipTwice(buf: string, p: nat)
    requires p <= |buf|
    ensures Skip(buf, Skip(buf, p)) == Skip(buf, p) && Next(buf, Skip(buf, p)) == Next(buf, p)
    ensures Kind(buf, Skip(buf, p)) == Kind(buf, p) && Lexeme(buf, Skip(buf, p)) == Lexeme(buf, p)
  {
    Skipped(buf, p, "");
  }

  lemma {:induction false} SkimStays(buf: string, p: nat, n: nat)
    requires p <= |buf|
    ensures Skip(buf, Skim(buf, p, n)) == Skim(buf, p, n)
    decreases n
  {
    hide Skip, Next;
    if n > 0 {
      SkimStays(buf, Next(buf, p), n - 1);
    } else {
      SkipTwice(buf, p);
    }
  }

  lemma ReadsSkip(buf: string, p: nat, toks: seq<Tok>)
    requires p <= |buf|
    ensures Reads(buf, Skip(buf, p), toks) <==> Reads(buf, p, toks)
    ensures Skim(buf, Skip(buf, p), |toks|) == Skim(buf, p, |toks|)
  {
    hide Skip, Next, Kind, Lexeme;
    SkipTwice(buf, p);
  }

  lemma {:induction false} ReadsSplit(buf: string, p: nat, a: seq<Tok>, b: seq<Tok>)
    requires p <= |buf|
    ensures Reads(buf, p, a + b) <==> Reads(buf, p, a) && Reads(buf, Skim(buf, p, |a|), b)
    ensures Skim(buf, p, |a + b|) == Skim(buf, Skim(buf, p, |a|), |b|)
    decreases |a|
  {
    hide Skip, Next, Kind, Lexeme, Matches;
    if a == [] {
      assert a + b == b;
      ReadsSkip(buf, p, b);
    } else {
      assert (a + b)[0] == a[0] && (a + b)[1..] == a[1..] + b;
      ReadsSplit(buf, Next(buf, p), a[1..], b);
    }
  }

  lemma ReadsOne(buf: string, p: nat, k: Tok, b: seq<Tok>)
    requires p <= |buf|
    ensures Reads(buf, p, [k] + b) <==> Matches(buf, p, k) && Reads(buf, Next(buf, p), b)
    ensures Skim(buf, p, |[k] + b|) == Skim(buf, Next(buf, p), |b|)
  {
    hide Skip, Next, Kind, Lexeme, Matches;
    assert ([k] + b)[0] == k && ([k] + b)[1..] == b;
  }

  // peek, in terms of gettoken
  lemma SeesKind(buf: string, p: nat)
    requires p <= |buf|
    ensures var k := Kind(buf, p);
            && (Sees(buf, p, "<>") <==> k == '<' || k == '>' || k == '+')
            && (Sees(buf, p, "(") <==> k == '(') && (Sees(buf, p, ")") <==> k == ')')
            && (Sees(buf, p, "|") <==> k == '|') && (Sees(buf, p, "&") <==> k == '&')
            && (Sees(buf, p, ";") <==> k == ';')
            && (Sees(buf, p, "|)&;") <==> k == '|' || k == ')' || k == '&' || k == ';')
  {
  }

  // What may follow
  ghost predicate Follows(buf: string, e: nat, next: string)
    requires e <= |buf|
  {
    Kind(buf, e) == NUL || Kind(buf, e) in next
  }

  lemma FollowsSkip(buf: string, p: nat, next: string)
    requires p <= |buf|
    ensures Follows(buf, Skip(buf, p), next) <==> Follows(buf, p, next)
  {
    SkipTwice(buf, p);
  }

  lemma EndNext(buf: string, p: nat)
    requires CText(buf) && p <= |buf| && Kind(buf, p) == NUL
    ensures Next(buf, p) == Skip(buf, p) == |buf|
  {
  }

  // ---------------------------------------------------------------- redirections

  function Files(buf: string, rs: seq<Redirection>): (ts: seq<Target>)
    ensures |ts| == |rs|
  {
    seq(|rs|, i requires 0 <= i < |rs| => Target(Text(buf, rs[i].file), rs[i].mode))
  }

  lemma FilesMore(buf: string, rs: seq<Redirection>, r: Redirection)
    ensures Files(buf, rs + [r]) == Files(buf, rs) + [Target(Text(buf, r.file), r.mode)]
  {
  }

  lemma {:induction false} RedirectedMore(t: Tree, targets: seq<Target>, x: Target)
    ensures Redirected(t, targets + [x]) == To(Redirected(t, targets), x.file, x.mode)
    decreases |targets|
  {
    if targets == [] {
      assert targets + [x] == [x];
      assert [x][1..] == [];
    } else {
      assert (targets + [x])[1..] == targets[1..] + [x];
      RedirectedMore(To(t, targets[0].file, targets[0].mode), targets[1..], x);
    }
  }

  lemma {:induction false} WrapTree(buf: string, c: Cmd, rs: seq<Redirection>)
    ensures TreeOf(buf, Wrap(c, rs)) == Redirected(TreeOf(buf, c), Files(buf, rs))
    decreases |rs|
  {
    if rs != [] {
      var n := |rs| - 1;
      WrapTree(buf, c, rs[..n]);
      assert rs == rs[..n] + [rs[n]];
      FilesMore(buf, rs[..n], rs[n]);
      RedirectedMore(TreeOf(buf, c), Files(buf, rs[..n]), Target(Text(buf, rs[n].file), rs[n].mode));
    }
  }

  // One round of parseredirs
  lemma RedirsStep(buf: string, p: nat, rs: seq<Redirection>)
    requires p <= |buf|
    ensures Kind(buf, p) != '<' && Kind(buf, p) != '>' && Kind(buf, p) != '+' ==>
      Redirs(buf, p, rs) == Ok(rs, Skip(buf, p))
    ensures (Kind(buf, p) == '<' || Kind(buf, p) == '>' || Kind(buf, p) == '+') ==>
      Redirs(buf, p, rs) ==
        if Kind(buf, Next(buf, p)) != 'a' then Panic(MissingFile)
        else Redirs(buf, Next(buf, Next(buf, p)), rs + [Redirection(Lexeme(buf, Next(buf, p)), ModeOf(Kind(buf, p)))])
  {
    SeesKind(buf, p);
  }

  // One redirection at p
  lemma RedirStep(buf: string, p: nat, rs: seq<Redirection>, x: Target, rest: seq<Tok>) returns (r: Redirection, q: nat)
    requires p <= |buf| && Reads(buf, p, [Arrow(x.mode), Name(x.file)] + rest)
    ensures q <= |buf| && Redirs(buf, p, rs) == Redirs(buf, q, rs + [r]) && Reads(buf, q, rest)
    ensures Target(Text(buf, r.file), r.mode) == x
    ensures Skim(buf, p, |[Arrow(x.mode), Name(x.file)] + rest|) == Skim(buf, q, |rest|)
  {
    hide Skip, Next, Kind, Lexeme, Reads, Skim, Redirs, Text;
    assert [Arrow(x.mode), Name(x.file)] + rest == [Arrow(x.mode)] + ([Name(x.file)] + rest);
    ReadsOne(buf, p, Arrow(x.mode), [Name(x.file)] + rest);
    ReadsOne(buf, Next(buf, p), Name(x.file), rest);
    RedirsStep(buf, p, rs);
    r, q := Redirection(Lexeme(buf, Next(buf, p)), ModeOf(Kind(buf, p))), Next(buf, Next(buf, p));
  }

  lemma NoTargets(buf: string, p: nat, rs: seq<Redirection>)
    requires p <= |buf| && Follows(buf, Skim(buf, p, 0), "|)&;")
    ensures Redirs(buf, p, rs) == Ok(rs, Skim(buf, p, 0))
  {
    hide Skip, Next, Kind, Lexeme, Redirs;
    FollowsSkip(buf, p, "|)&;");
    RedirsStep(buf, p, rs);
  }

  lemma {:induction false} TargetsParse(buf: string, p: nat, rs: seq<Redirection>, targets: seq<Target>)
    returns (rs': seq<Redirection>)
    requires p <= |buf| && Reads(buf, p, TargetToks(targets))
    requires Follows(buf, Skim(buf, p, |TargetToks(targets)|), "|)&;")
    ensures Redirs(buf, p, rs) == Ok(rs', Skim(buf, p, |TargetToks(targets)|))
    ensures Files(buf, rs') == Files(buf, rs) + targets
    decreases |targets|
  {
    hide Redirs, Skim, Reads, Follows, Files, Arrow;
    if targets == [] {
      NoTargets(buf, p, rs);
      rs' := rs;
      assert Files(buf, rs) + [] == Files(buf, rs);
    } else {
      var r, q := RedirStep(buf, p, rs, targets[0], TargetToks(targets[1..]));
      rs' := TargetsParse(buf, q, rs + [r], targets[1..]);
      FilesMore(buf, rs, r);
      assert [targets[0]] + targets[1..] == targets;
    }
  }

  // ---------------------------------------------------------------- simple commands

  // parseexec from a call of parseredirs on
  function Rest(buf: string, p: nat, argv: seq<Word>, rs: seq<Redirection>): Result<Cmd>
    requires p <= |buf|
  {
    match Redirs(buf, p, rs)
    case Panic(e) => Panic(e)
    case Ok(rs', p') => Shell.Args(buf, p', argv, rs')
  }

  lemma TextsMore(buf: string, ws: seq<Word>, w: Word)
    ensures Texts(buf, ws + [w]) == Texts(buf, ws) + [Text(buf, w)]
  {
  }

  lemma RestRedir(buf: string, p: nat, q: nat, argv: seq<Word>, rs: seq<Redirection>, r: Redirection)
    requires p <= |buf| && q <= |buf| && Redirs(buf, p, rs) == Redirs(buf, q, rs + [r])
    ensures Rest(buf, p, argv, rs) == Rest(buf, q, argv, rs + [r])
  {
  }

  // One round of parseexec's loop behind the redirections
  lemma RestStep(buf: string, p: nat, argv: seq<Word>, rs: seq<Redirection>)
    requires CText(buf) && p <= |buf| && Kind(buf, p) != '<' && Kind(buf, p) != '>' && Kind(buf, p) != '+'
    ensures Rest(buf, p, argv, rs) ==
      if Follows(buf, p, "|)&;") then Ok(Wrap(Exec(argv), rs), Skip(buf, p))
      else if Kind(buf, p) != 'a' then Panic(Syntax)
      else if |argv| + 1 >= MAXARGS then Panic(TooManyArgs)
      else Rest(buf, Next(buf, p), argv + [Lexeme(buf, p)], rs)
  {
    RedirsStep(buf, p, rs);
    SkipTwice(buf, p);
    hide Redirs, Wrap;
    ArgsStep(buf, Skip(buf, p), argv, rs);
  }

  lemma ArgsStep(buf: string, p: nat, argv: seq<Word>, rs: seq<Redirection>)
    requires CText(buf) && p <= |buf|
    ensures Shell.Args(buf, p, argv, rs) ==
      if Follows(buf, p, "|)&;") then Ok(Wrap(Exec(argv), rs), Skip(buf, p))
      else if Kind(buf, p) != 'a' then Panic(Syntax)
      else if |argv| + 1 >= MAXARGS then Panic(TooManyArgs)
      else Rest(buf, Next(buf, p), argv + [Lexeme(buf, p)], rs)
  {
    SeesKind(buf, p);
    if Kind(buf, p) == NUL {
      EndNext(buf, p);
    }
  }

  lemma StopStep(buf: string, p: nat, argv: seq<Word>, rs: seq<Redirection>)
    requires CText(buf) && p <= |buf| && Follows(buf, Skim(buf, p, 0), "|)&;")
    ensures Rest(buf, p, argv, rs) == Ok(Wrap(Exec(argv), rs), Skim(buf, p, 0))
  {
    hide Skip, Next, Kind, Lexeme, Rest, CText, Wrap;
    FollowsSkip(buf, p, "|)&;");
    RestStep(buf, p, argv, rs);
  }

  lemma WordStep(buf: string, p: nat, argv: seq<Word>, rs: seq<Redirection>, w: string, rest: seq<Tok>)
    returns (x: Word, q: nat)
    requires CText(buf) && p <= |buf| && Reads(buf, p, [Name(w)] + rest) && |argv| + 1 < MAXARGS
    ensures q <= |buf| && Rest(buf, p, argv, rs) == Rest(buf, q, argv + [x], rs) && Reads(buf, q, rest)
    ensures Text(buf, x) == w && Skim(buf, p, |[Name(w)] + rest|) == Skim(buf, q, |rest|)
  {
    hide Skip, Next, Kind, Lexeme, Rest, CText, Wrap, Reads, Skim, Text;
    ReadsOne(buf, p, Name(w), rest);
    RestStep(buf, p, argv, rs);
    x, q := Lexeme(buf, p), Next(buf, p);
  }

  lemma ItemsApart(items: seq<Item>)
    ensures items == [] ==> ItemToks(items) == [] && ArgTexts(items) == [] && Targets(items) == []
    ensures items != [] && items[0].Arg? ==>
      && ItemToks(items) == [Name(items[0].text)] + ItemToks(items[1..])
      && ArgTexts(items) == [items[0].text] + ArgTexts(items[1..]) && Targets(items) == Targets(items[1..])
    ensures items != [] && items[0].Into? ==>
      && ItemToks(items) == [Arrow(items[0].to.mode), Name(items[0].to.file)] + ItemToks(items[1..])
      && ArgTexts(items) == ArgTexts(items[1..]) && Targets(items) == [items[0].to] + Targets(items[1..])
  {
  }

  lemma {:induction false} ItemsParse(buf: string, p: nat, argv: seq<Word>, rs: seq<Redirection>, items: seq<Item>)
    returns (argv': seq<Word>, rs': seq<Redirection>)
    requires CText(buf) && p <= |buf| && Reads(buf, p, ItemToks(items)) && |argv| + |ArgTexts(items)| < MAXARGS
    requires Follows(buf, Skim(buf, p, |ItemToks(items)|), "|)&;")
    ensures Rest(buf, p, argv, rs) == Ok(Wrap(Exec(argv'), rs'), Skim(buf, p, |ItemToks(items)|))
    ensures Texts(buf, argv') == Texts(buf, argv) + ArgTexts(items)
    ensures Files(buf, rs') == Files(buf, rs) + Targets(items)
    decreases |items|
  {
    hide Rest, Follows, Reads, Skim, Texts, Files, Redirs, Arrow, Wrap, CText, ItemToks, ArgTexts, Targets;
    ItemsApart(items);
    if items == [] {
      StopStep(buf, p, argv, rs);
      argv', rs' := argv, rs;
      assert Texts(buf, argv) + [] == Texts(buf, argv) && Files(buf, rs) + [] == Files(buf, rs);
    } else {
      match items[0]
      case Arg(w) =>
        var x, q := WordStep(buf, p, argv, rs, w, ItemToks(items[1..]));
        TextsMore(buf, argv, x);
        argv', rs' := ItemsParse(buf, q, argv + [x], rs, items[1..]);
        assert Texts(buf, argv) + [w] + ArgTexts(items[1..]) == Texts(buf, argv) + ([w] + ArgTexts(items[1..]));
      case Into(t) =>
        var r, q := RedirStep(buf, p, rs, t, ItemToks(items[1..]));
        RestRedir(buf, p, q, argv, rs, r);
        FilesMore(buf, rs, r);
        argv', rs' := ItemsParse(buf, q, argv, rs + [r], items[1..]);
        assert Files(buf, rs) + [t] + Targets(items[1..]) == Files(buf, rs) + ([t] + Targets(items[1..]));
    }
  }

  // ---------------------------------------------------------------- every line parses

  lemma ExecPlain(buf: string, p: nat)
    requires p <= |buf|
    ensures Kind(buf, p) != '(' ==> ExecAt(buf, p) == Rest(buf, p, [], [])
    ensures Kind(buf, p) == '(' ==> ExecAt(buf, p) == BlockAt(buf, p)
  {
    SeesKind(buf, p);
  }

  // A part that is no block does not begin with a parenthesis.
  lemma PlainStart(buf: string, p: nat, items: seq<Item>)
    requires p <= |buf| && Reads(buf, p, ItemToks(items)) && Follows(buf, Skim(buf, p, |ItemToks(items)|), "|)&;")
    ensures Kind(buf, p) != '('
  {
    hide Kind, Next, Lexeme, Skip;
    if items == [] {
      FollowsSkip(buf, p, "|)&;");
    }
  }

  lemma BlockStep(buf: string, p: nat)
    requires p <= |buf| && Kind(buf, p) == '('
    ensures BlockAt(buf, p) ==
      match LineAt(buf, Next(buf, p))
      case Panic(e) => Panic(e)
      case Ok(c, p') =>
        if Kind(buf, p') != ')' then Panic(MissingParen)
        else match Redirs(buf, Next(buf, p'), [])
             case Panic(e) => Panic(e)
             case Ok(rs, p'') => Ok(Wrap(c, rs), p'')
  {
    SeesKind(buf, p);
    if LineAt(buf, Next(buf, p)).Ok? {
      SeesKind(buf, LineAt(buf, Next(buf, p)).pos);
    }
  }

  lemma PipeStep(buf: string, p: nat)
    requires p <= |buf|
    ensures PipeAt(buf, p) ==
      match ExecAt(buf, p)
      case Panic(e) => Panic(e)
      case Ok(c, p') =>
        if Kind(buf, p') != '|' then Ok(c, Skip(buf, p'))
        else match PipeAt(buf, Next(buf, p'))
             case Panic(e) => Panic(e)
             case Ok(d, p'') => Ok(Pipe(c, d), p'')
  {
    if ExecAt(buf, p).Ok? {
      SeesKind(buf, ExecAt(buf, p).pos);
    }
  }

  lemma BackStep(buf: string, p: nat, c: Cmd)
    requires p <= |buf|
    ensures Backs(buf, p, c) == if Kind(buf, p) == '&' then Backs(buf, Next(buf, p), Back(c)) else (c, Skip(buf, p))
  {
    SeesKind(buf, p);
  }

  lemma LineStep(buf: string, p: nat)
    requires p <= |buf|
    ensures LineAt(buf, p) ==
      match PipeAt(buf, p)
      case Panic(e) => Panic(e)
      case Ok(c0, p0) =>
        var (c, p') := Backs(buf, p0, c0);
        if Kind(buf, p') != ';' then Ok(c, Skip(buf, p'))
        else match LineAt(buf, Next(buf, p'))
             case Panic(e) => Panic(e)
             case Ok(d, p'') => Ok(List(c, d), p'')
  {
    if PipeAt(buf, p).Ok? {
      SeesKind(buf, Backs(buf, PipeAt(buf, p).pos, PipeAt(buf, p).value).1);
    }
  }

  lemma {:induction false} PlainParses(buf: string, p: nat, items: seq<Item>) returns (c: Cmd)
    requires CText(buf) && p <= |buf| && Reads(buf, p, ItemToks(items)) && |ArgTexts(items)| < MAXARGS
    requires Follows(buf, Skim(buf, p, |ItemToks(items)|), "|)&;")
    ensures ExecAt(buf, p) == Ok(c, Skim(buf, p, |ItemToks(items)|))
    ensures TreeOf(buf, c) == Redirected(Simple(ArgTexts(items)), Targets(items))
  {
    hide Kind, Rest, Follows, Reads, Skim, ItemToks, ArgTexts, Targets, CText, Wrap, ExecAt, Files, Redirected;
    PlainStart(buf, p, items);
    ExecPlain(buf, p);
    var argv, rs := ItemsParse(buf, p, [], [], items);
    c := Wrap(Exec(argv), rs);
    WrapTree(buf, Exec(argv), rs);
    assert Texts(buf, []) + ArgTexts(items) == ArgTexts(items) && Files(buf, []) + Targets(items) == Targets(items);
  }

  lemma {:induction false} PartParses(buf: string, p: nat, part: Part) returns (c: Cmd)
    requires CText(buf) && p <= |buf| && Reads(buf, p, PartToks(part)) && FitsPart(part)
    requires Follows(buf, Skim(buf, p, |PartToks(part)|), "|)&;")
    ensures ExecAt(buf, p) == Ok(c, Skim(buf, p, |PartToks(part)|)) && TreeOf(buf, c) == PartTree(part)
    decreases part
  {
    hide Kind, Lexeme, Next, Skip, Follows, Reads, Skim, ItemToks, ArgTexts, Targets, CText, Wrap, TreeOf, Files;
    hide LineToks, TargetToks, LineTree, FitsLine, ExecAt, BlockAt, LineAt, Redirs, Redirected;
    match part
    case Plain(items) => c := PlainParses(buf, p, items);
    case Block(body, targets) =>
      ExecPlain(buf, p);
      var b := [Sym(')')] + TargetToks(targets);
      ReadsOne(buf, p, Sym('('), LineToks(body) + b);
      var q := Next(buf, p);
      ReadsSplit(buf, q, LineToks(body), b);
      var e := Skim(buf, q, |LineToks(body)|);
      ReadsOne(buf, e, Sym(')'), TargetToks(targets));
      assert Follows(buf, e, ")") by { Closing(buf, e, ')', ")"); }
      var d := LineParses(buf, q, body);
      var rs := TargetsParse(buf, Next(buf, e), [], targets);
      BlockStep(buf, p);
      c := Wrap(d, rs);
      WrapTree(buf, d, rs);
      assert Files(buf, []) + targets == targets;
  }

  lemma Closing(buf: string, e: nat, k: char, next: string)
    requires e <= |buf| && Matches(buf, e, Sym(k)) && k in next
    ensures Follows(buf, e, next) && Kind(buf, e) == k
  {
  }

  lemma {:induction false} PipesParses(buf: string, p: nat, pipes: Pipes) returns (c: Cmd)
    requires CText(buf) && p <= |buf| && Reads(buf, p, PipesToks(pipes)) && FitsPipes(pipes)
    requires Follows(buf, Skim(buf, p, |PipesToks(pipes)|), ")&;")
    ensures PipeAt(buf, p) == Ok(c, Skim(buf, p, |PipesToks(pipes)|)) && TreeOf(buf, c) == PipesTree(pipes)
    decreases pipes
  {
    hide Kind, Lexeme, Next, Skip, Follows, Reads, Skim, CText;
    hide PartToks, PartTree, FitsPart, ExecAt, PipeAt;
    PipeStep(buf, p);
    match pipes
    case One(part) =>
      var e := Skim(buf, p, |PartToks(part)|);
      Wider(buf, e);
      SkimStays(buf, p, |PartToks(part)|);
      c := PartParses(buf, p, part);
    case Join(part, rest) =>
      ReadsSplit(buf, p, PartToks(part), [Sym('|')] + PipesToks(rest));
      var e := Skim(buf, p, |PartToks(part)|);
      ReadsOne(buf, e, Sym('|'), PipesToks(rest));
      Closing(buf, e, '|', "|)&;");
      var a := PartParses(buf, p, part);
      var b := PipesParses(buf, Next(buf, e), rest);
      c := Pipe(a, b);
  }

  lemma Wider(buf: string, e: nat)
    requires e <= |buf| && (Follows(buf, e, ")&;") || Follows(buf, e, ")") || Follows(buf, e, ");"))
    ensures Follows(buf, e, "|)&;") && Follows(buf, e, ")&;") && Kind(buf, e) != '|'
    ensures Follows(buf, e, ")") ==> Follows(buf, e, ");") && Kind(buf, e) != ';'
    ensures Follows(buf, e, ");") ==> Kind(buf, e) != '&'
  {
    hide Kind;
  }

  lemma {:induction false} AmpsParse(buf: string, p: nat, c: Cmd, n: nat) returns (d: Cmd)
    requires p <= |buf| && Reads(buf, p, Amps(n)) && Follows(buf, Skim(buf, p, |Amps(n)|), ");")
    ensures Backs(buf, p, c) == (d, Skim(buf, p, |Amps(n)|)) && TreeOf(buf, d) == InBackground(TreeOf(buf, c), n)
    decreases n
  {
    hide Kind, Lexeme, Next, Skip, Reads, Backs;
    BackStep(buf, p, c);
    if n == 0 {
      d := c;
      FollowsSkip(buf, p, ");");
    } else {
      ReadsOne(buf, p, Sym('&'), Amps(n - 1));
      d := AmpsParse(buf, Next(buf, p), Back(c), n - 1);
    }
  }

  // Behind its pipes a line goes on with "&", ";" or its end.
  lemma AmpsStart(buf: string, p: nat, n: nat)
    requires p <= |buf| && Reads(buf, p, Amps(n)) && Follows(buf, Skim(buf, p, |Amps(n)|), ");")
    ensures Follows(buf, p, ")&;")
  {
    hide Kind, Lexeme, Next, Skip;
    if n == 0 {
      FollowsSkip(buf, p, ");");
    }
  }

  lemma {:induction false} LineParses(buf: string, p: nat, line: Line) returns (c: Cmd)
    requires CText(buf) && p <= |buf| && Reads(buf, p, LineToks(line)) && FitsLine(line)
    requires Follows(buf, Skim(buf, p, |LineToks(line)|), ")")
    ensures LineAt(buf, p) == Ok(c, Skim(buf, p, |LineToks(line)|)) && TreeOf(buf, c) == LineTree(line)
    decreases line
  {
    hide Kind, Lexeme, Next, Skip, Follows, Reads, Skim, CText;
    hide PipesToks, PipesTree, FitsPipes, PipeAt, LineAt, Amps, InBackground, Backs;
    LineStep(buf, p);
    var pipes, n := line.pipes, line.backs;
    var e := Skim(buf, p, |PipesToks(pipes)|);
    var e' := Skim(buf, e, |Amps(n)|);
    match line
    case Last(_, _) =>
      ReadsSplit(buf, p, PipesToks(pipes), Amps(n));
      Wider(buf, e');
      AmpsStart(buf, e, n);
      SkimStays(buf, e, |Amps(n)|);
      var a := PipesParses(buf, p, pipes);
      c := AmpsParse(buf, e, a, n);
    case More(_, _, rest) =>
      ReadsSplit(buf, p, PipesToks(pipes), Amps(n) + ([Sym(';')] + LineToks(rest)));
      ReadsSplit(buf, e, Amps(n), [Sym(';')] + LineToks(rest));
      ReadsOne(buf, e', Sym(';'), LineToks(rest));
      Closing(buf, e', ';', ");");
      AmpsStart(buf, e, n);
      var a := PipesParses(buf, p, pipes);
      var b := AmpsParse(buf, e, a, n);
      var d := LineParses(buf, Next(buf, e'), rest);
      c := List(b, d);
  }

  // ---------------------------------------------------------------- nothing else parses

  lemma Progress(buf: string, p: nat)
    requires p <= |buf| && Kind(buf, p) != NUL
    ensures Next(buf, p) > p
  {
  }

  // The token at p as the grammar has it
  lemma ArrowOf(buf: string, p: nat)
    requires p <= |buf| && (Kind(buf, p) == '<' || Kind(buf, p) == '>' || Kind(buf, p) == '+')
    ensures Matches(buf, p, Arrow(ModeOf(Kind(buf, p))))
  {
    hide Kind;
  }

  lemma {:induction false} TargetsAccepted(buf: string, p: nat, rs: seq<Redirection>) returns (targets: seq<Target>)
    requires p <= |buf| && Redirs(buf, p, rs).Ok?
    ensures Reads(buf, p, TargetToks(targets)) && Redirs(buf, p, rs).pos == Skim(buf, p, |TargetToks(targets)|)
    ensures Files(buf, Redirs(buf, p, rs).value) == Files(buf, rs) + targets
    decreases |buf| - p
  {
    hide Kind, Lexeme, Next, Skip, Redirs, Files, Text, ModeOf, Arrow;
    RedirsStep(buf, p, rs);
    if Kind(buf, p) == '<' || Kind(buf, p) == '>' || Kind(buf, p) == '+' {
      var q := Next(buf, p);
      var r := Redirection(Lexeme(buf, q), ModeOf(Kind(buf, p)));
      var x := Target(Text(buf, r.file), r.mode);
      Progress(buf, p);
      ArrowOf(buf, p);
      var rest := TargetsAccepted(buf, Next(buf, q), rs + [r]);
      targets := [x] + rest;
      TargetRead(buf, p, x, TargetToks(rest));
      assert targets[1..] == rest;
      FilesMore(buf, rs, r);
    } else {
      targets := [];
      assert Files(buf, rs) + [] == Files(buf, rs);
    }
  }

  lemma TargetRead(buf: string, p: nat, x: Target, rest: seq<Tok>)
    requires p <= |buf| && Matches(buf, p, Arrow(x.mode)) && Matches(buf, Next(buf, p), Name(x.file))
    requires Reads(buf, Next(buf, Next(buf, p)), rest)
    ensures Reads(buf, p, [Arrow(x.mode), Name(x.file)] + rest)
    ensures Skim(buf, p, |[Arrow(x.mode), Name(x.file)] + rest|) == Skim(buf, Next(buf, Next(buf, p)), |rest|)
  {
    hide Next, Matches, Reads, Skim, Arrow;
    assert [Arrow(x.mode), Name(x.file)] + rest == [Arrow(x.mode)] + ([Name(x.file)] + rest);
    ReadsOne(buf, p, Arrow(x.mode), [Name(x.file)] + rest);
    ReadsOne(buf, Next(buf, p), Name(x.file), rest);
  }

  lemma {:induction false} ItemsAccepted(buf: string, p: nat, argv: seq<Word>, rs: seq<Redirection>)
    returns (items: seq<Item>, argv': seq<Word>, rs': seq<Redirection>)
    requires CText(buf) && p <= |buf| && Rest(buf, p, argv, rs).Ok? && |argv| < MAXARGS
    ensures Reads(buf, p, ItemToks(items)) && |argv| + |ArgTexts(items)| < MAXARGS
    ensures Rest(buf, p, argv, rs) == Ok(Wrap(Exec(argv'), rs'), Skim(buf, p, |ItemToks(items)|))
    ensures Texts(buf, argv') == Texts(buf, argv) + ArgTexts(items)
    ensures Files(buf, rs') == Files(buf, rs) + Targets(items)
    decreases |buf| - p
  {
    hide Kind, Lexeme, Next, Skip, Rest, Reads, Texts, Files, Redirs, Text, ModeOf, Arrow, Wrap, CText;
    hide ItemToks, ArgTexts, Targets;
    if Kind(buf, p) == '<' || Kind(buf, p) == '>' || Kind(buf, p) == '+' {
      var q := Next(buf, p);
      var r := Redirection(Lexeme(buf, q), ModeOf(Kind(buf, p)));
      var x := Target(Text(buf, r.file), r.mode);
      Progress(buf, p);
      ArrowOf(buf, p);
      RestTarget(buf, p, argv, rs);
      var rest;
      rest, argv', rs' := ItemsAccepted(buf, Next(buf, q), argv, rs + [r]);
      items := [Into(x)] + rest;
      assert items[1..] == rest;
      ItemsApart(items);
      TargetRead(buf, p, x, ItemToks(rest));
      FilesMore(buf, rs, r);
      assert Files(buf, rs) + [x] + Targets(rest) == Files(buf, rs) + ([x] + Targets(rest));
    } else {
      RestStep(buf, p, argv, rs);
      if Follows(buf, p, "|)&;") {
        items, argv', rs' := [], argv, rs;
        ItemsApart(items);
        ReadsNone(buf, p);
        assert Texts(buf, argv) + [] == Texts(buf, argv) && Files(buf, rs) + [] == Files(buf, rs);
      } else {
        var w := Lexeme(buf, p);
        Progress(buf, p);
        var rest;
        rest, argv', rs' := ItemsAccepted(buf, Next(buf, p), argv + [w], rs);
        items := [Arg(Text(buf, w))] + rest;
        assert items[1..] == rest;
        ItemsApart(items);
        ReadsOne(buf, p, Name(Text(buf, w)), ItemToks(rest));
        TextsMore(buf, argv, w);
        assert Texts(buf, argv) + [Text(buf, w)] + ArgTexts(rest) ==
          Texts(buf, argv) + ([Text(buf, w)] + ArgTexts(rest));
      }
    }
  }

  lemma ReadsNone(buf: string, p: nat)
    requires p <= |buf|
    ensures Reads(buf, p, []) && Skim(buf, p, 0) == Skip(buf, p)
  {
  }

  lemma RestTarget(buf: string, p: nat, argv: seq<Word>, rs: seq<Redirection>)
    requires p <= |buf| && (Kind(buf, p) == '<' || Kind(buf, p) == '>' || Kind(buf, p) == '+')
    requires Rest(buf, p, argv, rs).Ok?
    ensures var q := Next(buf, p);
            && Kind(buf, q) == 'a'
            && Rest(buf, p, argv, rs) ==
               Rest(buf, Next(buf, q), argv, rs + [Redirection(Lexeme(buf, q), ModeOf(Kind(buf, p)))])
  {
    hide Kind, Lexeme, Next, Redirs, ModeOf;
    RedirsStep(buf, p, rs);
  }

  lemma {:induction false} PartAccepted(buf: string, p: nat) returns (part: Part)
    requires CText(buf) && p <= |buf| && ExecAt(buf, p).Ok?
    ensures Reads(buf, p, PartToks(part)) && ExecAt(buf, p).pos == Skim(buf, p, |PartToks(part)|)
    ensures FitsPart(part) && TreeOf(buf, ExecAt(buf, p).value) == PartTree(part)
    decreases |buf| - p, 0
  {
    hide Kind, Lexeme, Next, Skip, Reads, Skim, ItemToks, ArgTexts, Targets, CText, Wrap, TreeOf, Files, Rest;
    hide LineToks, TargetToks, LineTree, FitsLine, ExecAt, BlockAt, LineAt, Redirs, Redirected;
    ExecPlain(buf, p);
    if Kind(buf, p) != '(' {
      part := PlainAccepted(buf, p);
    } else {
      BlockStep(buf, p);
      Progress(buf, p);
      var q := Next(buf, p);
      var body := LineAccepted(buf, q);
      var e := LineAt(buf, q).pos;
      var targets := TargetsAccepted(buf, Next(buf, e), []);
      part := Block(body, targets);
      var b := [Sym(')')] + TargetToks(targets);
      ReadsOne(buf, p, Sym('('), LineToks(body) + b);
      ReadsSplit(buf, q, LineToks(body), b);
      ReadsOne(buf, e, Sym(')'), TargetToks(targets));
      WrapTree(buf, LineAt(buf, q).value, Redirs(buf, Next(buf, e), []).value);
      assert Files(buf, []) + targets == targets;
    }
  }

  lemma {:induction false} PlainAccepted(buf: string, p: nat) returns (part: Part)
    requires CText(buf) && p <= |buf| && Rest(buf, p, [], []).Ok?
    ensures Reads(buf, p, PartToks(part)) && Rest(buf, p, [], []).pos == Skim(buf, p, |PartToks(part)|)
    ensures FitsPart(part) && TreeOf(buf, Rest(buf, p, [], []).value) == PartTree(part)
  {
    hide Reads, Skim, ItemToks, ArgTexts, Targets, CText, Wrap, Files, Rest, Redirected;
    var items, argv, rs := ItemsAccepted(buf, p, [], []);
    part := Plain(items);
    WrapTree(buf, Exec(argv), rs);
    assert Texts(buf, []) + ArgTexts(items) == ArgTexts(items) && Files(buf, []) + Targets(items) == Targets(items);
  }

  lemma {:induction false} PipesAccepted(buf: string, p: nat) returns (pipes: Pipes)
    requires CText(buf) && p <= |buf| && PipeAt(buf, p).Ok?
    ensures Reads(buf, p, PipesToks(pipes)) && PipeAt(buf, p).pos == Skim(buf, p, |PipesToks(pipes)|)
    ensures FitsPipes(pipes) && TreeOf(buf, PipeAt(buf, p).value) == PipesTree(pipes)
    decreases |buf| - p, 1
  {
    hide Kind, Lexeme, Next, Skip, Reads, Skim, CText;
    hide PartToks, PartTree, FitsPart, ExecAt, PipeAt;
    PipeStep(buf, p);
    var part := PartAccepted(buf, p);
    var e := ExecAt(buf, p).pos;
    SkimStays(buf, p, |PartToks(part)|);
    if Kind(buf, e) == '|' {
      Progress(buf, e);
      var rest := PipesAccepted(buf, Next(buf, e));
      pipes := Join(part, rest);
      ReadsSplit(buf, p, PartToks(part), [Sym('|')] + PipesToks(rest));
      ReadsOne(buf, e, Sym('|'), PipesToks(rest));
    } else {
      pipes := One(part);
    }
  }

  lemma {:induction false} AmpsAccepted(buf: string, p: nat, c: Cmd) returns (n: nat)
    requires p <= |buf|
    ensures Reads(buf, p, Amps(n)) && Backs(buf, p, c).1 == Skim(buf, p, |Amps(n)|)
    ensures TreeOf(buf, Backs(buf, p, c).0) == InBackground(TreeOf(buf, c), n)
    decreases |buf| - p
  {
    hide Kind, Lexeme, Next, Skip, Backs;
    BackStep(buf, p, c);
    if Kind(buf, p) == '&' {
      Progress(buf, p);
      var m := AmpsAccepted(buf, Next(buf, p), Back(c));
      n := m + 1;
      ReadsOne(buf, p, Sym('&'), Amps(m));
    } else {
      n := 0;
    }
  }

  lemma {:induction false} LineAccepted(buf: string, p: nat) returns (line: Line)
    requires CText(buf) && p <= |buf| && LineAt(buf, p).Ok?
    ensures Reads(buf, p, LineToks(line)) && LineAt(buf, p).pos == Skim(buf, p, |LineToks(line)|)
    ensures FitsLine(line) && TreeOf(buf, LineAt(buf, p).value) == LineTree(line)
    decreases |buf| - p, 2
  {
    hide Kind, Lexeme, Next, Skip, Reads, Skim, CText;
    hide PipesToks, PipesTree, FitsPipes, PipeAt, LineAt, Amps, InBackground, Backs;
    LineStep(buf, p);
    var pipes := PipesAccepted(buf, p);
    var e, a := PipeAt(buf, p).pos, PipeAt(buf, p).value;
    var n := AmpsAccepted(buf, e, a);
    var e' := Backs(buf, e, a).1;
    SkimStays(buf, e, |Amps(n)|);
    if Kind(buf, e') == ';' {
      Progress(buf, e');
      var rest := LineAccepted(buf, Next(buf, e'));
      line := More(pipes, n, rest);
      ReadsSplit(buf, p, PipesToks(pipes), Amps(n) + ([Sym(';')] + LineToks(rest)));
      ReadsSplit(buf, e, Amps(n), [Sym(';')] + LineToks(rest));
      ReadsOne(buf, e', Sym(';'), LineToks(rest));
    } else {
      line := Last(pipes, n);
      ReadsSplit(buf, p, PipesToks(pipes), Amps(n));
    }
  }

  // ---------------------------------------------------------------- the language

  // The whole text is the line, which fits the argument vector.
  ghost predicate Spells(buf: string, line: Line) {
    FitsLine(line) && Reads(buf, 0, LineToks(line)) && Skim(buf, 0, |LineToks(line)|) == |buf|
  }

  // parsecmd of any text that is a line gives the meaning of the line.
  lemma LineMeans(buf: string, line: Line) returns (c: Cmd)
    requires CText(buf) && Spells(buf, line)
    ensures Command(buf) == Ok(c, |buf|) && TreeOf(buf, c) == LineTree(line)
  {
    hide LineToks, LineTree, FitsLine, Reads, Skim, LineAt;
    assert Kind(buf, |buf|) == NUL;
    c := LineParses(buf, 0, line);
  }

  // parsecmd accepts a text if and only if it is a line; otherwise it panics.
  lemma Language(buf: string)
    requires CText(buf)
    ensures Command(buf).Ok? <==> exists line :: Spells(buf, line)
  {
    if Command(buf).Ok? {
      var line := LineAccepted(buf, 0);
      SkimStays(buf, 0, |LineToks(line)|);
      assert Spells(buf, line);
    }
    if line :| Spells(buf, line) {
      var c := LineMeans(buf, line);
    }
  }

  // ---------------------------------------------------------------- characters

  function Spelling(t: Tok): string {
    match t
    case Sym(c) => if c == '+' then ">>" else [c]
    case Name(w) => w
  }

  // White space, a token, white space, a token, ...
  function Layout(toks: seq<Tok>, gaps: seq<string>): string
    requires |gaps| == |toks| + 1
    decreases |toks|
  {
    if toks == [] then gaps[0] else gaps[0] + Spelling(toks[0]) + Layout(toks[1..], gaps[1..])
  }

  ghost predicate Blank(g: string) {
    forall i :: 0 <= i < |g| ==> g[i] in " \t\r\n\U{0B}"
  }

  // Two words need white space between them, and so does ">" before another.
  predicate Clash(a: Tok, b: Tok) {
    (a.Name? && b.Name?) || (a == Sym('>') && (b == Sym('>') || b == Sym('+')))
  }

  ghost predicate LegalGaps(toks: seq<Tok>, gaps: seq<string>) {
    && |gaps| == |toks| + 1
    && (forall i :: 0 <= i < |gaps| ==> Blank(gaps[i]))
    && (forall i :: 0 <= i < |toks| - 1 && Clash(toks[i], toks[i + 1]) ==> gaps[i + 1] != "")
  }

  lemma {:induction false} SkipBlank(buf: string, p: nat, q: nat)
    requires p <= q <= |buf| && (forall i :: p <= i < q ==> IsSpace(buf[i])) && !IsSpace(CharAt(buf, q))
    ensures SkipSpace(buf, p) == q
    decreases q - p
  {
    if p < q {
      SkipBlank(buf, p + 1, q);
    }
  }

  lemma {:induction false} WordStops(buf: string, p: nat, q: nat)
    requires p <= q <= |buf| && (forall i :: p <= i < q ==> IsWord(buf[i]))
    requires q < |buf| ==> IsSpace(buf[q]) || IsSymbol(buf[q])
    ensures WordEnd(buf, p) == q
    decreases q - p
  {
    if p < q {
      WordStops(buf, p + 1, q);
    }
  }

  // The character behind a token cannot be taken for part of it.
  ghost predicate Bounded(buf: string, e: nat, k: Tok) {
    && (k.Name? ==> e >= |buf| || IsSpace(buf[e]) || IsSymbol(buf[e]))
    && (k == Sym('>') ==> CharAt(buf, e) != '>')
  }

  // gettoken on white space and a token
  lemma LexOne(buf: string, p: nat, g: string, k: Tok)
    requires p + |g| + |Spelling(k)| <= |buf| && buf[p..p + |g|] == g && Blank(g) && LegalTok(k)
    requires buf[p + |g|..p + |g| + |Spelling(k)|] == Spelling(k) && Bounded(buf, p + |g| + |Spelling(k)|, k)
    ensures Matches(buf, p, k) && Next(buf, p) == Skip(buf, p + |g| + |Spelling(k)|)
  {
    var q := p + |g|;
    var e := q + |Spelling(k)|;
    forall i | p <= i < q ensures IsSpace(buf[i]) {
      assert buf[i] == g[i - p];
    }
    assert buf[q] == Spelling(k)[0];
    SkipBlank(buf, p, q);
    match k
    case Name(w) =>
      forall i | q <= i < e ensures IsWord(buf[i]) {
        assert buf[i] == w[i - q];
      }
      WordStops(buf, q, e);
    case Sym(c) =>
      assert c == '+' ==> buf[q + 1] == Spelling(k)[1];
  }

  // What comes next in a layout
  lemma LayoutStart(toks: seq<Tok>, gaps: seq<string>)
    requires |gaps| == |toks| + 1 && LegalToks(toks) && Blank(gaps[0])
    ensures var s := Layout(toks, gaps);
            && (s == "" ==> toks == [] && gaps[0] == "")
            && (s != "" && gaps[0] != "" ==> IsSpace(s[0]))
            && (s != "" && gaps[0] == "" ==> toks != [] && s[0] == Spelling(toks[0])[0])
  {
    if toks != [] {
      assert LegalTok(toks[0]);
    }
  }

  lemma Pieces(buf: string, p: nat, a: string, b: string, c: string)
    requires p <= |buf| && buf[p..] == a + b + c
    ensures var q, e := p + |a|, p + |a| + |b|; e <= |buf| && buf[p..q] == a && buf[q..e] == b && buf[e..] == c
  {
    var q, e := p + |a|, p + |a| + |b|;
    assert buf[p..q] == buf[p..][..|a|];
    assert buf[q..e] == buf[p..][|a|..|a| + |b|];
    assert buf[e..] == buf[p..][|a| + |b|..];
  }

  lemma GapsApart(toks: seq<Tok>, gaps: seq<string>)
    requires LegalToks(toks) && LegalGaps(toks, gaps)
    ensures |gaps| == |toks| + 1 && Blank(gaps[0])
    ensures toks != [] ==>
      && LegalTok(toks[0]) && LegalToks(toks[1..]) && LegalGaps(toks[1..], gaps[1..]) && Blank(gaps[1])
      && (|toks| > 1 && Clash(toks[0], toks[1]) ==> gaps[1] != "")
  {
    hide LegalTok, Blank, Clash;
    if toks != [] {
      var toks', gaps' := toks[1..], gaps[1..];
      assert forall i :: 0 <= i < |toks'| ==> toks'[i] == toks[i + 1];
      assert forall i :: 0 <= i < |gaps'| ==> gaps'[i] == gaps[i + 1];
    }
  }

  lemma {:induction false} Lexes(buf: string, p: nat, toks: seq<Tok>, gaps: seq<string>)
    requires p <= |buf| && LegalToks(toks) && LegalGaps(toks, gaps) && buf[p..] == Layout(toks, gaps)
    ensures Reads(buf, p, toks) && Skim(buf, p, |toks|) == |buf|
    decreases |toks|
  {
    hide Kind, Lexeme, Next, Skip, LegalTok, Spelling, LegalToks, LegalGaps, Blank, Bounded, Matches, Clash;
    GapsApart(toks, gaps);
    if toks == [] {
      LexEnd(buf, p, gaps[0]);
    } else {
      var g, k := gaps[0], toks[0];
      var e := p + |g| + |Spelling(k)|;
      Pieces(buf, p, g, Spelling(k), Layout(toks[1..], gaps[1..]));
      hide Layout;
      LexNext(buf, e, k, toks[1..], gaps[1..]);
      LexOne(buf, p, g, k);
      Lexes(buf, e, toks[1..], gaps[1..]);
      ReadsSkip(buf, e, toks[1..]);
    }
  }

  lemma LexEnd(buf: string, p: nat, g: string)
    requires p <= |buf| && buf[p..] == g && Blank(g)
    ensures Skip(buf, p) == |buf|
  {
    forall i | p <= i < |buf| ensures IsSpace(buf[i]) {
      assert buf[i] == g[i - p];
    }
    SkipBlank(buf, p, |buf|);
  }

  lemma LexNext(buf: string, e: nat, k: Tok, toks: seq<Tok>, gaps: seq<string>)
    requires e <= |buf| && LegalTok(k) && LegalToks(toks) && |gaps| == |toks| + 1 && buf[e..] == Layout(toks, gaps)
    requires Blank(gaps[0]) && (toks != [] && Clash(k, toks[0]) ==> gaps[0] != "")
    ensures Bounded(buf, e, k)
  {
    LayoutStart(toks, gaps);
    if e < |buf| {
      assert buf[e] == buf[e..][0];
      if toks != [] {
        assert LegalTok(toks[0]);
        if toks[0].Name? {
          assert IsWord(toks[0].text[0]);
        }
      }
    }
  }

  lemma {:induction false} LayoutText(toks: seq<Tok>, gaps: seq<string>)
    requires LegalToks(toks) && LegalGaps(toks, gaps)
    ensures CText(Layout(toks, gaps))
    decreases |toks|
  {
    assert Blank(gaps[0]);
    if toks != [] {
      assert LegalTok(toks[0]) && CText(Spelling(toks[0]));
      assert forall i :: 0 <= i < |toks[1..]| ==> toks[1..][i] == toks[i + 1];
      LayoutText(toks[1..], gaps[1..]);
    }
  }

  // Writing and reading: every line, with any white space that keeps its tokens
  // apart, is parsed to its meaning.
  lemma RoundTrip(line: Line, gaps: seq<string>) returns (c: Cmd)
    requires FitsLine(line) && LegalToks(LineToks(line)) && LegalGaps(LineToks(line), gaps)
    ensures var buf := Layout(LineToks(line), gaps);
            Command(buf) == Ok(c, |buf|) && TreeOf(buf, c) == LineTree(line)
  {
    var toks := LineToks(line);
    var buf := Layout(toks, gaps);
    hide LineToks, LineTree, FitsLine, Layout, LegalToks, LegalGaps, Reads, Skim, Command;
    LayoutText(toks, gaps);
    assert buf[0..] == buf;
    Lexes(buf, 0, toks, gaps);
    c := LineMeans(buf, line);
  }

  // ---------------------------------------------------------------- every command can be written

  function ArgItems(args: seq<string>): seq<Item> {
    if args == [] then [] else [Arg(args[0])] + ArgItems(args[1..])
  }

  // A line for the command, with every subcommand in parentheses
  function Written(t: Tree): Line {
    match t
    case Simple(args) => Last(One(Plain(ArgItems(args))), 0)
    case To(c, f, m) => Last(One(Block(Written(c), [Target(f, m)])), 0)
    case Piped(a, b) => Last(Join(Block(Written(a), []), One(Block(Written(b), []))), 0)
    case Then(a, b) => More(One(Block(Written(a), [])), 0, Last(One(Block(Written(b), [])), 0))
    case Behind(c) => Last(One(Block(Written(c), [])), 1)
  }

  lemma {:induction false} ArgItemsBack(args: seq<string>)
    ensures ArgTexts(ArgItems(args)) == args && Targets(ArgItems(args)) == []
    decreases |args|
  {
    if args != [] {
      ArgItemsBack(args[1..]);
      assert ArgItems(args)[1..] == ArgItems(args[1..]);
    }
  }

  // The limit of the argument vector, on trees
  ghost predicate Fits(t: Tree) {
    match t
    case Simple(args) => |args| < MAXARGS
    case To(c, _, _) => Fits(c)
    case Piped(a, b) => Fits(a) && Fits(b)
    case Then(a, b) => Fits(a) && Fits(b)
    case Behind(c) => Fits(c)
  }

  lemma OnePart(part: Part, n: nat)
    ensures LineTree(Last(One(part), n)) == InBackground(PartTree(part), n)
    ensures FitsLine(Last(One(part), n)) <==> FitsPart(part)
  {
  }

  lemma TwoParts(a: Part, b: Part)
    ensures LineTree(Last(Join(a, One(b)), 0)) == Piped(PartTree(a), PartTree(b))
    ensures LineTree(More(One(a), 0, Last(One(b), 0))) == Then(PartTree(a), PartTree(b))
    ensures FitsLine(Last(Join(a, One(b)), 0)) <==> FitsPart(a) && FitsPart(b)
    ensures FitsLine(More(One(a), 0, Last(One(b), 0))) <==> FitsPart(a) && FitsPart(b)
  {
    OnePart(a, 0);
    OnePart(b, 0);
  }

  lemma PlainPart(items: seq<Item>)
    ensures PartTree(Plain(items)) == Redirected(Simple(ArgTexts(items)), Targets(items))
    ensures Targets(items) == [] ==> PartTree(Plain(items)) == Simple(ArgTexts(items))
  {
  }

  lemma BlockPart(body: Line, targets: seq<Target>)
    ensures PartTree(Block(body, targets)) == Redirected(LineTree(body), targets)
    ensures FitsPart(Block(body, targets)) <==> FitsLine(body)
  {
  }

  lemma OneTarget(t: Tree, x: Target)
    ensures Redirected(t, [x]) == To(t, x.file, x.mode) && InBackground(t, 1) == Behind(t)
  {
    assert [x][1..] == [];
    assert Redirected(To(t, x.file, x.mode), []) == To(t, x.file, x.mode);
  }

  // Every command is the meaning of some line.
  lemma {:induction false} WrittenMeans(t: Tree)
    ensures LineTree(Written(t)) == t && (FitsLine(Written(t)) <==> Fits(t))
    decreases t
  {
    match t
    case Simple(args) =>
      ArgItemsBack(args);
      OnePart(Plain(ArgItems(args)), 0);
      PlainPart(ArgItems(args));
    case To(c, f, m) =>
      WrittenMeans(c);
      BlockPart(Written(c), [Target(f, m)]);
      OnePart(Block(Written(c), [Target(f, m)]), 0);
      OneTarget(c, Target(f, m));
    case Piped(a, b) =>
      WrittenMeans(a);
      WrittenMeans(b);
      BlockPart(Written(a), []);
      BlockPart(Written(b), []);
      TwoParts(Block(Written(a), []), Block(Written(b), []));
    case Then(a, b) =>
      WrittenMeans(a);
      WrittenMeans(b);
      BlockPart(Written(a), []);
      BlockPart(Written(b), []);
      TwoParts(Block(Written(a), []), Block(Written(b), []));
    case Behind(c) =>
      WrittenMeans(c);
      BlockPart(Written(c), []);
      OnePart(Block(Written(c), []), 1);
      OneTarget(c, Target("", Read));
  }

  ghost predicate LegalTree(t: Tree) {
    match t
    case Simple(args) => forall i :: 0 <= i < |args| ==> LegalWord(args[i])
    case To(c, f, _) => LegalTree(c) && LegalWord(f)
    case Piped(a, b) => LegalTree(a) && LegalTree(b)
    case Then(a, b) => LegalTree(a) && LegalTree(b)
    case Behind(c) => LegalTree(c)
  }

  lemma {:induction false} ArgsLegal(args: seq<string>)
    requires forall i :: 0 <= i < |args| ==> LegalWord(args[i])
    ensures LegalToks(ItemToks(ArgItems(args)))
    decreases |args|
  {
    if args != [] {
      ArgsLegal(args[1..]);
      assert ArgItems(args)[1..] == ArgItems(args[1..]);
      LegalJoin([Name(args[0])], ItemToks(ArgItems(args[1..])));
    }
  }

  lemma LegalJoin(a: seq<Tok>, b: seq<Tok>)
    requires LegalToks(a) && LegalToks(b)
    ensures LegalToks(a + b)
  {
  }

  lemma LegalBlock(body: Line, targets: seq<Target>)
    requires LegalToks(LineToks(body)) && LegalToks(TargetToks(targets))
    ensures LegalToks(PartToks(Block(body, targets)))
  {
    LegalJoin([Sym(')')], TargetToks(targets));
    LegalJoin(LineToks(body), [Sym(')')] + TargetToks(targets));
  }

  lemma {:induction false} WrittenLegal(t: Tree)
    requires LegalTree(t)
    ensures LegalToks(LineToks(Written(t)))
    decreases t
  {
    hide LegalToks;
    assert LegalToks([]) && LegalToks(Amps(0)) && LegalToks([Sym('|')]) && LegalToks([Sym(';')]) by { Symbols(); }
    match t
    case Simple(args) =>
      ArgsLegal(args);
      LegalLine(Plain(ArgItems(args)), 0);
    case To(c, f, m) =>
      WrittenLegal(c);
      TargetLegal(Target(f, m));
      LegalBlock(Written(c), [Target(f, m)]);
      LegalLine(Block(Written(c), [Target(f, m)]), 0);
    case Piped(a, b) =>
      WrittenLegal(a);
      WrittenLegal(b);
      LegalBlock(Written(a), []);
      LegalBlock(Written(b), []);
      LegalPair(Block(Written(a), []), Block(Written(b), []));
    case Then(a, b) =>
      WrittenLegal(a);
      WrittenLegal(b);
      LegalBlock(Written(a), []);
      LegalBlock(Written(b), []);
      LegalPair(Block(Written(a), []), Block(Written(b), []));
    case Behind(c) =>
      WrittenLegal(c);
      LegalBlock(Written(c), []);
      LegalLine(Block(Written(c), []), 1);
  }

  lemma Symbols()
    ensures LegalToks([]) && LegalToks(Amps(0)) && LegalToks(Amps(1)) && LegalToks([Sym('|')]) && LegalToks([Sym(';')])
  {
    assert Amps(1) == [Sym('&')];
  }

  lemma TargetLegal(x: Target)
    requires LegalWord(x.file)
    ensures LegalToks(TargetToks([x]))
  {
    assert [x][1..] == [];
    assert TargetToks([x]) == [Arrow(x.mode), Name(x.file)];
  }

  lemma LegalLine(part: Part, n: nat)
    requires LegalToks(PartToks(part)) && n < 2
    ensures LegalToks(LineToks(Last(One(part), n)))
  {
    Symbols();
    LegalJoin(PartToks(part), Amps(n));
  }

  lemma LegalPair(a: Part, b: Part)
    requires LegalToks(PartToks(a)) && LegalToks(PartToks(b))
    ensures LegalToks(LineToks(Last(Join(a, One(b)), 0))) && LegalToks(LineToks(More(One(a), 0, Last(One(b), 0))))
  {
    hide LegalToks;
    Symbols();
    LegalLine(b, 0);
    LegalJoin([Sym('|')], PartToks(b));
    LegalJoin(PartToks(a), [Sym('|')] + PartToks(b));
    assert PipesToks(Join(a, One(b))) == PartToks(a) + ([Sym('|')] + PartToks(b));
    LegalJoin(PipesToks(Join(a, One(b))), Amps(0));
    var last := LineToks(Last(One(b), 0));
    LegalJoin([Sym(';')], last);
    LegalJoin(Amps(0), [Sym(';')] + last);
    LegalJoin(PartToks(a), Amps(0) + ([Sym(';')] + last));
  }

  // Single spaces always do.
  lemma SpacesLegal(toks: seq<Tok>)
    ensures LegalGaps(toks, seq(|toks| + 1, _ => " "))
  {
  }

  // Every command with legal words and fewer than MAXARGS arguments comes back
  // from its writing.
  lemma CommandBack(t: Tree, gaps: seq<string>) returns (c: Cmd)
    requires LegalTree(t) && Fits(t) && LegalGaps(LineToks(Written(t)), gaps)
    ensures var buf := Layout(LineToks(Written(t)), gaps); Command(buf) == Ok(c, |buf|) && TreeOf(buf, c) == t
  {
    WrittenMeans(t);
    WrittenLegal(t);
    hide *;
    c := RoundTrip(Written(t), gaps);
  }
}
