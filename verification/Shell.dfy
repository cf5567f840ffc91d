/**
 The shell's parser (user/sh.c). The input is a C string: buf holds its
 characters, none of them NUL, and the NUL is behind the last one. Words are
 kept as positions in the buffer. First what the parser computes, as functions
 of the buffer and a position; then the parser's own loops and recursion,
 proved to compute that.
 */
module Shell {

  const MAXARGS: nat := 10
  const NUL: char := '\0'

  predicate IsSpace(c: char) {
    c == ' ' || c == '\t' || c == '\r' || c == '\n' || c == '\U{0B}'
  }

  predicate IsSymbol(c: char) {
    c in "<|>&;()"
  }

  // A character that a word can hold
  predicate IsWord(c: char) {
    !IsSpace(c) && !IsSymbol(c) && c != NUL
  }

  ghost predicate CText(buf: string) {
    forall i :: 0 <= i < |buf| ==> buf[i] != NUL
  }

  // ---------------------------------------------------------------- tokens

  // *s, also at the end
  function CharAt(buf: string, p: nat): char {
    if p < |buf| then buf[p] else NUL
  }

  function SkipSpace(buf: string, p: nat): (r: nat)
    requires p <= |buf|
    ensures p <= r <= |buf| && !IsSpace(CharAt(buf, r)) && forall i :: p <= i < r ==> IsSpace(buf[i])
    decreases |buf| - p
  {
    if p < |buf| && IsSpace(buf[p]) then SkipSpace(buf, p + 1) else p
  }

  // The end of the word that starts at p
  function WordEnd(buf: string, p: nat): (r: nat)
    requires p <= |buf|
    ensures p <= r <= |buf|
    ensures forall i :: p <= i < r ==> !IsSpace(buf[i]) && !IsSymbol(buf[i])
    ensures r < |buf| ==> IsSpace(buf[r]) || IsSymbol(buf[r])
    decreases |buf| - p
  {
    if p < |buf| && !IsSpace(buf[p]) && !IsSymbol(buf[p]) then WordEnd(buf, p + 1) else p
  }

  datatype Token = Token(kind: char, q: nat, eq: nat, next: nat)

  // gettoken
  function TokenAt(buf: string, p: nat): (t: Token)
    requires p <= |buf|
    ensures p <= t.q <= t.eq <= t.next <= |buf|
    ensures t.kind == 'a' ==> t.q < t.eq && (CText(buf) ==> IsToken(buf, t.q, t.eq))
    ensures CText(buf) ==> (t.kind == NUL <==> t.q == |buf|)
    ensures t.kind != NUL ==> t.next > p
  {
    var q := SkipSpace(buf, p);
    var c := CharAt(buf, q);
    var (kind, eq) :=
      if c == NUL then (NUL, q)
      else if c == '>' then (if CharAt(buf, q + 1) == '>' then ('+', q + 2) else ('>', q + 1))
      else if IsSymbol(c) then (c, q + 1)
      else ('a', WordEnd(buf, q));
    Token(kind, q, eq, SkipSpace(buf, eq))
  }

  // buf[q..eq] is a word and cannot be longer.
  ghost predicate IsToken(buf: string, q: nat, eq: nat) {
    && q < eq <= |buf| && (forall i :: q <= i < eq ==> IsWord(buf[i]))
    && (eq < |buf| ==> !IsWord(buf[eq]))
  }

  // peek
  function Sees(buf: string, p: nat, toks: string): bool
    requires p <= |buf|
  {
    var c := CharAt(buf, SkipSpace(buf, p));
    c != NUL && c in toks
  }

  // ---------------------------------------------------------------- commands

  datatype Word = Word(q: nat, eq: nat)

  datatype Mode = Read | Truncate | Append    // "<", ">", ">>"

  datatype Cmd =
    | Exec(argv: seq<Word>)
    | Redir(cmd: Cmd, file: Word, mode: Mode)
    | Pipe(left: Cmd, right: Cmd)
    | List(left: Cmd, right: Cmd)
    | Back(cmd: Cmd)

  datatype Error = MissingFile | MissingParen | NotABlock | Syntax | TooManyArgs | Leftovers

  // Where the parser is, or its panic
  datatype Result<T> = Ok(value: T, pos: nat) | Panic(error: Error)

  datatype Redirection = Redirection(file: Word, mode: Mode)

  // parseredirs wraps the command so far; execcmd goes on being filled inside.
  function Wrap(c: Cmd, rs: seq<Redirection>): Cmd
    decreases |rs|
  {
    if rs == [] then c else Redir(Wrap(c, rs[..|rs| - 1]), rs[|rs| - 1].file, rs[|rs| - 1].mode)
  }

  // ---------------------------------------------------------------- the grammar

  function ModeOf(kind: char): Mode {
    if kind == '<' then Read else if kind == '>' then Truncate else Append
  }

  // The redirections from p on, added to rs
  function Redirs(buf: string, p: nat, rs: seq<Redirection>): (r: Result<seq<Redirection>>)
    requires p <= |buf|
    ensures r.Ok? ==> p <= r.pos <= |buf|
    decreases |buf| - p
  {
    if !Sees(buf, p, "<>") then Ok(rs, SkipSpace(buf, p))
    else var t := TokenAt(buf, p);
         var f := TokenAt(buf, t.next);
         if f.kind != 'a' then Panic(MissingFile)
         else Redirs(buf, f.next, rs + [Redirection(Word(f.q, f.eq), ModeOf(t.kind))])
  }

  // The words and redirections of a simple command from p on
  function Args(buf: string, p: nat, argv: seq<Word>, rs: seq<Redirection>): (r: Result<Cmd>)
    requires p <= |buf|
    ensures r.Ok? ==> p <= r.pos <= |buf|
    decreases |buf| - p
  {
    if Sees(buf, p, "|)&;") then Ok(Wrap(Exec(argv), rs), SkipSpace(buf, p))
    else var t := TokenAt(buf, p);
         if t.kind == NUL then Ok(Wrap(Exec(argv), rs), t.next)
         else if t.kind != 'a' then Panic(Syntax)
         else if |argv| + 1 >= MAXARGS then Panic(TooManyArgs)
         else match Redirs(buf, t.next, rs)
              case Panic(e) => Panic(e)
              case Ok(rs', p') => Args(buf, p', argv + [Word(t.q, t.eq)], rs')
  }

  function ExecAt(buf: string, p: nat): (r: Result<Cmd>)
    requires p <= |buf|
    ensures r.Ok? ==> p <= r.pos <= |buf|
    decreases |buf| - p, 1
  {
    if Sees(buf, p, "(") then BlockAt(buf, p)
    else match Redirs(buf, p, [])
         case Panic(e) => Panic(e)
         case Ok(rs, p') => Args(buf, p', [], rs)
  }

  function BlockAt(buf: string, p: nat): (r: Result<Cmd>)
    requires p <= |buf|
    ensures r.Ok? ==> p <= r.pos <= |buf|
    decreases |buf| - p, 0
  {
    if !Sees(buf, p, "(") then Panic(NotABlock)
    else match LineAt(buf, TokenAt(buf, p).next)
         case Panic(e) => Panic(e)
         case Ok(c, p') =>
           if !Sees(buf, p', ")") then Panic(MissingParen)
           else match Redirs(buf, TokenAt(buf, p').next, [])
                case Panic(e) => Panic(e)
                case Ok(rs, p'') => Ok(Wrap(c, rs), p'')
  }

  function PipeAt(buf: string, p: nat): (r: Result<Cmd>)
    requires p <= |buf|
    ensures r.Ok? ==> p <= r.pos <= |buf|
    decreases |buf| - p, 2
  {
    match ExecAt(buf, p)
    case Panic(e) => Panic(e)
    case Ok(c, p') =>
      if !Sees(buf, p', "|") then Ok(c, SkipSpace(buf, p'))
      else match PipeAt(buf, TokenAt(buf, p').next)
           case Panic(e) => Panic(e)
           case Ok(d, p'') => Ok(Pipe(c, d), p'')
  }

  // The "&"s from p on
  function Backs(buf: string, p: nat, c: Cmd): (r: (Cmd, nat))
    requires p <= |buf|
    ensures p <= r.1 <= |buf|
    decreases |buf| - p
  {
    if Sees(buf, p, "&") then Backs(buf, TokenAt(buf, p).next, Back(c)) else (c, SkipSpace(buf, p))
  }

  function LineAt(buf: string, p: nat): (r: Result<Cmd>)
    requires p <= |buf|
    ensures r.Ok? ==> p <= r.pos <= |buf|
    decreases |buf| - p, 3
  {
    match PipeAt(buf, p)
    case Panic(e) => Panic(e)
    case Ok(c0, p0) =>
      var (c, p') := Backs(buf, p0, c0);
      if !Sees(buf, p', ";") then Ok(c, SkipSpace(buf, p'))
      else match LineAt(buf, TokenAt(buf, p').next)
           case Panic(e) => Panic(e)
           case Ok(d, p'') => Ok(List(c, d), p'')
  }

  // parsecmd, before nulterminate
  function Command(buf: string): Result<Cmd> {
    match LineAt(buf, 0)
    case Panic(e) => Panic(e)
    case Ok(c, p) => if SkipSpace(buf, p) == |buf| then Ok(c, |buf|) else Panic(Leftovers)
  }

  // ---------------------------------------------------------------- the parser

  // while(s < es && strchr(whitespace, *s)) s++;
  method SkipLoop(buf: string, p: nat) returns (s: nat)
    requires p <= |buf|
    ensures s == SkipSpace(buf, p)
  {
    s := p;
    while s < |buf| && IsSpace(buf[s])
      invariant p <= s <= |buf| && SkipSpace(buf, s) == SkipSpace(buf, p)
    {
      s := s + 1;
    }
  }

  method WordLoop(buf: string, p: nat) returns (s: nat)
    requires p <= |buf|
    ensures s == WordEnd(buf, p)
  {
    s := p;
    while s < |buf| && !IsSpace(buf[s]) && !IsSymbol(buf[s])
      invariant p <= s <= |buf| && WordEnd(buf, s) == WordEnd(buf, p)
    {
      s := s + 1;
    }
  }

  method GetToken(buf: string, p: nat) returns (t: Token)
    requires p <= |buf|
    ensures t == TokenAt(buf, p)
  {
    var s := SkipLoop(buf, p);
    var q, kind := s, CharAt(buf, s);
    if kind == NUL {
    } else if kind in "|();&<" {
      s := s + 1;
    } else if kind == '>' {
      s := s + 1;
      if CharAt(buf, s) == '>' {
        kind := '+';
        s := s + 1;
      }
    } else {
      kind := 'a';
      s := WordLoop(buf, s);
    }
    var next := SkipLoop(buf, s);
    return Token(kind, q, s, next);
  }

  method Peek(buf: string, p: nat, toks: string) returns (b: bool, next: nat)
    requires p <= |buf|
    ensures b == Sees(buf, p, toks) && next == SkipSpace(buf, p)
  {
    next := SkipLoop(buf, p);
    b := CharAt(buf, next) != NUL && CharAt(buf, next) in toks;
  }

  // Spaces before a token do not matter.
  lemma Skipped(buf: string, p: nat, toks: string)
    requires p <= |buf|
    ensures SkipSpace(buf, SkipSpace(buf, p)) == SkipSpace(buf, p)
    ensures Sees(buf, SkipSpace(buf, p), toks) == Sees(buf, p, toks)
    ensures TokenAt(buf, SkipSpace(buf, p)) == TokenAt(buf, p)
  {
  }

  method ParseRedirs(buf: string, p0: nat, rs0: seq<Redirection>) returns (r: Result<seq<Redirection>>)
    requires p0 <= |buf|
    ensures r == Redirs(buf, p0, rs0)
  {
    var p, rs := p0, rs0;
    while true
      invariant p0 <= p <= |buf| && Redirs(buf, p, rs) == Redirs(buf, p0, rs0)
      decreases |buf| - p
    {
      var b, s := Peek(buf, p, "<>");
      Skipped(buf, p, "<>");
      if !b { return Ok(rs, s); }
      var t := GetToken(buf, s);
      var f := GetToken(buf, t.next);
      if f.kind != 'a' { return Panic(MissingFile); }
      p, rs := f.next, rs + [Redirection(Word(f.q, f.eq), ModeOf(t.kind))];
    }
  }

  method ParseExec(buf: string, p0: nat) returns (r: Result<Cmd>)
    requires p0 <= |buf|
    ensures r == ExecAt(buf, p0)
    decreases |buf| - p0, 1
  {
    var block, p := Peek(buf, p0, "(");
    Skipped(buf, p0, "(");
    SkippedRedirs(buf, p0, []);
    if block {
      SkippedBlock(buf, p0);
      r := ParseBlock(buf, p);
      return;
    }
    var rr := ParseRedirs(buf, p, []);
    if rr.Panic? { return Panic(rr.error); }
    var argv, rs: seq<Redirection> := [], rr.value;
    p := rr.pos;
    while true
      invariant p <= |buf| && Args(buf, p, argv, rs) == ExecAt(buf, p0)
      decreases |buf| - p
    {
      var stop, s := Peek(buf, p, "|)&;");
      Skipped(buf, p, "|)&;");
      if stop { return Ok(Wrap(Exec(argv), rs), s); }
      var t := GetToken(buf, s);
      if t.kind == NUL { return Ok(Wrap(Exec(argv), rs), t.next); }
      if t.kind != 'a' { return Panic(Syntax); }
      if |argv| + 1 >= MAXARGS { return Panic(TooManyArgs); }
      rr := ParseRedirs(buf, t.next, rs);
      if rr.Panic? { return Panic(rr.error); }
      p, argv, rs := rr.pos, argv + [Word(t.q, t.eq)], rr.value;
    }
  }

  lemma SkippedRedirs(buf: string, p: nat, rs: seq<Redirection>)
    requires p <= |buf|
    ensures Redirs(buf, SkipSpace(buf, p), rs) == Redirs(buf, p, rs)
  {
    Skipped(buf, p, "<>");
  }

  lemma SkippedBlock(buf: string, p: nat)
    requires p <= |buf|
    ensures BlockAt(buf, SkipSpace(buf, p)) == BlockAt(buf, p)
  {
    Skipped(buf, p, "(");
  }

  method ParseBlock(buf: string, p0: nat) returns (r: Result<Cmd>)
    requires p0 <= |buf|
    ensures r == BlockAt(buf, p0)
    decreases |buf| - p0, 0
  {
    var open, p := Peek(buf, p0, "(");
    Skipped(buf, p0, "(");
    if !open { return Panic(NotABlock); }
    var t := GetToken(buf, p);
    var line := ParseLine(buf, t.next);
    if line.Panic? { return line; }
    var close, s := Peek(buf, line.pos, ")");
    Skipped(buf, line.pos, ")");
    if !close { return Panic(MissingParen); }
    t := GetToken(buf, s);
    var rr := ParseRedirs(buf, t.next, []);
    if rr.Panic? { return Panic(rr.error); }
    return Ok(Wrap(line.value, rr.value), rr.pos);
  }

  method ParsePipe(buf: string, p0: nat) returns (r: Result<Cmd>)
    requires p0 <= |buf|
    ensures r == PipeAt(buf, p0)
    decreases |buf| - p0, 2
  {
    r := ParseExec(buf, p0);
    if r.Panic? { return; }
    var bar, p := Peek(buf, r.pos, "|");
    Skipped(buf, r.pos, "|");
    if !bar { return Ok(r.value, p); }
    var t := GetToken(buf, p);
    var right := ParsePipe(buf, t.next);
    if right.Panic? { return right; }
    return Ok(Pipe(r.value, right.value), right.pos);
  }

  method ParseLine(buf: string, p0: nat) returns (r: Result<Cmd>)
    requires p0 <= |buf|
    ensures r == LineAt(buf, p0)
    decreases |buf| - p0, 3
  {
    r := ParsePipe(buf, p0);
    if r.Panic? { return; }
    var c, p := r.value, r.pos;
    while true
      invariant r.pos <= p <= |buf| && Backs(buf, p, c) == Backs(buf, r.pos, r.value)
      decreases |buf| - p
    {
      var amp, s := Peek(buf, p, "&");
      Skipped(buf, p, "&");
      if !amp {
        p := s;
        break;
      }
      var t := GetToken(buf, s);
      p, c := t.next, Back(c);
    }
    var semi, s := Peek(buf, p, ";");
    if !semi { return Ok(c, s); }
    Skipped(buf, p, ";");
    var t := GetToken(buf, s);
    var rest := ParseLine(buf, t.next);
    if rest.Panic? { return rest; }
    return Ok(List(c, rest.value), rest.pos);
  }

  // ---------------------------------------------------------------- nulterminate

  // The positions right behind the words of a command
  function Ends(c: Cmd): set<nat> {
    match c
    case Exec(argv) => set w | w in argv :: w.eq
    case Redir(d, f, _) => Ends(d) + {f.eq}
    case Pipe(a, b) => Ends(a) + Ends(b)
    case List(a, b) => Ends(a) + Ends(b)
    case Back(d) => Ends(d)
  }

  ghost predicate HasWord(c: Cmd, w: Word) {
    match c
    case Exec(argv) => w in argv
    case Redir(d, f, _) => HasWord(d, w) || w == f
    case Pipe(a, b) => HasWord(a, w) || HasWord(b, w)
    case List(a, b) => HasWord(a, w) || HasWord(b, w)
    case Back(d) => HasWord(d, w)
  }

  lemma EndIsEnd(c: Cmd, w: Word)
    requires HasWord(c, w)
    ensures w.eq in Ends(c)
  {
  }

  lemma {:induction false} EndOfWord(c: Cmd, e: nat) returns (w: Word)
    requires e in Ends(c)
    ensures HasWord(c, w) && w.eq == e
  {
    match c
    case Exec(argv) => w :| w in argv && w.eq == e;
    case Redir(d, f, _) => if f.eq == e { w := f; } else { w := EndOfWord(d, e); }
    case Pipe(a, b) => if e in Ends(a) { w := EndOfWord(a, e); } else { w := EndOfWord(b, e); }
    case List(a, b) => if e in Ends(a) { w := EndOfWord(a, e); } else { w := EndOfWord(b, e); }
    case Back(d) => w := EndOfWord(d, e);
  }

  // The array with NUL at the positions in e
  ghost predicate Cleared(s: seq<char>, t: seq<char>, e: set<nat>) {
    |s| == |t| && forall i: nat :: i < |s| ==> t[i] == if i in e then NUL else s[i]
  }

  lemma ClearedTwice(s: seq<char>, t: seq<char>, u: seq<char>, e: set<nat>, f: set<nat>)
    requires Cleared(s, t, e) && Cleared(t, u, f)
    ensures Cleared(s, u, e + f)
  {
  }

  method NulTerminate(a: array<char>, c: Cmd)
    requires forall e :: e in Ends(c) ==> e < a.Length
    modifies a
    ensures Cleared(old(a[..]), a[..], Ends(c))
    decreases c
  {
    match c
    case Exec(argv) => {
      ghost var e: set<nat> := {};
      for i := 0 to |argv|
        invariant Cleared(old(a[..]), a[..], e)
        invariant e == set k: nat | k < i :: argv[k].eq
      {
        assert argv[i].eq in Ends(c);
        a[argv[i].eq] := NUL;
        e := e + {argv[i].eq};
      }
      assert e == Ends(c);
    }
    case Redir(d, f, _) => {
      assert Ends(c) == Ends(d) + {f.eq};
      NulTerminate(a, d);
      ghost var t := a[..];
      a[f.eq] := NUL;
      ClearedTwice(old(a[..]), t, a[..], Ends(d), {f.eq});
    }
    case Pipe(x, y) => {
      assert Ends(c) == Ends(x) + Ends(y);
      NulTerminate(a, x);
      ghost var t := a[..];
      NulTerminate(a, y);
      ClearedTwice(old(a[..]), t, a[..], Ends(x), Ends(y));
    }
    case List(x, y) => {
      assert Ends(c) == Ends(x) + Ends(y);
      NulTerminate(a, x);
      ghost var t := a[..];
      NulTerminate(a, y);
      ClearedTwice(old(a[..]), t, a[..], Ends(x), Ends(y));
    }
    case Back(d) => {
      assert Ends(c) == Ends(d);
      NulTerminate(a, d);
    }
  }

  // ---------------------------------------------------------------- stored words

  ghost predicate Tokens(buf: string, c: Cmd) {
    forall w :: HasWord(c, w) ==> IsToken(buf, w.q, w.eq)
  }

  ghost predicate FilesOk(buf: string, rs: seq<Redirection>) {
    forall i :: 0 <= i < |rs| ==> IsToken(buf, rs[i].file.q, rs[i].file.eq)
  }

  lemma {:induction false} WrapTokens(buf: string, c: Cmd, rs: seq<Redirection>)
    requires Tokens(buf, c) && FilesOk(buf, rs)
    ensures Tokens(buf, Wrap(c, rs))
    decreases |rs|
  {
    if rs != [] {
      WrapTokens(buf, c, rs[..|rs| - 1]);
    }
  }

  lemma {:induction false} RedirsTokens(buf: string, p: nat, rs: seq<Redirection>)
    requires CText(buf) && p <= |buf| && FilesOk(buf, rs)
    ensures Redirs(buf, p, rs).Ok? ==> FilesOk(buf, Redirs(buf, p, rs).value)
    decreases |buf| - p
  {
    if Sees(buf, p, "<>") {
      var t := TokenAt(buf, p);
      var f := TokenAt(buf, t.next);
      if f.kind == 'a' {
        RedirsTokens(buf, f.next, rs + [Redirection(Word(f.q, f.eq), ModeOf(t.kind))]);
      }
    }
  }

  lemma {:induction false} ArgsTokens(buf: string, p: nat, argv: seq<Word>, rs: seq<Redirection>)
    requires CText(buf) && p <= |buf| && Tokens(buf, Exec(argv)) && FilesOk(buf, rs)
    ensures Args(buf, p, argv, rs).Ok? ==> Tokens(buf, Args(buf, p, argv, rs).value)
    decreases |buf| - p
  {
    WrapTokens(buf, Exec(argv), rs);
    if !Sees(buf, p, "|)&;") {
      var t := TokenAt(buf, p);
      if t.kind == 'a' && |argv| + 1 < MAXARGS {
        RedirsTokens(buf, t.next, rs);
        var rr := Redirs(buf, t.next, rs);
        if rr.Ok? {
          assert Tokens(buf, Exec(argv + [Word(t.q, t.eq)])) by {
            forall w | HasWord(Exec(argv + [Word(t.q, t.eq)]), w) ensures IsToken(buf, w.q, w.eq) {
              assert w != Word(t.q, t.eq) ==> HasWord(Exec(argv), w);
            }
          }
          ArgsTokens(buf, rr.pos, argv + [Word(t.q, t.eq)], rr.value);
        }
      }
    }
  }

  lemma {:induction false} ExecTokens(buf: string, p: nat)
    requires CText(buf) && p <= |buf|
    ensures ExecAt(buf, p).Ok? ==> Tokens(buf, ExecAt(buf, p).value)
    decreases |buf| - p, 1
  {
    if Sees(buf, p, "(") {
      BlockTokens(buf, p);
    } else {
      RedirsTokens(buf, p, []);
      var rr := Redirs(buf, p, []);
      if rr.Ok? {
        ArgsTokens(buf, rr.pos, [], rr.value);
      }
    }
  }

  lemma {:induction false} BlockTokens(buf: string, p: nat)
    requires CText(buf) && p <= |buf|
    ensures BlockAt(buf, p).Ok? ==> Tokens(buf, BlockAt(buf, p).value)
    decreases |buf| - p, 0
  {
    if Sees(buf, p, "(") {
      var q := TokenAt(buf, p).next;
      LineTokens(buf, q);
      var line := LineAt(buf, q);
      if line.Ok? && Sees(buf, line.pos, ")") {
        var s := TokenAt(buf, line.pos).next;
        RedirsTokens(buf, s, []);
        if Redirs(buf, s, []).Ok? {
          WrapTokens(buf, line.value, Redirs(buf, s, []).value);
        }
      }
    }
  }

  lemma {:induction false} PipeTokens(buf: string, p: nat)
    requires CText(buf) && p <= |buf|
    ensures PipeAt(buf, p).Ok? ==> Tokens(buf, PipeAt(buf, p).value)
    decreases |buf| - p, 2
  {
    ExecTokens(buf, p);
    var e := ExecAt(buf, p);
    if e.Ok? && Sees(buf, e.pos, "|") {
      PipeTokens(buf, TokenAt(buf, e.pos).next);
    }
  }

  lemma {:induction false} BacksTokens(buf: string, p: nat, c: Cmd)
    requires p <= |buf| && Tokens(buf, c)
    ensures Tokens(buf, Backs(buf, p, c).0)
    decreases |buf| - p
  {
    if Sees(buf, p, "&") {
      BacksTokens(buf, TokenAt(buf, p).next, Back(c));
    }
  }

  // Every word the parser stores is a whole token.
  lemma {:induction false} LineTokens(buf: string, p: nat)
    requires CText(buf) && p <= |buf|
    ensures LineAt(buf, p).Ok? ==> Tokens(buf, LineAt(buf, p).value)
    decreases |buf| - p, 3
  {
    PipeTokens(buf, p);
    var e := PipeAt(buf, p);
    if e.Ok? {
      BacksTokens(buf, e.pos, e.value);
      var b := Backs(buf, e.pos, e.value);
      if Sees(buf, b.1, ";") {
        LineTokens(buf, TokenAt(buf, b.1).next);
      }
    }
  }

  // The C string that starts at q
  function CString(s: seq<char>, q: nat): string
    decreases |s| - q
  {
    if q >= |s| || s[q] == NUL then "" else [s[q]] + CString(s, q + 1)
  }

  lemma {:induction false} CStringIs(s: seq<char>, q: nat, eq: nat)
    requires q <= eq < |s| && s[eq] == NUL && forall i :: q <= i < eq ==> s[i] != NUL
    ensures CString(s, q) == s[q..eq]
    decreases eq - q
  {
    if q < eq {
      CStringIs(s, q + 1, eq);
      assert s[q..eq] == [s[q]] + s[q + 1..eq];
    }
  }

  // Writing NUL behind every word spoils no word: read as a C string, each is
  // its token.
  lemma WordsSurvive(buf: string, t: seq<char>, c: Cmd, w: Word)
    requires Tokens(buf, c) && Cleared(buf + [NUL], t, Ends(c)) && HasWord(c, w)
    ensures w.q < w.eq <= |buf| && CString(t, w.q) == buf[w.q..w.eq]
  {
    assert IsToken(buf, w.q, w.eq);
    EndIsEnd(c, w);
    EndsFit(buf, c);
    forall i: nat | w.q <= i < w.eq ensures t[i] == buf[i] && buf[i] != NUL {
      assert IsWord(buf[i]);
    }
    CStringIs(t, w.q, w.eq);
    assert t[w.q..w.eq] == buf[w.q..w.eq];
  }

  lemma EndsFit(buf: string, c: Cmd)
    requires Tokens(buf, c)
    ensures forall e :: e in Ends(c) ==> e <= |buf| && (e < |buf| ==> !IsWord(buf[e]))
  {
    forall e | e in Ends(c) ensures e <= |buf| && (e < |buf| ==> !IsWord(buf[e])) {
      var w := EndOfWord(c, e);
      assert IsToken(buf, w.q, w.eq);
    }
  }

  // parsecmd on a NUL-terminated buffer: the command of the whole text, and
  // every word in it readable in place.
  method ParseCmd(a: array<char>) returns (r: Result<Cmd>)
    requires a.Length > 0 && a[a.Length - 1] == NUL && CText(a[..a.Length - 1])
    modifies a
    ensures r == Command(old(a[..a.Length - 1]))
    ensures r.Panic? ==> a[..] == old(a[..])
    ensures r.Ok? ==> forall w :: HasWord(r.value, w) ==>
      w.q < w.eq < a.Length && CString(a[..], w.q) == old(a[..])[w.q..w.eq]
  {
    hide LineAt, Ends, HasWord, CString, Cleared, Sees, IsToken, Tokens;
    var buf := a[..a.Length - 1];
    var line := ParseLine(buf, 0);
    if line.Panic? { return line; }
    var b, p := Peek(buf, line.pos, "");
    if p != |buf| { return Panic(Leftovers); }
    LineTokens(buf, 0);
    EndsFit(buf, line.value);
    NulTerminate(a, line.value);
    assert old(a[..]) == buf + [NUL];
    forall w | HasWord(line.value, w) ensures w.q < w.eq < a.Length && CString(a[..], w.q) == old(a[..])[w.q..w.eq] {
      WordsSurvive(buf, a[..], line.value, w);
      assert old(a[..])[w.q..w.eq] == buf[w.q..w.eq];
    }
    return Ok(line.value, |buf|);
  }
}
