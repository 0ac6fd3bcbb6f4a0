/** The command parser of the shell (user/sh.c): a grammar over tokens, a printer, and the
    parser that works on the text with a cursor. */
module ShellParser {

  const MAXARGS := 10

  datatype Token = Sym(c: char) | Append | Word(w: string)

  datatype Result<T> = Ok(value: T) | Err(error: string)

  datatype Cmd =
    | Exec(argv: seq<string>)
    | Redir(cmd: Cmd, file: string, mode: nat, fd: nat)
    | Pipe(left: Cmd, right: Cmd)
    | List(left: Cmd, right: Cmd)
    | Back(cmd: Cmd)

  // ---- text and tokens ----

  predicate IsSpace(c: char) {
    c == ' ' || c == '\t' || c == '\r' || c == '\n' || c == '\U{0B}'
  }

  predicate IsSymbol(c: char) {
    c == '<' || c == '|' || c == '>' || c == '&' || c == ';' || c == '(' || c == ')'
  }

  predicate WordChar(c: char) {
    !IsSpace(c) && !IsSymbol(c) && c != '\0'
  }

  predicate IsWord(w: string) {
    w != "" && forall i :: 0 <= i < |w| ==> WordChar(w[i])
  }

  predicate TokenOk(t: Token) {
    match t
    case Sym(c) => IsSymbol(c)
    case Append => true
    case Word(w) => IsWord(w)
  }

  predicate TokensOk(ts: seq<Token>) {
    forall i :: 0 <= i < |ts| ==> TokenOk(ts[i])
  }

  function SkipSpace(s: string): (r: string)
    ensures |r| <= |s| && (r != "" ==> !IsSpace(r[0]))
  {
    if s != "" && IsSpace(s[0]) then SkipSpace(s[1..]) else s
  }

  /** The longest word at the start of s. */
  function WordLength(s: string): (n: nat)
    ensures n <= |s| && (forall i :: 0 <= i < n ==> WordChar(s[i])) && (n < |s| ==> !WordChar(s[n]))
  {
    if s != "" && WordChar(s[0]) then 1 + WordLength(s[1..]) else 0
  }

  /** Length of the first token. */
  function TokenLength(s: string): (n: nat)
    requires s != "" && !IsSpace(s[0]) && '\0' !in s
    ensures 0 < n <= |s|
  {
    if s[0] == '>' && 1 < |s| && s[1] == '>' then 2
    else if IsSymbol(s[0]) then 1
    else WordLength(s)
  }

  function FirstToken(s: string): Token
    requires s != "" && !IsSpace(s[0]) && '\0' !in s
  {
    if s[0] == '>' && 1 < |s| && s[1] == '>' then Append
    else if IsSymbol(s[0]) then Sym(s[0])
    else Word(s[..WordLength(s)])
  }

  function Lex(s: string): (ts: seq<Token>)
    requires '\0' !in s
    decreases |s|
  {
    SkipClean(s);
    var t := SkipSpace(s);
    if t == "" then [] else [FirstToken(t)] + Lex(t[TokenLength(t)..])
  }

  lemma {:induction false} SkipClean(s: string)
    requires '\0' !in s
    ensures '\0' !in SkipSpace(s)
  {
    if s != "" && IsSpace(s[0]) {
      SkipClean(s[1..]);
    }
  }

  lemma {:induction false} LexOk(s: string)
    requires '\0' !in s
    ensures TokensOk(Lex(s))
    decreases |s|
  {
    SkipClean(s);
    var t := SkipSpace(s);
    if t != "" {
      LexOk(t[TokenLength(t)..]);
    }
  }

  function Text(t: Token): string {
    match t
    case Sym(c) => [c]
    case Append => ">>"
    case Word(w) => w
  }

  /** The tokens with a space after each. */
  function Render(ts: seq<Token>): string {
    if ts == [] then "" else Text(ts[0]) + " " + Render(ts[1..])
  }

  lemma {:induction false} WordLengthOf(w: string, r: string)
    requires IsWord(w)
    ensures WordLength(w + " " + r) == |w|
  {
    var s := w + " " + r;
    assert s[0] == w[0];
    if |w| == 1 {
      assert s[1..] == " " + r;
    } else {
      assert s[1..] == w[1..] + " " + r;
      WordLengthOf(w[1..], r);
    }
  }

  /** Reading back what was rendered. */
  lemma {:induction false} LexRender(ts: seq<Token>)
    requires TokensOk(ts)
    ensures '\0' !in Render(ts) && Lex(Render(ts)) == ts
  {
    if ts != [] {
      LexRender(ts[1..]);
      LexCons(ts[0], Render(ts[1..]));
      assert ts == [ts[0]] + ts[1..];
    }
  }

  lemma LexCons(t: Token, r: string)
    requires TokenOk(t) && '\0' !in r
    ensures '\0' !in Text(t) + " " + r && Lex(Text(t) + " " + r) == [t] + Lex(r)
  {
    FirstOf(t, r);
    var s := Text(t) + " " + r;
    assert SkipSpace(s) == s;
    assert (" " + r)[1..] == r;
    assert SkipSpace(" " + r) == SkipSpace(r);
  }

  lemma FirstOf(t: Token, r: string)
    requires TokenOk(t) && '\0' !in r
    ensures var s := Text(t) + " " + r;
      '\0' !in s && s != "" && !IsSpace(s[0]) && FirstToken(s) == t && s[TokenLength(s)..] == " " + r
  {
    var s := Text(t) + " " + r;
    assert s[0] == Text(t)[0];
    match t
    case Sym(c) =>
      assert s[1] == ' ';
    case Append =>
      assert s[1] == '>';
    case Word(w) =>
      assert WordChar(w[0]);
      WordLengthOf(w, r);
      assert s[..|w|] == w;
  }

  // ---- the grammar ----

  datatype Redirect = Redirect(file: string, mode: nat, fd: nat)

  datatype Parsed<T> = Parsed(value: T, rest: seq<Token>)

  const O_RDONLY := 0x000
  const O_WRONLY := 0x001
  const O_CREATE := 0x200
  const O_TRUNC := 0x400

  predicate At(ts: seq<Token>, c: char) {
    ts != [] && ts[0] == Sym(c)
  }

  predicate AtRedirect(ts: seq<Token>) {
    ts != [] && (ts[0] == Sym('<') || ts[0] == Sym('>') || ts[0] == Append)
  }

  /** One of the tokens at which a simple command ends. */
  predicate AtEnd(ts: seq<Token>) {
    At(ts, '|') || At(ts, ')') || At(ts, '&') || At(ts, ';')
  }

  function RedirectOf(t: Token, file: string): Redirect {
    if t == Sym('<') then Redirect(file, O_RDONLY, 0)
    else if t == Sym('>') then Redirect(file, O_WRONLY + O_CREATE + O_TRUNC, 1)
    else Redirect(file, O_WRONLY + O_CREATE, 1)
  }

  function Wrap(c: Cmd, rs: seq<Redirect>): Cmd {
    if rs == [] then c else Redir(Wrap(c, rs[..|rs| - 1]), rs[|rs| - 1].file, rs[|rs| - 1].mode, rs[|rs| - 1].fd)
  }

  function Redirs(rs: seq<Redirect>, ts: seq<Token>): (r: Result<Parsed<seq<Redirect>>>)
    ensures r.Ok? ==> |r.value.rest| <= |ts| && !AtRedirect(r.value.rest)
    decreases |ts|
  {
    if !AtRedirect(ts) then Ok(Parsed(rs, ts))
    else if |ts| < 2 || !ts[1].Word? then Err("missing file for redirection")
    else Redirs(rs + [RedirectOf(ts[0], ts[1].w)], ts[2..])
  }

  function Simple(args: seq<string>, rs: seq<Redirect>, ts: seq<Token>): (r: Result<Parsed<Cmd>>)
    ensures r.Ok? ==> |r.value.rest| <= |ts|
    decreases |ts|
  {
    var p := Redirs(rs, ts);
    if p.Err? then Err(p.error)
    else if p.value.rest == [] || AtEnd(p.value.rest) then Ok(Parsed(Wrap(Exec(args), p.value.value), p.value.rest))
    else if !p.value.rest[0].Word? then Err("syntax")
    else if |args| + 1 >= MAXARGS then Err("too many args")
    else Simple(args + [p.value.rest[0].w], p.value.value, p.value.rest[1..])
  }

  function ExecG(ts: seq<Token>): (r: Result<Parsed<Cmd>>)
    ensures r.Ok? ==> |r.value.rest| <= |ts|
    decreases |ts|, 1
  {
    if At(ts, '(') then BlockG(ts) else Simple([], [], ts)
  }

  function BlockG(ts: seq<Token>): (r: Result<Parsed<Cmd>>)
    requires At(ts, '(')
    ensures r.Ok? ==> |r.value.rest| <= |ts|
    decreases |ts|, 0
  {
    var p := LineG(ts[1..]);
    if p.Err? then p
    else if !At(p.value.rest, ')') then Err("syntax - missing )")
    else var q := Redirs([], p.value.rest[1..]);
      if q.Err? then Err(q.error) else Ok(Parsed(Wrap(p.value.value, q.value.value), q.value.rest))
  }

  function PipeG(ts: seq<Token>): (r: Result<Parsed<Cmd>>)
    ensures r.Ok? ==> |r.value.rest| <= |ts|
    decreases |ts|, 2
  {
    var p := ExecG(ts);
    if p.Err? || !At(p.value.rest, '|') then p
    else var q := PipeG(p.value.rest[1..]);
      if q.Err? then q else Ok(Parsed(Pipe(p.value.value, q.value.value), q.value.rest))
  }

  function Backs(c: Cmd, ts: seq<Token>): (p: Parsed<Cmd>)
    ensures |p.rest| <= |ts| && !At(p.rest, '&')
    decreases |ts|
  {
    if At(ts, '&') then Backs(Back(c), ts[1..]) else Parsed(c, ts)
  }

  function LineG(ts: seq<Token>): (r: Result<Parsed<Cmd>>)
    ensures r.Ok? ==> |r.value.rest| <= |ts|
    decreases |ts|, 3
  {
    var p := PipeG(ts);
    if p.Err? then p
    else var b := Backs(p.value.value, p.value.rest);
      if !At(b.rest, ';') then Ok(b)
      else var q := LineG(b.rest[1..]);
        if q.Err? then q else Ok(Parsed(List(b.value, q.value.value), q.value.rest))
  }

  /** A command from all the tokens. */
  function CmdG(ts: seq<Token>): Result<Cmd> {
    var p := LineG(ts);
    if p.Err? then Err(p.error) else if p.value.rest != [] then Err("syntax") else Ok(p.value.value)
  }

  // ---- the printer ----

  predicate RedirectOk(file: string, mode: nat, fd: nat) {
    IsWord(file) && ((mode == O_RDONLY && fd == 0) || (mode == O_WRONLY + O_CREATE + O_TRUNC && fd == 1) || (mode == O_WRONLY + O_CREATE && fd == 1))
  }

  /** The commands that can be written down. */
  predicate WellFormed(c: Cmd) {
    match c
    case Exec(argv) => |argv| < MAXARGS && forall i :: 0 <= i < |argv| ==> IsWord(argv[i])
    case Redir(d, file, mode, fd) => WellFormed(d) && RedirectOk(file, mode, fd)
    case Pipe(l, r) => WellFormed(l) && WellFormed(r)
    case List(l, r) => WellFormed(l) && WellFormed(r)
    case Back(d) => WellFormed(d)
  }

  function Words(argv: seq<string>): seq<Token> {
    seq(|argv|, i requires 0 <= i < |argv| => Word(argv[i]))
  }

  function RedirTokens(file: string, mode: nat, fd: nat): seq<Token> {
    [if fd == 0 then Sym('<') else if mode == O_WRONLY + O_CREATE then Append else Sym('>'), Word(file)]
  }

  /** The command below all redirections. */
  function Base(c: Cmd): (b: Cmd)
    ensures !b.Redir? && (b == c || b < c)
  {
    if c.Redir? then Base(c.cmd) else c
  }

  function RedirsOf(c: Cmd): seq<Token> {
    if c.Redir? then RedirsOf(c.cmd) + RedirTokens(c.file, c.mode, c.fd) else []
  }

  /** Levels of the grammar: line 0, background 1, pipeline 2, simple command 3.  The number
      of levels from `level` to the one that takes c apart; parentheses lead from 3 to 0. */
  function Levels(level: nat, c: Cmd): nat {
    ((if c.List? then 0 else if c.Back? then 1 else if c.Pipe? then 2 else 3) + 4 - level) % 4
  }

  /** The printer: a token list for each level, with parentheses where they are needed. */
  function LineT(c: Cmd): seq<Token>
    decreases c, Levels(0, c)
  {
    if c.List? then BackT(c.left) + [Sym(';')] + LineT(c.right) else BackT(c)
  }

  function BackT(c: Cmd): seq<Token>
    decreases c, Levels(1, c)
  {
    if c.Back? then BackT(c.cmd) + [Sym('&')] else PipeT(c)
  }

  function PipeT(c: Cmd): seq<Token>
    decreases c, Levels(2, c)
  {
    if c.Pipe? then ExecT(c.left) + [Sym('|')] + PipeT(c.right) else ExecT(c)
  }

  function ExecT(c: Cmd): seq<Token>
    decreases c, Levels(3, c)
  {
    (if Base(c).Exec? then Words(Base(c).argv) else [Sym('(')] + LineT(Base(c)) + [Sym(')')]) + RedirsOf(c)
  }

  function Print(c: Cmd): string {
    Render(LineT(c))
  }

  // ---- reading back what was printed ----

  function RedirectsOf(c: Cmd): seq<Redirect> {
    if c.Redir? then RedirectsOf(c.cmd) + [Redirect(c.file, c.mode, c.fd)] else []
  }

  lemma {:induction false} WrapBase(c: Cmd)
    requires WellFormed(c)
    ensures Wrap(Base(c), RedirectsOf(c)) == c && WellFormed(Base(c))
  {
    if c.Redir? {
      WrapBase(c.cmd);
      var rs := RedirectsOf(c);
      assert rs[..|rs| - 1] == RedirectsOf(c.cmd);
    }
  }

  lemma {:induction false} RedirsBack(c: Cmd, rs: seq<Redirect>, tail: seq<Token>)
    requires WellFormed(c)
    ensures Redirs(rs, RedirsOf(c) + tail) == Redirs(rs + RedirectsOf(c), tail)
  {
    if c.Redir? {
      var ts := RedirTokens(c.file, c.mode, c.fd);
      var mid := rs + RedirectsOf(c.cmd);
      RedirsBack(c.cmd, rs, ts + tail);
      assert RedirsOf(c) + tail == RedirsOf(c.cmd) + (ts + tail);
      assert (ts + tail)[2..] == tail;
      assert Redirs(mid, ts + tail) == Redirs(mid + [RedirectOf(ts[0], c.file)], tail);
      assert mid + [Redirect(c.file, c.mode, c.fd)] == rs + RedirectsOf(c);
    } else {
      assert RedirsOf(c) + tail == tail && rs + RedirectsOf(c) == rs;
    }
  }

  lemma {:induction false} WordsBack(args: seq<string>, more: seq<string>, rs: seq<Redirect>, tail: seq<Token>)
    requires |args| + |more| < MAXARGS
    ensures Simple(args, rs, Words(more) + tail) == Simple(args + more, rs, tail)
    decreases |more|
  {
    if more == [] {
      assert Words(more) + tail == tail && args + more == args;
    } else {
      var ts := Words(more) + tail;
      assert ts[0] == Word(more[0]) && ts[1..] == Words(more[1..]) + tail;
      assert Redirs(rs, ts) == Ok(Parsed(rs, ts));
      WordsBack(args + [more[0]], more[1..], rs, tail);
      assert args + more == args + [more[0]] + more[1..];
    }
  }

  lemma SimpleBack(c: Cmd, rest: seq<Token>)
    requires WellFormed(c) && Base(c).Exec? && (rest == [] || AtEnd(rest))
    ensures ExecG(ExecT(c) + rest) == Ok(Parsed(c, rest))
  {
    var argv, tail := Base(c).argv, RedirsOf(c) + rest;
    WrapBase(c);
    assert ExecT(c) + rest == Words(argv) + tail;
    NoParen(c, rest);
    WordsBack([], argv, [], tail);
    assert [] + argv == argv;
    SimpleEnd(c, rest);
  }

  lemma SimpleEnd(c: Cmd, rest: seq<Token>)
    requires WellFormed(c) && Base(c).Exec? && (rest == [] || AtEnd(rest))
    ensures Simple(Base(c).argv, [], RedirsOf(c) + rest) == Ok(Parsed(c, rest))
  {
    WrapBase(c);
    RedirsRead(c, rest);
  }

  lemma {:induction false} NoParen(c: Cmd, rest: seq<Token>)
    requires Base(c).Exec? && (rest == [] || AtEnd(rest))
    ensures !At(Words(Base(c).argv) + (RedirsOf(c) + rest), '(')
  {
    RedirHead(c, rest);
  }

  lemma {:induction false} RedirHead(c: Cmd, rest: seq<Token>)
    ensures c.Redir? ==> AtRedirect(RedirsOf(c) + rest)
    ensures !c.Redir? ==> RedirsOf(c) + rest == rest
  {
    if c.Redir? {
      RedirHead(c.cmd, RedirTokens(c.file, c.mode, c.fd) + rest);
      assert RedirsOf(c) + rest == RedirsOf(c.cmd) + (RedirTokens(c.file, c.mode, c.fd) + rest);
    }
  }

  lemma {:induction false} ExecBack(c: Cmd, rest: seq<Token>)
    requires WellFormed(c) && (rest == [] || AtEnd(rest))
    ensures ExecG(ExecT(c) + rest) == Ok(Parsed(c, rest))
    decreases c, Levels(3, c)
  {
    var b := Base(c);
    if b.Exec? {
      SimpleBack(c, rest);
    } else {
      WrapBase(c);
      LineBack(b, [Sym(')')] + (RedirsOf(c) + rest));
      RedirsRead(c, rest);
      BlockStep(LineT(b), b, RedirsOf(c), rest, RedirectsOf(c));
    }
  }

  lemma RedirsRead(c: Cmd, rest: seq<Token>)
    requires WellFormed(c) && (rest == [] || AtEnd(rest))
    ensures Redirs([], RedirsOf(c) + rest) == Ok(Parsed(RedirectsOf(c), rest))
  {
    RedirsBack(c, [], rest);
    assert [] + RedirectsOf(c) == RedirectsOf(c);
  }

  /** A line in parentheses, and redirections after it. */
  lemma BlockStep(line: seq<Token>, b: Cmd, redirs: seq<Token>, rest: seq<Token>, rs: seq<Redirect>)
    requires LineG(line + ([Sym(')')] + (redirs + rest))) == Ok(Parsed(b, [Sym(')')] + (redirs + rest)))
    requires Redirs([], redirs + rest) == Ok(Parsed(rs, rest))
    ensures ExecG([Sym('(')] + line + [Sym(')')] + redirs + rest) == Ok(Parsed(Wrap(b, rs), rest))
  {
    var inner := [Sym(')')] + (redirs + rest);
    var ts := [Sym('(')] + line + [Sym(')')] + redirs + rest;
    assert ts == [Sym('(')] + (line + inner);
    assert ts[1..] == line + inner && inner[1..] == redirs + rest;
  }

  lemma {:induction false} PipeBack(c: Cmd, rest: seq<Token>)
    requires WellFormed(c) && (rest == [] || (AtEnd(rest) && !At(rest, '|')))
    ensures PipeG(PipeT(c) + rest) == Ok(Parsed(c, rest))
    decreases c, Levels(2, c)
  {
    if c.Pipe? {
      var tail := [Sym('|')] + (PipeT(c.right) + rest);
      ExecBack(c.left, tail);
      assert PipeT(c) + rest == ExecT(c.left) + tail;
      assert tail[1..] == PipeT(c.right) + rest;
      PipeBack(c.right, rest);
    } else {
      ExecBack(c, rest);
    }
  }

  lemma {:induction false} BackBack(c: Cmd, rest: seq<Token>)
    requires WellFormed(c) && (rest == [] || (AtEnd(rest) && !At(rest, '|')))
    ensures var p := PipeG(BackT(c) + rest); p.Ok? && Backs(p.value.value, p.value.rest) == Backs(c, rest)
    decreases c, Levels(1, c)
  {
    if c.Back? {
      var tail := [Sym('&')] + rest;
      BackBack(c.cmd, tail);
      assert BackT(c) + rest == BackT(c.cmd) + tail;
      assert tail[1..] == rest;
    } else {
      PipeBack(c, rest);
    }
  }

  lemma {:induction false} LineBack(c: Cmd, rest: seq<Token>)
    requires WellFormed(c) && (rest == [] || At(rest, ')'))
    ensures LineG(LineT(c) + rest) == Ok(Parsed(c, rest))
    decreases c, Levels(0, c)
  {
    if c.List? {
      var tail := [Sym(';')] + (LineT(c.right) + rest);
      BackBack(c.left, tail);
      assert LineT(c) + rest == BackT(c.left) + tail;
      assert tail[1..] == LineT(c.right) + rest;
      LineBack(c.right, rest);
    } else {
      BackBack(c, rest);
    }
  }

  // ---- every printed token is one that can be read ----

  lemma {:induction false} RedirsOk(c: Cmd)
    requires WellFormed(c)
    ensures TokensOk(RedirsOf(c)) && WellFormed(Base(c))
  {
    if c.Redir? {
      RedirsOk(c.cmd);
    }
  }

  lemma {:induction false} PrintOk(c: Cmd, level: nat)
    requires WellFormed(c) && level < 4
    ensures level == 0 ==> TokensOk(LineT(c))
    ensures level == 1 ==> TokensOk(BackT(c))
    ensures level == 2 ==> TokensOk(PipeT(c))
    ensures level == 3 ==> TokensOk(ExecT(c))
    decreases c, Levels(level, c)
  {
    if level == 0 {
      if c.List? {
        PrintOk(c.left, 1);
        PrintOk(c.right, 0);
      } else {
        PrintOk(c, 1);
      }
    } else if level == 1 {
      PrintOk(if c.Back? then c.cmd else c, if c.Back? then 1 else 2);
    } else if level == 2 {
      if c.Pipe? {
        PrintOk(c.left, 3);
        PrintOk(c.right, 2);
      } else {
        PrintOk(c, 3);
      }
    } else {
      RedirsOk(c);
      if !Base(c).Exec? {
        PrintOk(Base(c), 0);
      }
    }
  }

  /** Parsing a printed command gives it back, and consumes the whole text. */
  lemma RoundTrip(c: Cmd)
    requires WellFormed(c)
    ensures '\0' !in Print(c) && CmdG(Lex(Print(c))) == Ok(c)
  {
    PrintOk(c, 0);
    LexRender(LineT(c));
    LineBack(c, []);
    assert LineT(c) + [] == LineT(c);
  }

  // ---- every command that can be read can be printed ----

  lemma {:induction false} RedirsResult(rs: seq<Redirect>, ts: seq<Token>)
    requires TokensOk(ts) && forall i :: 0 <= i < |rs| ==> RedirectOk(rs[i].file, rs[i].mode, rs[i].fd)
    ensures var p := Redirs(rs, ts);
      p.Ok? ==> TokensOk(p.value.rest) && forall i :: 0 <= i < |p.value.value| ==> RedirectOk(p.value.value[i].file, p.value.value[i].mode, p.value.value[i].fd)
    decreases |ts|
  {
    if AtRedirect(ts) && 2 <= |ts| && ts[1].Word? {
      assert TokenOk(ts[1]);
      RedirsResult(rs + [RedirectOf(ts[0], ts[1].w)], ts[2..]);
    }
  }

  lemma {:induction false} WrapOk(c: Cmd, rs: seq<Redirect>)
    requires WellFormed(c) && forall i :: 0 <= i < |rs| ==> RedirectOk(rs[i].file, rs[i].mode, rs[i].fd)
    ensures WellFormed(Wrap(c, rs))
    decreases |rs|
  {
    if rs != [] {
      WrapOk(c, rs[..|rs| - 1]);
    }
  }

  lemma {:induction false} SimpleOk(args: seq<string>, rs: seq<Redirect>, ts: seq<Token>)
    requires TokensOk(ts) && |args| < MAXARGS && (forall i :: 0 <= i < |args| ==> IsWord(args[i]))
    requires forall i :: 0 <= i < |rs| ==> RedirectOk(rs[i].file, rs[i].mode, rs[i].fd)
    ensures var p := Simple(args, rs, ts); p.Ok? ==> WellFormed(p.value.value) && TokensOk(p.value.rest)
    decreases |ts|
  {
    var p := Redirs(rs, ts);
    RedirsResult(rs, ts);
    if p.Ok? {
      var rest := p.value.rest;
      if rest == [] || AtEnd(rest) {
        WrapOk(Exec(args), p.value.value);
      } else if rest[0].Word? && |args| + 1 < MAXARGS {
        assert TokenOk(rest[0]);
        SimpleOk(args + [rest[0].w], p.value.value, rest[1..]);
      }
    }
  }

  lemma {:induction false} BacksOk(c: Cmd, ts: seq<Token>)
    requires WellFormed(c) && TokensOk(ts)
    ensures WellFormed(Backs(c, ts).value) && TokensOk(Backs(c, ts).rest)
    decreases |ts|
  {
    if At(ts, '&') {
      BacksOk(Back(c), ts[1..]);
    }
  }

  lemma {:induction false} ExecOk(ts: seq<Token>)
    requires TokensOk(ts)
    ensures var p := ExecG(ts); p.Ok? ==> WellFormed(p.value.value) && TokensOk(p.value.rest)
    decreases |ts|, 1
  {
    if At(ts, '(') {
      LineOk(ts[1..]);
      var p := LineG(ts[1..]);
      if p.Ok? && At(p.value.rest, ')') {
        RedirsResult([], p.value.rest[1..]);
        var q := Redirs([], p.value.rest[1..]);
        if q.Ok? {
          WrapOk(p.value.value, q.value.value);
        }
      }
    } else {
      SimpleOk([], [], ts);
    }
  }

  lemma {:induction false} PipeOk(ts: seq<Token>)
    requires TokensOk(ts)
    ensures var p := PipeG(ts); p.Ok? ==> WellFormed(p.value.value) && TokensOk(p.value.rest)
    decreases |ts|, 2
  {
    ExecOk(ts);
    var p := ExecG(ts);
    if p.Ok? && At(p.value.rest, '|') {
      PipeOk(p.value.rest[1..]);
    }
  }

  lemma {:induction false} LineOk(ts: seq<Token>)
    requires TokensOk(ts)
    ensures var p := LineG(ts); p.Ok? ==> WellFormed(p.value.value) && TokensOk(p.value.rest)
    decreases |ts|, 3
  {
    PipeOk(ts);
    var p := PipeG(ts);
    if p.Ok? {
      BacksOk(p.value.value, p.value.rest);
      var b := Backs(p.value.value, p.value.rest);
      if At(b.rest, ';') {
        LineOk(b.rest[1..]);
      }
    }
  }

  /** Whatever text was read, printing the command and reading it again changes nothing. */
  lemma ReadPrintRead(s: string)
    requires '\0' !in s && CmdG(Lex(s)).Ok?
    ensures var c := CmdG(Lex(s)).value;
      WellFormed(c) && '\0' !in Print(c) && CmdG(Lex(Print(c))) == Ok(c)
  {
    LexOk(s);
    LineOk(Lex(s));
    RoundTrip(CmdG(Lex(s)).value);
  }

  // ---- the parser on the text ----

  /** The first character of a token, as `peek` sees it. */
  function FirstChar(t: Token): char
    requires TokenOk(t)
  {
    match t
    case Sym(c) => c
    case Append => '>'
    case Word(w) => w[0]
  }

  /** The return value of `gettoken`. */
  function Code(t: Token): char {
    match t
    case Sym(c) => c
    case Append => '+'
    case Word(w) => 'a'
  }

  class Parser {
    const s: string
    /** The cursor `*ps`. */
    var i: nat

    constructor (s: string)
      ensures this.s == s && i == 0
    {
      this.s, i := s, 0;
    }

    ghost predicate Valid()
      reads this
    {
      i <= |s| && '\0' !in s
    }

    /** What is left to read. */
    ghost function Left(): seq<Token>
      requires Valid()
      reads this
    {
      Lex(s[i..])
    }

    method SkipBlanks()
      requires Valid()
      modifies this`i
      ensures Valid() && old(i) <= i && s[i..] == SkipSpace(s[old(i)..]) && Left() == old(Left())
    {
      while i < |s| && IsSpace(s[i])
        invariant Valid() && old(i) <= i && SkipSpace(s[i..]) == SkipSpace(s[old(i)..])
      {
        assert s[i..][1..] == s[i + 1..];
        i := i + 1;
      }
    }

    /** `peek` for one of the symbols in toks. */
    method Peek(toks: string) returns (b: bool)
      requires Valid() && '\0' !in toks
      modifies this`i
      ensures Valid() && old(i) <= i && Left() == old(Left()) && TokensOk(Left())
      ensures b <==> Left() != [] && FirstChar(Left()[0]) in toks
      ensures i == |s| <==> Left() == []
    {
      SkipBlanks();
      LexOk(s[i..]);
      assert i < |s| ==> s[i..][0] == s[i];
      b := i < |s| && s[i] in toks;
    }

    /** `gettoken`: the next token, with its text at s[q..eq] if it is a word; '\0' at the end. */
    method GetToken() returns (tok: char, q: nat, eq: nat)
      requires Valid()
      modifies this`i
      ensures Valid() && old(i) <= i && q <= eq <= |s|
      ensures old(Left()) == [] ==> tok == '\0' && Left() == []
      ensures old(Left()) != [] ==> tok == Code(old(Left())[0]) && Left() == old(Left())[1..] && old(i) < i
      ensures old(Left()) != [] && old(Left())[0].Word? ==> s[q..eq] == old(Left())[0].w
    {
      SkipBlanks();
      q, eq := i, i;
      if i == |s| {
        return '\0', q, eq;
      }
      assert s[i..][0] == s[i];
      ghost var t := s[i..];
      tok := TakeToken();
      eq := i;
      assert t[TokenLength(t)..] == s[i..];
      assert t[..TokenLength(t)] == s[q..eq];
      SkipBlanks();
    }

    /** The `switch` of `gettoken`. */
    method TakeToken() returns (tok: char)
      requires Valid() && i < |s| && s[i..] != "" && !IsSpace(s[i..][0]) && '\0' !in s[i..]
      modifies this`i
      ensures Valid() && i == old(i) + TokenLength(s[old(i)..]) && tok == Code(FirstToken(s[old(i)..]))
    {
      ghost var t := s[i..];
      assert t[0] == s[i] && (i + 1 < |s| ==> t[1] == s[i + 1]);
      if IsSymbol(s[i]) {
        tok := s[i];
        i := i + 1;
        if tok == '>' && i < |s| && s[i] == '>' {
          tok := '+';
          i := i + 1;
        }
      } else {
        tok := 'a';
        SkipWord();
      }
    }

    method SkipWord()
      requires Valid()
      modifies this`i
      ensures Valid() && i == old(i) + WordLength(s[old(i)..])
    {
      while i < |s| && !IsSpace(s[i]) && !IsSymbol(s[i])
        invariant Valid() && old(i) <= i && i + WordLength(s[i..]) == old(i) + WordLength(s[old(i)..])
      {
        assert s[i] in s && s[i..][0] == s[i] && s[i..][1..] == s[i + 1..];
        i := i + 1;
      }
      assert i < |s| ==> s[i..][0] == s[i];
    }

    /** `parseredirs`, collecting the redirections in the order in which they wrap the command. */
    method ParseRedirs(rs: seq<Redirect>) returns (r: Result<seq<Redirect>>)
      requires Valid()
      modifies this`i
      ensures Valid() && old(i) <= i && Agrees(r, Redirs(rs, old(Left())), Left())
    {
      var out := rs;
      ghost var ts := Left();
      var more := Peek("<>");
      while more
        invariant Valid() && old(i) <= i && TokensOk(Left()) && (more <==> AtRedirect(Left()))
        invariant Redirs(rs, ts) == Redirs(out, Left())
        decreases |s| - i
      {
        var p := TakeRedir();
        if p.Err? {
          return Err(p.error);
        }
        out := out + [p.value];
        more := Peek("<>");
      }
      return Ok(out);
    }

    /** One turn of the loop in `parseredirs`. */
    method TakeRedir() returns (r: Result<Redirect>)
      requires Valid() && TokensOk(Left()) && AtRedirect(Left())
      modifies this`i
      ensures Valid() && old(i) < i
      ensures var ts := old(Left());
        if |ts| < 2 || !ts[1].Word? then r == Err("missing file for redirection")
        else r == Ok(RedirectOf(ts[0], ts[1].w)) && Left() == ts[2..]
    {
      ghost var ts := Left();
      var tok, _, _ := GetToken();
      var word, q, eq := GetToken();
      assert 1 < |ts| ==> TokenOk(ts[1]) && ts[1..][0] == ts[1] && ts[1..][1..] == ts[2..];
      if word != 'a' {
        return Err("missing file for redirection");
      }
      if tok == '<' {
        r := Ok(Redirect(s[q..eq], O_RDONLY, 0));
      } else if tok == '>' {
        r := Ok(Redirect(s[q..eq], O_WRONLY + O_CREATE + O_TRUNC, 1));
      } else {
        r := Ok(Redirect(s[q..eq], O_WRONLY + O_CREATE, 1));
      }
    }

    /** `parsecmd`: the tree that the grammar gives to the whole text, or its error. */
    method ParseCmd() returns (r: Result<Cmd>)
      requires Valid()
      modifies this`i
      ensures r == CmdG(old(Left()))
    {
      r := ParseLine();
      if r.Ok? {
        var _ := Peek("");
        if i != |s| {
          r := Err("syntax");
        }
      }
    }

    /** `parseline` */
    method ParseLine() returns (r: Result<Cmd>)
      requires Valid()
      modifies this`i
      ensures Valid() && old(i) <= i && Agrees(r, LineG(old(Left())), Left())
      decreases |s| - i, 3
    {
      ghost var ts := Left();
      r := ParsePipe();
      if r.Err? {
        return;
      }
      var cmd := r.value;
      var b := Peek("&");
      while b
        invariant Valid() && old(i) <= i && (b <==> At(Left(), '&'))
        invariant PipeG(ts).Ok? && Backs(cmd, Left()) == Backs(PipeG(ts).value.value, PipeG(ts).value.rest)
        decreases |s| - i
      {
        var _, _, _ := GetToken();
        cmd := Back(cmd);
        b := Peek("&");
      }
      b := Peek(";");
      r := Ok(cmd);
      if b {
        var _, _, _ := GetToken();
        r := ParseLine();
        if r.Ok? {
          r := Ok(List(cmd, r.value));
        }
      }
    }

    /** `parsepipe` */
    method ParsePipe() returns (r: Result<Cmd>)
      requires Valid()
      modifies this`i
      ensures Valid() && old(i) <= i && Agrees(r, PipeG(old(Left())), Left())
      decreases |s| - i, 2
    {
      r := ParseExec();
      if r.Ok? {
        var cmd := r.value;
        var b := Peek("|");
        if b {
          var _, _, _ := GetToken();
          r := ParsePipe();
          if r.Ok? {
            r := Ok(Pipe(cmd, r.value));
          }
        }
      }
    }

    /** `parseexec`.  The arguments go into the command at the bottom of its redirections. */
    method ParseExec() returns (r: Result<Cmd>)
      requires Valid()
      modifies this`i
      ensures Valid() && old(i) <= i && Agrees(r, ExecG(old(Left())), Left())
      decreases |s| - i, 1
    {
      var b := Peek("(");
      if b {
        r := ParseBlock();
      } else {
        r := ParseArgs();
      }
    }

    /** `parseblock` */
    method ParseBlock() returns (r: Result<Cmd>)
      requires Valid() && At(Left(), '(')
      modifies this`i
      ensures Valid() && old(i) <= i && Agrees(r, BlockG(old(Left())), Left())
      decreases |s| - i, 0
    {
      var _, _, _ := GetToken();
      r := ParseLine();
      if r.Err? {
        return;
      }
      var b := Peek(")");
      if !b {
        return Err("syntax - missing )");
      }
      var _, _, _ := GetToken();
      var rs := ParseRedirs([]);
      r := if rs.Err? then Err(rs.error) else Ok(Wrap(r.value, rs.value));
    }

    /** The loop of `parseexec`. */
    method ParseArgs() returns (r: Result<Cmd>)
      requires Valid()
      modifies this`i
      ensures Valid() && old(i) <= i && Agrees(r, Simple([], [], old(Left())), Left())
    {
      var args := [];
      var rs := [];
      ghost var ts0 := Left();
      while true
        invariant Valid() && old(i) <= i && |args| < MAXARGS
        invariant Simple([], [], ts0) == Simple(args, rs, Left())
        decreases |s| - i
      {
        var p := ParseRedirs(rs);
        if p.Err? {
          return Err(p.error);
        }
        rs := p.value;
        var arg := TakeArg(|args| + 1 >= MAXARGS);
        if arg.Err? {
          return Err(arg.error);
        }
        if arg.value == [] {
          break;
        }
        args := args + arg.value;
      }
      return Ok(Wrap(Exec(args), rs));
    }

    /** The next argument, or none at the end of the command. */
    method TakeArg(full: bool) returns (r: Result<seq<string>>)
      requires Valid()
      modifies this`i
      ensures var ts := old(Left());
        && Valid() && old(i) <= i
        && r == (if ts == [] || AtEnd(ts) then Ok([]) else if !ts[0].Word? then Err("syntax")
                 else if full then Err("too many args") else Ok([ts[0].w]))
        && (r == Ok([]) ==> Left() == ts) && (r.Ok? && r != Ok([]) ==> Left() == ts[1..] && old(i) < i)
    {
      ghost var ts := Left();
      var end := Peek("|)&;");
      if end {
        return Ok([]);
      }
      var tok, q, eq := GetToken();
      if tok == '\0' {
        return Ok([]);
      }
      if tok != 'a' {
        return Err("syntax");
      }
      assert TokenOk(ts[0]);
      if full {
        return Err("too many args");
      }
      return Ok([s[q..eq]]);
    }
  }

  /** The parser on the text gives what the grammar says, and stops where it says. */
  predicate Agrees<T(==)>(r: Result<T>, p: Result<Parsed<T>>, left: seq<Token>) {
    if p.Err? then r == Err(p.error) else r == Ok(p.value.value) && left == p.value.rest
  }
}
