/** The command language of user/sh.c: its grammar over tokens, and the recursive descent
    of the shell as a function, which accepts exactly the grammar. */
module ShellGrammar {

  /** A stretch of the input line. */
  datatype Span = Span(q: nat, eq: nat)

  /** Kind 'a' is a word, '+' is `>>`, every other kind is its own character. */
  datatype Token = Token(kind: char, span: Span)

  datatype Redirection = Redirection(file: Span, mode: nat, fd: nat)

  datatype Cmd =
    | Exec(argv: seq<Span>)
    | Redir(cmd: Cmd, redir: Redirection)
    | Pipe(left: Cmd, right: Cmd)
    | List(left: Cmd, right: Cmd)
    | Back(cmd: Cmd)

  const MAXARGS: nat := 10

  predicate IsRedirKind(k: char) { k == '<' || k == '>' || k == '+' }

  /** O_RDONLY; O_WRONLY, O_CREATE and O_TRUNC; O_WRONLY and O_CREATE. */
  function RedirOf(k: char, file: Span): Redirection {
    if k == '<' then Redirection(file, 0, 0)
    else if k == '>' then Redirection(file, 0x601, 1)
    else Redirection(file, 0x201, 1)
  }

  /** The first redirection of a command is innermost. */
  function Wrap(c: Cmd, rs: seq<Redirection>): Cmd
    decreases |rs|
  {
    if rs == [] then c else Wrap(Redir(c, rs[0]), rs[1..])
  }

  function Backs(c: Cmd, n: nat): Cmd { if n == 0 then c else Back(Backs(c, n - 1)) }

  predicate Head(ts: seq<Token>, k: char) { ts != [] && ts[0].kind == k }

  // ----- The grammar -----

  /** redirs ::= (('<' | '>' | '>>') word)* */
  predicate IsRedirs(ts: seq<Token>, rs: seq<Redirection>) {
    if rs == [] then ts == []
    else
      && |ts| >= 2 && IsRedirKind(ts[0].kind) && ts[1].kind == 'a'
      && rs[0] == RedirOf(ts[0].kind, ts[1].span) && IsRedirs(ts[2..], rs[1..])
  }

  /** simple ::= (word | redirection)* */
  predicate IsSimple(ts: seq<Token>, argv: seq<Span>, rs: seq<Redirection>) {
    if ts == [] then argv == [] && rs == []
    else if ts[0].kind == 'a' then argv != [] && argv[0] == ts[0].span && IsSimple(ts[1..], argv[1..], rs)
    else
      && |ts| >= 2 && IsRedirKind(ts[0].kind) && ts[1].kind == 'a'
      && rs != [] && rs[0] == RedirOf(ts[0].kind, ts[1].span) && IsSimple(ts[2..], argv, rs[1..])
  }

  /** block ::= '(' line ')' redirs, with the closing parenthesis at `k` */
  ghost predicate IsBlockAt(ts: seq<Token>, c: Cmd, k: nat, inner: Cmd, rs: seq<Redirection>)
    decreases |ts|, 0
  {
    && 0 < k < |ts| && ts[0].kind == '(' && ts[k].kind == ')'
    && IsLine(ts[1..k], inner) && IsRedirs(ts[k + 1..], rs) && c == Wrap(inner, rs)
  }

  ghost predicate IsSimpleCmd(ts: seq<Token>, c: Cmd) {
    exists argv: seq<Span>, rs: seq<Redirection> {:trigger IsSimple(ts, argv, rs)} ::
      IsSimple(ts, argv, rs) && |argv| < MAXARGS && c == Wrap(Exec(argv), rs)
  }

  /** exec ::= block | simple */
  ghost predicate IsExec(ts: seq<Token>, c: Cmd)
    decreases |ts|, 1
  {
    || IsSimpleCmd(ts, c)
    || exists k: nat, inner: Cmd, rs: seq<Redirection> {:trigger IsBlockAt(ts, c, k, inner, rs)} ::
         IsBlockAt(ts, c, k, inner, rs)
  }

  /** pipe ::= exec | exec '|' pipe */
  ghost predicate IsPipe(ts: seq<Token>, c: Cmd)
    decreases |ts|, 2
  {
    || IsExec(ts, c)
    || (c.Pipe? && exists k: nat {:trigger ts[k]} ::
          k < |ts| && ts[k].kind == '|' && IsExec(ts[..k], c.left) && IsPipe(ts[k + 1..], c.right))
  }

  /** amp ::= pipe '&'* */
  ghost predicate IsAmp(ts: seq<Token>, c: Cmd)
    decreases |ts|, 3
  {
    || IsPipe(ts, c)
    || (c.Back? && ts != [] && ts[|ts| - 1].kind == '&' && IsAmp(ts[..|ts| - 1], c.cmd))
  }

  /** line ::= amp | amp ';' line */
  ghost predicate IsLine(ts: seq<Token>, c: Cmd)
    decreases |ts|, 4
  {
    || IsAmp(ts, c)
    || (c.List? && exists k: nat {:trigger ts[k]} ::
          k < |ts| && ts[k].kind == ';' && IsAmp(ts[..k], c.left) && IsLine(ts[k + 1..], c.right))
  }

  // ----- The parser -----

  datatype Parse<T> = Ok(value: T, rest: seq<Token>) | Panic

  /** parseredirs, as the redirections it wraps a command in. */
  function Redirs(ts: seq<Token>): (p: Parse<seq<Redirection>>)
    ensures p.Ok? ==> |p.rest| <= |ts|
  {
    if ts == [] || !IsRedirKind(ts[0].kind) then Ok([], ts)
    else if |ts| < 2 || ts[1].kind != 'a' then Panic
    else match Redirs(ts[2..])
      case Panic => Panic
      case Ok(rs, rest) => Ok([RedirOf(ts[0].kind, ts[1].span)] + rs, rest)
  }

  predicate StopsArgs(ts: seq<Token>) {
    ts == [] || ts[0].kind == '|' || ts[0].kind == ')' || ts[0].kind == '&' || ts[0].kind == ';'
  }

  datatype Simple = Simple(argv: seq<Span>, rs: seq<Redirection>)

  /** The loop of parseexec, after `argc` arguments. */
  function Args(ts: seq<Token>, argc: nat): (p: Parse<Simple>)
    ensures p.Ok? ==> |p.rest| <= |ts|
    decreases |ts|
  {
    if StopsArgs(ts) then Ok(Simple([], []), ts)
    else if ts[0].kind != 'a' || argc + 1 >= MAXARGS then Panic
    else match Redirs(ts[1..])
      case Panic => Panic
      case Ok(rs, rest) =>
        match Args(rest, argc + 1)
        case Panic => Panic
        case Ok(more, rest') => Ok(Simple([ts[0].span] + more.argv, rs + more.rs), rest')
  }

  function ParseExec(ts: seq<Token>): (p: Parse<Cmd>)
    ensures p.Ok? ==> |p.rest| <= |ts|
    decreases |ts|, 0
  {
    if Head(ts, '(') then
      match ParseLine(ts[1..])
      case Panic => Panic
      case Ok(c, rest) =>
        if !Head(rest, ')') then Panic
        else match Redirs(rest[1..])
          case Panic => Panic
          case Ok(rs, rest') => Ok(Wrap(c, rs), rest')
    else
      match Redirs(ts)
      case Panic => Panic
      case Ok(rs, rest) =>
        match Args(rest, 0)
        case Panic => Panic
        case Ok(s, rest') => Ok(Wrap(Exec(s.argv), rs + s.rs), rest')
  }

  function ParsePipe(ts: seq<Token>): (p: Parse<Cmd>)
    ensures p.Ok? ==> |p.rest| <= |ts|
    decreases |ts|, 1
  {
    match ParseExec(ts)
    case Panic => Panic
    case Ok(c, rest) =>
      if !Head(rest, '|') then Ok(c, rest)
      else match ParsePipe(rest[1..])
        case Panic => Panic
        case Ok(d, rest') => Ok(Pipe(c, d), rest')
  }

  /** How many '&' the tokens start with. */
  function Amps(ts: seq<Token>): (n: nat)
    ensures n <= |ts|
  {
    if Head(ts, '&') then 1 + Amps(ts[1..]) else 0
  }

  function ParseLine(ts: seq<Token>): (p: Parse<Cmd>)
    ensures p.Ok? ==> |p.rest| <= |ts|
    decreases |ts|, 2
  {
    match ParsePipe(ts)
    case Panic => Panic
    case Ok(c, r) =>
      var n := Amps(r);
      var d, rest := Backs(c, n), r[n..];
      if !Head(rest, ';') then Ok(d, rest)
      else match ParseLine(rest[1..])
        case Panic => Panic
        case Ok(e, rest') => Ok(List(d, e), rest')
  }

  // ----- The parser accepts only the grammar -----

  /** `ts` is `used` followed by `rest`. */
  ghost predicate Splits(ts: seq<Token>, used: seq<Token>, rest: seq<Token>) { ts == used + rest }

  lemma {:induction false} RedirsSound(ts: seq<Token>) returns (used: seq<Token>)
    requires Redirs(ts).Ok?
    ensures Splits(ts, used, Redirs(ts).rest) && IsRedirs(used, Redirs(ts).value)
    decreases |ts|
  {
    if ts == [] || !IsRedirKind(ts[0].kind) {
      used := [];
    } else {
      var u := RedirsSound(ts[2..]);
      used := ts[..2] + u;
      assert used[2..] == u;
      assert Redirs(ts).value[1..] == Redirs(ts[2..]).value;
    }
  }

  lemma {:induction false} SimpleAfterRedirs(a: seq<Token>, rs: seq<Redirection>, b: seq<Token>,
                                             argv: seq<Span>, rs': seq<Redirection>)
    requires IsRedirs(a, rs) && IsSimple(b, argv, rs')
    ensures IsSimple(a + b, argv, rs + rs')
    decreases |rs|
  {
    if rs == [] {
      assert a + b == b && rs + rs' == rs';
    } else {
      SimpleAfterRedirs(a[2..], rs[1..], b, argv, rs');
      assert (a + b)[2..] == a[2..] + b && (rs + rs')[1..] == rs[1..] + rs';
    }
  }

  lemma {:induction false} ArgsSound(ts: seq<Token>, argc: nat) returns (used: seq<Token>)
    requires Args(ts, argc).Ok? && argc < MAXARGS
    ensures Splits(ts, used, Args(ts, argc).rest)
    ensures IsSimple(used, Args(ts, argc).value.argv, Args(ts, argc).value.rs)
    ensures argc + |Args(ts, argc).value.argv| < MAXARGS
    decreases |ts|
  {
    hide IsSimple, IsRedirs, Redirs, Args;
    ArgsUnfold(ts, argc);
    if StopsArgs(ts) {
      used := [];
      NoArgs();
    } else {
      var v := RedirsSound(ts[1..]);
      var rs, rest := Redirs(ts[1..]).value, Redirs(ts[1..]).rest;
      var w := ArgsSound(rest, argc + 1);
      var more := Args(rest, argc + 1).value;
      SimpleAfterRedirs(v, rs, w, more.argv, more.rs);
      OneArg(ts[0], v + w, more.argv, rs + more.rs);
      used := [ts[0]] + (v + w);
      assert ts == [ts[0]] + ts[1..];
    }
  }

  lemma ArgsUnfold(ts: seq<Token>, argc: nat)
    requires Args(ts, argc).Ok?
    ensures if StopsArgs(ts) then Args(ts, argc) == Ok(Simple([], []), ts)
            else
              && ts[0].kind == 'a' && argc + 1 < MAXARGS
              && Redirs(ts[1..]).Ok? && Args(Redirs(ts[1..]).rest, argc + 1).Ok?
              && var more := Args(Redirs(ts[1..]).rest, argc + 1);
                 Args(ts, argc) ==
                 Ok(Simple([ts[0].span] + more.value.argv, Redirs(ts[1..]).value + more.value.rs), more.rest)
  {
  }

  lemma NoArgs()
    ensures IsSimple([], [], [])
  {
  }

  lemma OneArg(w: Token, ts: seq<Token>, argv: seq<Span>, rs: seq<Redirection>)
    requires w.kind == 'a' && IsSimple(ts, argv, rs)
    ensures IsSimple([w] + ts, [w.span] + argv, rs)
  {
    assert ([w] + ts)[1..] == ts && ([w.span] + argv)[1..] == argv;
  }

  lemma BlockIntro(open: Token, u: seq<Token>, close: Token, v: seq<Token>, inner: Cmd, rs: seq<Redirection>)
    requires open.kind == '(' && close.kind == ')' && IsLine(u, inner) && IsRedirs(v, rs)
    ensures IsExec([open] + u + [close] + v, Wrap(inner, rs))
  {
    hide IsLine, IsRedirs;
    var ts, k := [open] + u + [close] + v, |u| + 1;
    assert ts[1..k] == u && ts[k + 1..] == v && ts[k] == close && ts[0] == open;
    assert IsBlockAt(ts, Wrap(inner, rs), k, inner, rs);
  }

  lemma SimpleIntro(ts: seq<Token>, argv: seq<Span>, rs: seq<Redirection>)
    requires IsSimple(ts, argv, rs) && |argv| < MAXARGS
    ensures IsExec(ts, Wrap(Exec(argv), rs))
  {
    hide IsSimple, IsBlockAt;
    assert IsSimpleCmd(ts, Wrap(Exec(argv), rs));
  }

  lemma PipeIntro(u: seq<Token>, bar: Token, v: seq<Token>, c: Cmd, d: Cmd)
    requires bar.kind == '|' && IsExec(u, c) && IsPipe(v, d)
    ensures IsPipe(u + [bar] + v, Pipe(c, d))
  {
    hide IsExec;
    var ts := u + [bar] + v;
    assert ts[..|u|] == u && ts[|u|] == bar && ts[|u| + 1..] == v;
  }

  lemma LineIntro(u: seq<Token>, semi: Token, v: seq<Token>, c: Cmd, d: Cmd)
    requires semi.kind == ';' && IsAmp(u, c) && IsLine(v, d)
    ensures IsLine(u + [semi] + v, List(c, d))
  {
    hide IsAmp;
    var ts := u + [semi] + v;
    assert ts[..|u|] == u && ts[|u|] == semi && ts[|u| + 1..] == v;
  }

  lemma {:induction false} ExecSound(ts: seq<Token>) returns (used: seq<Token>)
    requires ParseExec(ts).Ok?
    ensures Splits(ts, used, ParseExec(ts).rest) && IsExec(used, ParseExec(ts).value)
    decreases |ts|, 0
  {
    hide IsExec, IsLine, IsRedirs, IsSimple, Redirs, Args, ParseLine, Wrap;
    if Head(ts, '(') {
      var u := LineSound(ts[1..]);
      var c, rest := ParseLine(ts[1..]).value, ParseLine(ts[1..]).rest;
      var v := RedirsSound(rest[1..]);
      BlockIntro(ts[0], u, rest[0], v, c, Redirs(rest[1..]).value);
      used := [ts[0]] + u + [rest[0]] + v;
    } else {
      var u := RedirsSound(ts);
      var rs, rest := Redirs(ts).value, Redirs(ts).rest;
      var v := ArgsSound(rest, 0);
      var s := Args(rest, 0).value;
      used := u + v;
      SimpleAfterRedirs(u, rs, v, s.argv, s.rs);
      SimpleIntro(used, s.argv, rs + s.rs);
    }
  }

  lemma {:induction false} PipeSound(ts: seq<Token>) returns (used: seq<Token>)
    requires ParsePipe(ts).Ok?
    ensures Splits(ts, used, ParsePipe(ts).rest) && IsPipe(used, ParsePipe(ts).value)
    decreases |ts|, 1
  {
    hide IsExec, ParseExec;
    var u := ExecSound(ts);
    var c, rest := ParseExec(ts).value, ParseExec(ts).rest;
    used := u;
    if Head(rest, '|') {
      var v := PipeSound(rest[1..]);
      PipeIntro(u, rest[0], v, c, ParsePipe(rest[1..]).value);
      used := u + [rest[0]] + v;
    }
  }

  lemma {:induction false} AmpSound(ts: seq<Token>, c: Cmd, r: seq<Token>)
    requires IsPipe(ts, c)
    ensures IsAmp(ts + r[..Amps(r)], Backs(c, Amps(r)))
  {
    AmpPrefix(r);
    AmpGrows(ts, c, r[..Amps(r)], Amps(r));
  }

  lemma {:induction false} AmpPrefix(r: seq<Token>)
    ensures forall i :: 0 <= i < Amps(r) ==> r[i].kind == '&'
  {
    if Head(r, '&') {
      AmpPrefix(r[1..]);
      forall i | 0 <= i < Amps(r) ensures r[i].kind == '&' {
        assert i > 0 ==> r[i] == r[1..][i - 1];
      }
    }
  }

  lemma {:induction false} AmpGrows(ts: seq<Token>, c: Cmd, amps: seq<Token>, n: nat)
    requires IsPipe(ts, c) && n == |amps| && forall i :: 0 <= i < n ==> amps[i].kind == '&'
    ensures IsAmp(ts + amps, Backs(c, n))
    decreases n
  {
    if n == 0 {
      assert ts + amps == ts;
    } else {
      AmpGrows(ts, c, amps[..n - 1], n - 1);
      var all := ts + amps;
      assert all[..|all| - 1] == ts + amps[..n - 1] && all[|all| - 1] == amps[n - 1];
    }
  }

  lemma {:induction false} LineSound(ts: seq<Token>) returns (used: seq<Token>)
    requires ParseLine(ts).Ok?
    ensures Splits(ts, used, ParseLine(ts).rest) && IsLine(used, ParseLine(ts).value)
    decreases |ts|, 2
  {
    hide IsPipe, IsAmp, ParsePipe, Amps, Backs;
    var u := PipeSound(ts);
    var c, r := ParsePipe(ts).value, ParsePipe(ts).rest;
    var n := Amps(r);
    AmpSound(u, c, r);
    used := u + r[..n];
    var rest := r[n..];
    assert ts == used + rest;
    if Head(rest, ';') {
      var v := LineSound(rest[1..]);
      LineIntro(used, rest[0], v, Backs(c, n), ParseLine(rest[1..]).value);
      used := used + [rest[0]] + v;
    }
  }

  // ----- The parser accepts all of the grammar -----

  /** What may follow a construct without being taken as part of it. */
  predicate Follows(rest: seq<Token>, kinds: set<char>) { rest == [] || rest[0].kind in kinds }

  const AFTER_LINE: set<char> := {')'}
  const AFTER_AMP: set<char> := {')', ';'}
  const AFTER_PIPE: set<char> := {')', ';', '&'}
  const AFTER_EXEC: set<char> := {')', ';', '&', '|'}

  lemma {:induction false} RedirsComplete(ts: seq<Token>, rs: seq<Redirection>, rest: seq<Token>)
    requires IsRedirs(ts, rs) && (rest == [] || !IsRedirKind(rest[0].kind))
    ensures Redirs(ts + rest) == Ok(rs, rest)
    decreases |rs|
  {
    if rs == [] {
      assert ts + rest == rest;
    } else {
      RedirsComplete(ts[2..], rs[1..], rest);
      assert (ts + rest)[2..] == ts[2..] + rest;
      assert rs == [rs[0]] + rs[1..];
    }
  }

  /** parseredirs and then the loop of parseexec. */
  function SimpleParse(ts: seq<Token>, argc: nat): Parse<Simple> {
    match Redirs(ts)
    case Panic => Panic
    case Ok(rs, rest) =>
      match Args(rest, argc)
      case Panic => Panic
      case Ok(s, rest') => Ok(Simple(s.argv, rs + s.rs), rest')
  }

  lemma WordStep(w: Token, ts: seq<Token>, argc: nat)
    requires w.kind == 'a' && argc + 1 < MAXARGS && SimpleParse(ts, argc + 1).Ok?
    ensures var p := SimpleParse(ts, argc + 1);
            SimpleParse([w] + ts, argc) == Ok(Simple([w.span] + p.value.argv, p.value.rs), p.rest)
  {
    var all := [w] + ts;
    assert all[1..] == ts && Redirs(all) == Ok([], all);
    var p := Args(all, argc);
    assert [] + p.value.rs == p.value.rs;
  }

  lemma RedirsMore(op: Token, w: Token, ts: seq<Token>)
    requires IsRedirKind(op.kind) && w.kind == 'a' && Redirs(ts).Ok?
    ensures Redirs([op, w] + ts) == Ok([RedirOf(op.kind, w.span)] + Redirs(ts).value, Redirs(ts).rest)
  {
    assert ([op, w] + ts)[2..] == ts;
  }

  lemma RedirStep(op: Token, w: Token, ts: seq<Token>, argc: nat)
    requires IsRedirKind(op.kind) && w.kind == 'a' && SimpleParse(ts, argc).Ok?
    ensures var p := SimpleParse(ts, argc);
            SimpleParse([op, w] + ts, argc) == Ok(Simple(p.value.argv, [RedirOf(op.kind, w.span)] + p.value.rs), p.rest)
  {
    hide Args, Redirs, RedirOf;
    var r, q := RedirOf(op.kind, w.span), Redirs(ts);
    RedirsMore(op, w, ts);
    var s := Args(q.rest, argc).value;
    assert [r] + (q.value + s.rs) == ([r] + q.value) + s.rs;
  }

  lemma {:induction false} SimpleComplete(ts: seq<Token>, argv: seq<Span>, rs: seq<Redirection>,
                                          rest: seq<Token>, argc: nat)
    requires IsSimple(ts, argv, rs) && Follows(rest, AFTER_EXEC) && argc + |argv| < MAXARGS
    ensures SimpleParse(ts + rest, argc) == Ok(Simple(argv, rs), rest)
    decreases |ts|
  {
    hide SimpleParse;
    if ts == [] {
      SimpleStop(rest, argc);
      assert ts + rest == rest;
    } else if ts[0].kind == 'a' {
      SimpleComplete(ts[1..], argv[1..], rs, rest, argc + 1);
      WordStep(ts[0], ts[1..] + rest, argc);
      assert ts + rest == [ts[0]] + (ts[1..] + rest) && argv == [argv[0]] + argv[1..];
    } else {
      SimpleComplete(ts[2..], argv, rs[1..], rest, argc);
      RedirStep(ts[0], ts[1], ts[2..] + rest, argc);
      assert ts + rest == [ts[0], ts[1]] + (ts[2..] + rest) && rs == [rs[0]] + rs[1..];
    }
  }

  lemma SimpleStop(rest: seq<Token>, argc: nat)
    requires Follows(rest, AFTER_EXEC)
    ensures SimpleParse(rest, argc) == Ok(Simple([], []), rest)
  {
    var none: seq<Redirection> := [];
    assert none + none == none;
  }

  lemma SimpleHead(ts: seq<Token>, argv: seq<Span>, rs: seq<Redirection>, rest: seq<Token>)
    requires IsSimple(ts, argv, rs) && Follows(rest, AFTER_EXEC)
    ensures !Head(ts + rest, '(')
  {
  }

  lemma {:induction false} ExecComplete(ts: seq<Token>, c: Cmd, rest: seq<Token>)
    requires IsExec(ts, c) && Follows(rest, AFTER_EXEC)
    ensures ParseExec(ts + rest) == Ok(c, rest)
    decreases |ts|, 1
  {
    hide IsLine, IsSimple, IsRedirs, Redirs, Args, ParseLine, Wrap;
    if IsSimpleCmd(ts, c) {
      var argv: seq<Span>, rs: seq<Redirection> :|
        IsSimple(ts, argv, rs) && |argv| < MAXARGS && c == Wrap(Exec(argv), rs);
      SimpleHead(ts, argv, rs, rest);
      SimpleComplete(ts, argv, rs, rest, 0);
    } else {
      var k: nat, inner: Cmd, rs: seq<Redirection> :| IsBlockAt(ts, c, k, inner, rs);
      LineComplete(ts[1..k], inner, ts[k..] + rest);
      assert (ts + rest)[1..] == ts[1..k] + (ts[k..] + rest);
      RedirsComplete(ts[k + 1..], rs, rest);
      assert (ts[k..] + rest)[1..] == ts[k + 1..] + rest;
    }
  }

  lemma PipeEnds(ts: seq<Token>, c: Cmd, rest: seq<Token>)
    requires ParseExec(ts) == Ok(c, rest) && !Head(rest, '|')
    ensures ParsePipe(ts) == Ok(c, rest)
  {
    hide ParseExec;
  }

  lemma PipeGoesOn(ts: seq<Token>, c: Cmd, rest: seq<Token>, d: Cmd, rest': seq<Token>)
    requires ParseExec(ts) == Ok(c, rest) && Head(rest, '|') && ParsePipe(rest[1..]) == Ok(d, rest')
    ensures ParsePipe(ts) == Ok(Pipe(c, d), rest')
  {
    hide ParseExec;
  }

  lemma PipeForm(ts: seq<Token>, c: Cmd) returns (k: nat)
    requires IsPipe(ts, c) && !IsExec(ts, c)
    ensures c.Pipe? && k < |ts| && ts[k].kind == '|' && IsExec(ts[..k], c.left) && IsPipe(ts[k + 1..], c.right)
  {
    hide IsExec;
    k :| k < |ts| && ts[k].kind == '|' && IsExec(ts[..k], c.left) && IsPipe(ts[k + 1..], c.right);
  }

  /** `ts` and what follows it, taken apart at position `k`. */
  lemma SplitAt(ts: seq<Token>, k: nat, rest: seq<Token>)
    requires k < |ts|
    ensures ts + rest == ts[..k] + (ts[k..] + rest) && (ts[k..] + rest)[1..] == ts[k + 1..] + rest
    ensures (ts[k..] + rest)[0] == ts[k]
  {
  }

  lemma {:induction false} PipeComplete(ts: seq<Token>, c: Cmd, rest: seq<Token>)
    requires IsPipe(ts, c) && Follows(rest, AFTER_PIPE)
    ensures ParsePipe(ts + rest) == Ok(c, rest)
    decreases |ts|, 2
  {
    hide IsExec, IsPipe, ParseExec, ParsePipe;
    if IsExec(ts, c) {
      ExecComplete(ts, c, rest);
      PipeEnds(ts + rest, c, rest);
    } else {
      var k := PipeForm(ts, c);
      SplitAt(ts, k, rest);
      ExecComplete(ts[..k], c.left, ts[k..] + rest);
      PipeComplete(ts[k + 1..], c.right, rest);
      PipeGoesOn(ts + rest, c.left, ts[k..] + rest, c.right, rest);
    }
  }

  /** An amp is a pipe and a number of '&'. */
  lemma {:induction false} AmpForm(ts: seq<Token>, c: Cmd) returns (m: nat, p: Cmd)
    requires IsAmp(ts, c)
    ensures m <= |ts| && IsPipe(ts[..|ts| - m], p) && c == Backs(p, m)
    ensures forall i :: |ts| - m <= i < |ts| ==> ts[i].kind == '&'
    decreases |ts|
  {
    hide IsPipe;
    if IsPipe(ts, c) {
      m, p := 0, c;
      assert ts[..|ts| - m] == ts;
    } else {
      var t := ts[..|ts| - 1];
      var n, q := AmpForm(t, c.cmd);
      m, p := n + 1, q;
      assert ts[..|ts| - m] == t[..|t| - n];
      forall i | |ts| - m <= i < |ts| ensures ts[i].kind == '&' {
        assert i < |t| ==> ts[i] == t[i];
      }
    }
  }

  lemma {:induction false} AmpsCount(amps: seq<Token>, rest: seq<Token>)
    requires (forall i :: 0 <= i < |amps| ==> amps[i].kind == '&') && !Head(rest, '&')
    ensures Amps(amps + rest) == |amps| && (amps + rest)[|amps|..] == rest
    decreases |amps|
  {
    if amps == [] {
      assert amps + rest == rest;
    } else {
      AmpsCount(amps[1..], rest);
      assert (amps + rest)[1..] == amps[1..] + rest;
    }
  }

  /** The commands that an amp is made of, and where its '&' begin in what follows. */
  ghost predicate ParsesAmp(ts: seq<Token>, c: Cmd, rest: seq<Token>) {
    && ParsePipe(ts).Ok?
    && var p, r := ParsePipe(ts).value, ParsePipe(ts).rest;
       c == Backs(p, Amps(r)) && r[Amps(r)..] == rest
  }

  lemma {:induction false} AmpComplete(ts: seq<Token>, c: Cmd, rest: seq<Token>)
    requires IsAmp(ts, c) && Follows(rest, AFTER_AMP)
    ensures ParsesAmp(ts + rest, c, rest)
    decreases |ts|, 3
  {
    hide IsPipe, IsAmp, ParsePipe, Backs, Amps;
    var m, p := AmpForm(ts, c);
    var u, amps := ts[..|ts| - m], ts[|ts| - m..];
    AmpsCount(amps, rest);
    PipeComplete(u, p, amps + rest);
    assert ts + rest == u + (amps + rest);
  }

  lemma LineEnds(ts: seq<Token>, c: Cmd, rest: seq<Token>)
    requires ParsesAmp(ts, c, rest) && !Head(rest, ';')
    ensures ParseLine(ts) == Ok(c, rest)
  {
    hide ParsePipe, Backs, Amps;
  }

  lemma LineGoesOn(ts: seq<Token>, c: Cmd, rest: seq<Token>, d: Cmd, rest': seq<Token>)
    requires ParsesAmp(ts, c, rest) && Head(rest, ';') && ParseLine(rest[1..]) == Ok(d, rest')
    ensures ParseLine(ts) == Ok(List(c, d), rest')
  {
    hide ParsePipe, Backs, Amps;
  }

  lemma LineForm(ts: seq<Token>, c: Cmd) returns (k: nat)
    requires IsLine(ts, c) && !IsAmp(ts, c)
    ensures c.List? && k < |ts| && ts[k].kind == ';' && IsAmp(ts[..k], c.left) && IsLine(ts[k + 1..], c.right)
  {
    hide IsAmp;
    k :| k < |ts| && ts[k].kind == ';' && IsAmp(ts[..k], c.left) && IsLine(ts[k + 1..], c.right);
  }

  lemma {:induction false} LineComplete(ts: seq<Token>, c: Cmd, rest: seq<Token>)
    requires IsLine(ts, c) && Follows(rest, AFTER_LINE)
    ensures ParseLine(ts + rest) == Ok(c, rest)
    decreases |ts|, 4
  {
    hide IsAmp, IsLine, ParsesAmp, ParseLine;
    if IsAmp(ts, c) {
      AmpComplete(ts, c, rest);
      LineEnds(ts + rest, c, rest);
    } else {
      var k := LineForm(ts, c);
      SplitAt(ts, k, rest);
      AmpComplete(ts[..k], c.left, ts[k..] + rest);
      LineComplete(ts[k + 1..], c.right, rest);
      LineGoesOn(ts + rest, c.left, ts[k..] + rest, c.right, rest);
    }
  }

  /** The parser accepts a whole line of tokens exactly if the grammar does, and builds
      the one tree the grammar gives it. */
  lemma ParserIsGrammar(ts: seq<Token>, c: Cmd)
    ensures ParseLine(ts) == Ok(c, []) <==> IsLine(ts, c)
  {
    hide IsLine, ParseLine;
    assert ts + [] == ts;
    if ParseLine(ts) == Ok(c, []) {
      var used := LineSound(ts);
      assert used == ts;
    }
    if IsLine(ts, c) {
      LineComplete(ts, c, []);
    }
  }
}
