/** What a command of user/sh.c says, told from the characters of its line: independent of
    the token and redirection functions that grammar and parser share. */
module ShellMeaning {
  import opened ShellGrammar
  import opened ShellLex

  // kernel/fcntl.h
  const O_RDONLY: nat := 0x000
  const O_WRONLY: nat := 0x001
  const O_CREATE: nat := 0x200
  const O_TRUNC: nat := 0x400

  predicate Blank(c: char) { c in [' ', '\t', '\r', '\n', 11 as char] }

  predicate Special(c: char) { c in "<|>&;()" }

  lemma CharClasses(c: char)
    ensures (IsSpace(c) <==> Blank(c)) && (IsSymbol(c) <==> Special(c))
  {
    var s := "<|>&;()";
    assert s[0] == '<' && s[1] == '|' && s[2] == '>' && s[3] == '&' && s[4] == ';' && s[5] == '(' && s[6] == ')';
  }

  // ----- Tokens -----

  /** A word is a longest stretch without blanks and special characters; `>>` is one token
      and any other special character is a token of its own. */
  ghost predicate TokenIs(t: string, k: Token) {
    && k.span.q < k.span.eq <= |t|
    && (if k.kind == 'a' then
          && (forall x :: k.span.q <= x < k.span.eq ==> !Blank(t[x]) && !Special(t[x]))
          && (k.span.eq < |t| ==> Blank(t[k.span.eq]) || Special(t[k.span.eq]))
        else if k.kind == '+' then
          k.span.eq == k.span.q + 2 && t[k.span.q] == t[k.span.q + 1] == '>'
        else
          && k.span.eq == k.span.q + 1 && Special(k.kind) && t[k.span.q] == k.kind
          && !(k.kind == '>' && k.span.eq < |t| && t[k.span.eq] == '>'))
  }

  ghost predicate Blanks(t: string, lo: nat, hi: nat) { lo <= hi <= |t| && forall x :: lo <= x < hi ==> Blank(t[x]) }

  /** The tokens `ts` are the text from `i` on, with only blanks between them. */
  ghost predicate LexOf(t: string, i: nat, ts: seq<Token>)
    decreases |ts|
  {
    if ts == [] then Blanks(t, i, |t|)
    else Blanks(t, i, ts[0].span.q) && TokenIs(t, ts[0]) && LexOf(t, ts[0].span.eq, ts[1..])
  }

  lemma {:induction false} SkipsBlanks(t: string, i: nat)
    requires i <= |t|
    ensures Blanks(t, i, SkipSpace(t, i))
    decreases |t| - i
  {
    if i < |t| {
      CharClasses(t[i]);
      if IsSpace(t[i]) {
        SkipsBlanks(t, i + 1);
      }
    }
  }

  lemma {:induction false} SkipsAllBlanks(t: string, i: nat, j: nat)
    requires Blanks(t, i, j) && (j < |t| ==> !Blank(t[j]))
    ensures SkipSpace(t, i) == j
    decreases j - i
  {
    if i < |t| { CharClasses(t[i]); }
    if i < j { SkipsAllBlanks(t, i + 1, j); }
  }

  lemma {:induction false} WordEndsAt(t: string, i: nat, j: nat)
    requires i <= j <= |t| && (j < |t| ==> Blank(t[j]) || Special(t[j]))
    requires forall x :: i <= x < j ==> !Blank(t[x]) && !Special(t[x])
    ensures WordEnd(t, i) == j
    decreases j - i
  {
    if i < |t| { CharClasses(t[i]); }
    if i < j { WordEndsAt(t, i + 1, j); }
  }

  lemma TokenAtIs(t: string, i: nat)
    requires i < |t| && !IsSpace(t[i])
    ensures TokenIs(t, TokenAt(t, i))
  {
    var k := TokenAt(t, i);
    CharClasses(t[i]);
    if k.kind == 'a' {
      forall x | i <= x < k.span.eq ensures !Blank(t[x]) && !Special(t[x]) { CharClasses(t[x]); }
      if k.span.eq < |t| { CharClasses(t[k.span.eq]); }
    }
  }

  lemma TokenIsAt(t: string, k: Token)
    requires TokenIs(t, k)
    ensures !IsSpace(t[k.span.q]) && !Blank(t[k.span.q]) && TokenAt(t, k.span.q) == k
  {
    var i := k.span.q;
    CharClasses(t[i]);
    if k.kind == 'a' {
      WordEndsAt(t, i, k.span.eq);
    }
  }

  lemma {:induction false} TokensLex(t: string, i: nat)
    requires i <= |t|
    ensures LexOf(t, i, Tokens(t, i))
    decreases |t| - i
  {
    var j := SkipSpace(t, i);
    SkipsBlanks(t, i);
    if j < |t| {
      var k := TokenAt(t, j);
      TokenAtIs(t, j);
      TokensLex(t, k.span.eq);
      assert Tokens(t, i) == [k] + Tokens(t, k.span.eq);
      assert Tokens(t, i)[1..] == Tokens(t, k.span.eq);
    }
  }

  /** A line has exactly one sequence of tokens: the one the lexer finds. */
  lemma {:induction false} LexIsTokens(t: string, i: nat, ts: seq<Token>)
    requires i <= |t|
    ensures LexOf(t, i, ts) <==> ts == Tokens(t, i)
    decreases |ts|
  {
    TokensLex(t, i);
    if LexOf(t, i, ts) {
      if ts == [] {
        SkipsAllBlanks(t, i, |t|);
      } else {
        var k := ts[0];
        TokenIsAt(t, k);
        SkipsAllBlanks(t, i, k.span.q);
        LexIsTokens(t, k.span.eq, ts[1..]);
        assert ts == [k] + ts[1..];
      }
    }
  }

  // ----- The order of tokens -----

  ghost predicate Sorted(ts: seq<Token>) {
    forall x, y {:trigger ts[x], ts[y]} :: 0 <= x < y < |ts| ==> ts[x].span.eq <= ts[y].span.q
  }

  lemma {:induction false} LexSorted(t: string, i: nat, ts: seq<Token>)
    requires LexOf(t, i, ts)
    ensures forall x {:trigger ts[x]} :: 0 <= x < |ts| ==> i <= ts[x].span.q && TokenIs(t, ts[x])
    ensures Sorted(ts)
    decreases |ts|
  {
    if ts != [] {
      var us := ts[1..];
      LexSorted(t, ts[0].span.eq, us);
      forall x | 0 <= x < |ts| ensures i <= ts[x].span.q && TokenIs(t, ts[x]) { assert x > 0 ==> ts[x] == us[x - 1]; }
      forall x, y | 0 <= x < y < |ts| ensures ts[x].span.eq <= ts[y].span.q {
        assert ts[y] == us[y - 1];
        assert x > 0 ==> ts[x] == us[x - 1];
      }
    }
  }

  /** Between two tokens that follow each other there are only blanks. */
  lemma {:induction false} LexGap(t: string, i: nat, ts: seq<Token>, x: nat)
    requires LexOf(t, i, ts) && x + 1 < |ts|
    ensures Blanks(t, ts[x].span.eq, ts[x + 1].span.q)
    decreases |ts|
  {
    if x > 0 {
      LexGap(t, ts[0].span.eq, ts[1..], x - 1);
    }
  }

  /** A character that is no blank belongs to the token before or after. */
  lemma {:induction false} LexBefore(t: string, i: nat, ts: seq<Token>, x: nat, p: nat)
    requires LexOf(t, i, ts) && x < |ts| && i <= p < |t| && !Blank(t[p]) && p + 1 == ts[x].span.q
    ensures x > 0 && ts[x - 1].span.eq == p + 1
    decreases |ts|
  {
    if x > 0 {
      if p < ts[0].span.eq {
        LexSorted(t, i, ts);
      } else {
        LexBefore(t, ts[0].span.eq, ts[1..], x - 1, p);
      }
    }
  }

  // ----- Redirections -----

  /** The redirections in a command. */
  function RedirsIn(c: Cmd): set<Redirection> {
    match c
    case Exec(_) => {}
    case Redir(d, r) => RedirsIn(d) + {r}
    case Pipe(l, r) => RedirsIn(l) + RedirsIn(r)
    case List(l, r) => RedirsIn(l) + RedirsIn(r)
    case Back(d) => RedirsIn(d)
  }

  /** What the operator before a file name means. */
  ghost predicate KindSays(kind: char, mode: nat, fd: nat) {
    || (kind == '<' && mode == O_RDONLY && fd == 0)
    || (kind == '>' && mode == O_WRONLY + O_CREATE + O_TRUNC && fd == 1)
    || (kind == '+' && mode == O_WRONLY + O_CREATE && fd == 1)
  }

  /** The redirection is that of the operator at `x` and the word after it. */
  ghost predicate IsRedirAt(ts: seq<Token>, r: Redirection, x: nat) {
    && x + 1 < |ts| && ts[x + 1].kind == 'a' && r.file == ts[x + 1].span
    && KindSays(ts[x].kind, r.mode, r.fd)
  }

  ghost predicate FromLine(ts: seq<Token>, r: Redirection) {
    exists x: nat {:trigger ts[x]} {:trigger IsRedirAt(ts, r, x)} :: IsRedirAt(ts, r, x)
  }

  ghost predicate AllFrom(ts: seq<Token>, rs: set<Redirection>) {
    forall r {:trigger r in rs} :: r in rs ==> FromLine(ts, r)
  }

  lemma FromPart(ts: seq<Token>, a: nat, b: nat, rs: set<Redirection>)
    requires a <= b <= |ts| && AllFrom(ts[a..b], rs)
    ensures AllFrom(ts, rs)
  {
    forall r | r in rs ensures FromLine(ts, r) {
      var x: nat :| IsRedirAt(ts[a..b], r, x);
      assert IsRedirAt(ts, r, a + x);
    }
  }

  lemma AllFromBoth(ts: seq<Token>, rs: set<Redirection>, rs': set<Redirection>)
    requires AllFrom(ts, rs) && AllFrom(ts, rs')
    ensures AllFrom(ts, rs + rs')
  {
  }

  function AsSet(rs: seq<Redirection>): set<Redirection> { set r | r in rs }

  lemma {:induction false} WrapRedirs(c: Cmd, rs: seq<Redirection>)
    ensures RedirsIn(Wrap(c, rs)) == RedirsIn(c) + AsSet(rs)
    decreases |rs|
  {
    if rs != [] {
      WrapRedirs(Redir(c, rs[0]), rs[1..]);
      assert rs == [rs[0]] + rs[1..];
    }
  }

  lemma OneRedir(ts: seq<Token>, r: Redirection)
    requires |ts| >= 2 && IsRedirKind(ts[0].kind) && ts[1].kind == 'a' && r == RedirOf(ts[0].kind, ts[1].span)
    ensures FromLine(ts, r)
  {
    assert IsRedirAt(ts, r, 0);
  }

  lemma FirstAndRest(rs: seq<Redirection>)
    requires rs != []
    ensures AsSet(rs) == {rs[0]} + AsSet(rs[1..])
  {
    assert rs == [rs[0]] + rs[1..];
  }

  lemma {:induction false} RedirsFrom(ts: seq<Token>, rs: seq<Redirection>)
    requires IsRedirs(ts, rs)
    ensures AllFrom(ts, AsSet(rs))
    decreases |rs|
  {
    hide RedirOf, AllFrom, FromLine, AsSet;
    if rs == [] {
      NoneFrom(ts, rs);
    } else {
      RedirsFrom(ts[2..], rs[1..]);
      assert ts[2..|ts|] == ts[2..];
      FromPart(ts, 2, |ts|, AsSet(rs[1..]));
      OneRedir(ts, rs[0]);
      FirstAndRest(rs);
      OneFrom(ts, rs[0]);
      AllFromBoth(ts, {rs[0]}, AsSet(rs[1..]));
    }
  }

  lemma NoneFrom(ts: seq<Token>, rs: seq<Redirection>)
    requires rs == []
    ensures AllFrom(ts, AsSet(rs))
  {
  }

  lemma OneFrom(ts: seq<Token>, r: Redirection)
    requires FromLine(ts, r)
    ensures AllFrom(ts, {r})
  {
  }

  lemma {:induction false} SimpleFrom(ts: seq<Token>, argv: seq<Span>, rs: seq<Redirection>)
    requires IsSimple(ts, argv, rs)
    ensures AllFrom(ts, AsSet(rs))
    decreases |ts|
  {
    hide RedirOf, AllFrom, FromLine, AsSet;
    if ts == [] {
      NoneFrom(ts, rs);
    } else if ts[0].kind == 'a' {
      SimpleFrom(ts[1..], argv[1..], rs);
      assert ts[1..|ts|] == ts[1..];
      FromPart(ts, 1, |ts|, AsSet(rs));
    } else {
      SimpleFrom(ts[2..], argv, rs[1..]);
      assert ts[2..|ts|] == ts[2..];
      FromPart(ts, 2, |ts|, AsSet(rs[1..]));
      OneRedir(ts, rs[0]);
      FirstAndRest(rs);
      OneFrom(ts, rs[0]);
      AllFromBoth(ts, {rs[0]}, AsSet(rs[1..]));
    }
  }

  lemma {:induction false} ExecFrom(ts: seq<Token>, c: Cmd)
    requires IsExec(ts, c)
    ensures AllFrom(ts, RedirsIn(c))
    decreases |ts|, 1
  {
    hide IsLine, IsSimple, IsRedirs, Wrap, AllFrom, AsSet;
    if IsSimpleCmd(ts, c) {
      var argv: seq<Span>, rs: seq<Redirection> :|
        IsSimple(ts, argv, rs) && |argv| < MAXARGS && c == Wrap(Exec(argv), rs);
      SimpleFrom(ts, argv, rs);
      WrapRedirs(Exec(argv), rs);
      assert {} + AsSet(rs) == AsSet(rs);
    } else {
      var k: nat, inner: Cmd, rs: seq<Redirection> :| IsBlockAt(ts, c, k, inner, rs);
      LineFrom(ts[1..k], inner);
      RedirsFrom(ts[k + 1..], rs);
      assert ts[k + 1..|ts|] == ts[k + 1..];
      FromPart(ts, 1, k, RedirsIn(inner));
      FromPart(ts, k + 1, |ts|, AsSet(rs));
      AllFromBoth(ts, RedirsIn(inner), AsSet(rs));
      WrapRedirs(inner, rs);
    }
  }

  lemma {:induction false} PipeFrom(ts: seq<Token>, c: Cmd)
    requires IsPipe(ts, c)
    ensures AllFrom(ts, RedirsIn(c))
    decreases |ts|, 2
  {
    hide IsExec, IsPipe, AllFrom;
    if IsExec(ts, c) {
      ExecFrom(ts, c);
    } else {
      var k := PipeForm(ts, c);
      ExecFrom(ts[..k], c.left);
      PipeFrom(ts[k + 1..], c.right);
      assert ts[0..k] == ts[..k] && ts[k + 1..|ts|] == ts[k + 1..];
      FromPart(ts, 0, k, RedirsIn(c.left));
      FromPart(ts, k + 1, |ts|, RedirsIn(c.right));
      AllFromBoth(ts, RedirsIn(c.left), RedirsIn(c.right));
    }
  }

  lemma {:induction false} AmpFrom(ts: seq<Token>, c: Cmd)
    requires IsAmp(ts, c)
    ensures AllFrom(ts, RedirsIn(c))
    decreases |ts|, 3
  {
    hide IsPipe, AllFrom;
    if IsPipe(ts, c) {
      PipeFrom(ts, c);
    } else {
      AmpFrom(ts[..|ts| - 1], c.cmd);
      assert ts[0..|ts| - 1] == ts[..|ts| - 1];
      FromPart(ts, 0, |ts| - 1, RedirsIn(c.cmd));
    }
  }

  /** Every redirection of a command is an operator of the line with the word after it. */
  lemma {:induction false} LineFrom(ts: seq<Token>, c: Cmd)
    requires IsLine(ts, c)
    ensures AllFrom(ts, RedirsIn(c))
    decreases |ts|, 4
  {
    hide IsAmp, IsLine, AllFrom;
    if IsAmp(ts, c) {
      AmpFrom(ts, c);
    } else {
      var k := LineForm(ts, c);
      AmpFrom(ts[..k], c.left);
      LineFrom(ts[k + 1..], c.right);
      assert ts[0..k] == ts[..k] && ts[k + 1..|ts|] == ts[k + 1..];
      FromPart(ts, 0, k, RedirsIn(c.left));
      FromPart(ts, k + 1, |ts|, RedirsIn(c.right));
      AllFromBoth(ts, RedirsIn(c.left), RedirsIn(c.right));
    }
  }

  // ----- Nothing of the line is lost -----

  /** Token `x`, if it is a redirection operator or a word, is in the command. */
  ghost predicate TokenTold(ts: seq<Token>, x: nat, rs: set<Redirection>, ss: set<Span>)
    requires x < |ts|
  {
    && (IsRedirKind(ts[x].kind) ==> exists r :: r in rs && IsRedirAt(ts, r, x))
    && (ts[x].kind == 'a' ==> ts[x].span in ss)
  }

  ghost predicate Told(ts: seq<Token>, rs: set<Redirection>, ss: set<Span>) {
    forall x: nat {:trigger TokenTold(ts, x, rs, ss)} :: x < |ts| ==> TokenTold(ts, x, rs, ss)
  }

  lemma ToldPart(ts: seq<Token>, a: nat, b: nat, rs: set<Redirection>, ss: set<Span>,
                 rs': set<Redirection>, ss': set<Span>, x: nat)
    requires a <= x < b <= |ts| && Told(ts[a..b], rs, ss) && rs <= rs' && ss <= ss'
    ensures TokenTold(ts, x, rs', ss')
  {
    assert TokenTold(ts[a..b], x - a, rs, ss);
    if IsRedirKind(ts[x].kind) {
      var r :| r in rs && IsRedirAt(ts[a..b], r, x - a);
      assert IsRedirAt(ts, r, x);
    }
  }

  /** Two parts with a symbol between them. */
  lemma ToldBoth(ts: seq<Token>, k: nat, rs: set<Redirection>, ss: set<Span>, rs': set<Redirection>, ss': set<Span>)
    requires k < |ts| && !IsRedirKind(ts[k].kind) && ts[k].kind != 'a'
    requires Told(ts[..k], rs, ss) && Told(ts[k + 1..], rs', ss')
    ensures Told(ts, rs + rs', ss + ss')
  {
    assert ts[0..k] == ts[..k] && ts[k + 1..|ts|] == ts[k + 1..];
    var rr, tt := rs + rs', ss + ss';
    forall x: nat | x < |ts| ensures TokenTold(ts, x, rr, tt) {
      if x < k {
        ToldPart(ts, 0, k, rs, ss, rr, tt, x);
      } else if x > k {
        ToldPart(ts, k + 1, |ts|, rs', ss', rr, tt, x);
      }
    }
  }

  function Files(rs: seq<Redirection>): set<Span> { set r | r in rs :: r.file }

  lemma {:induction false} RedirsTold(ts: seq<Token>, rs: seq<Redirection>)
    requires IsRedirs(ts, rs)
    ensures Told(ts, AsSet(rs), Files(rs))
    decreases |rs|
  {
    if rs != [] {
      RedirsTold(ts[2..], rs[1..]);
      assert Files(rs[1..]) + SpanSet([]) == Files(rs[1..]) && Files(rs) + SpanSet([]) == Files(rs);
      RestTold(ts, rs, []);
    }
  }

  /** A redirection in front. */
  lemma RestTold(ts: seq<Token>, rs: seq<Redirection>, argv: seq<Span>)
    requires |ts| >= 2 && IsRedirKind(ts[0].kind) && ts[1].kind == 'a'
    requires rs != [] && rs[0] == RedirOf(ts[0].kind, ts[1].span)
    requires Told(ts[2..], AsSet(rs[1..]), Files(rs[1..]) + SpanSet(argv))
    ensures Told(ts, AsSet(rs), Files(rs) + SpanSet(argv))
  {
    FirstAndRest(rs);
    assert rs == [rs[0]] + rs[1..] && ts[2..|ts|] == ts[2..];
    var rr, ss := AsSet(rs), Files(rs) + SpanSet(argv);
    assert rs[0] in rs && rs[0].file in Files(rs);
    forall x: nat | x < |ts| ensures TokenTold(ts, x, rr, ss) {
      if x == 0 {
        assert IsRedirAt(ts, rs[0], 0) && rs[0] in rr;
      } else if x >= 2 {
        ToldPart(ts, 2, |ts|, AsSet(rs[1..]), Files(rs[1..]) + SpanSet(argv), rr, ss, x);
      }
    }
  }

  function SpanSet(argv: seq<Span>): set<Span> { set s | s in argv }

  lemma {:induction false} SimpleTold(ts: seq<Token>, argv: seq<Span>, rs: seq<Redirection>)
    requires IsSimple(ts, argv, rs)
    ensures Told(ts, AsSet(rs), Files(rs) + SpanSet(argv))
    decreases |ts|
  {
    if ts != [] {
      if ts[0].kind == 'a' {
        SimpleTold(ts[1..], argv[1..], rs);
        WordTold(ts, argv, rs);
      } else {
        SimpleTold(ts[2..], argv, rs[1..]);
        RestTold(ts, rs, argv);
      }
    }
  }

  lemma WordTold(ts: seq<Token>, argv: seq<Span>, rs: seq<Redirection>)
    requires ts != [] && ts[0].kind == 'a' && argv != [] && argv[0] == ts[0].span
    requires Told(ts[1..], AsSet(rs), Files(rs) + SpanSet(argv[1..]))
    ensures Told(ts, AsSet(rs), Files(rs) + SpanSet(argv))
  {
    assert argv == [argv[0]] + argv[1..] && ts[1..|ts|] == ts[1..];
    var rr, ss := AsSet(rs), Files(rs) + SpanSet(argv);
    forall x: nat | x < |ts| ensures TokenTold(ts, x, rr, ss) {
      if x > 0 {
        ToldPart(ts, 1, |ts|, rr, Files(rs) + SpanSet(argv[1..]), rr, ss, x);
      }
    }
  }

  lemma {:induction false} ExecTold(ts: seq<Token>, c: Cmd)
    requires IsExec(ts, c)
    ensures Told(ts, RedirsIn(c), Strings(c))
    decreases |ts|, 1
  {
    hide IsLine, IsSimple, IsRedirs, Wrap, Told, AsSet;
    if IsSimpleCmd(ts, c) {
      var argv: seq<Span>, rs: seq<Redirection> :|
        IsSimple(ts, argv, rs) && |argv| < MAXARGS && c == Wrap(Exec(argv), rs);
      SimpleTold(ts, argv, rs);
      WrapRedirs(Exec(argv), rs);
      WrapStrings(Exec(argv), rs);
      assert {} + AsSet(rs) == AsSet(rs) && Strings(c) == Files(rs) + SpanSet(argv);
    } else {
      var k: nat, inner: Cmd, rs: seq<Redirection> :| IsBlockAt(ts, c, k, inner, rs);
      LineTold(ts[1..k], inner);
      RedirsTold(ts[k + 1..], rs);
      ToldBlock(ts, k, RedirsIn(inner), Strings(inner), AsSet(rs), Files(rs));
      WrapRedirs(inner, rs);
      WrapStrings(inner, rs);
      assert Strings(c) == Strings(inner) + Files(rs);
    }
  }

  lemma ToldBlock(ts: seq<Token>, k: nat, rs: set<Redirection>, ss: set<Span>, rs': set<Redirection>, ss': set<Span>)
    requires 0 < k < |ts| && ts[0].kind == '(' && ts[k].kind == ')'
    requires Told(ts[1..k], rs, ss) && Told(ts[k + 1..], rs', ss')
    ensures Told(ts, rs + rs', ss + ss')
  {
    assert ts[k + 1..|ts|] == ts[k + 1..];
    var rr, tt := rs + rs', ss + ss';
    forall x: nat | x < |ts| ensures TokenTold(ts, x, rr, tt) {
      if 0 < x < k {
        ToldPart(ts, 1, k, rs, ss, rr, tt, x);
      } else if x > k {
        ToldPart(ts, k + 1, |ts|, rs', ss', rr, tt, x);
      }
    }
  }

  lemma {:induction false} PipeTold(ts: seq<Token>, c: Cmd)
    requires IsPipe(ts, c)
    ensures Told(ts, RedirsIn(c), Strings(c))
    decreases |ts|, 2
  {
    hide IsExec, IsPipe, Told;
    if IsExec(ts, c) {
      ExecTold(ts, c);
    } else {
      var k := PipeForm(ts, c);
      ExecTold(ts[..k], c.left);
      PipeTold(ts[k + 1..], c.right);
      ToldBoth(ts, k, RedirsIn(c.left), Strings(c.left), RedirsIn(c.right), Strings(c.right));
    }
  }

  lemma {:induction false} AmpTold(ts: seq<Token>, c: Cmd)
    requires IsAmp(ts, c)
    ensures Told(ts, RedirsIn(c), Strings(c))
    decreases |ts|, 3
  {
    hide IsPipe, Told;
    if IsPipe(ts, c) {
      PipeTold(ts, c);
    } else {
      var k := |ts| - 1;
      AmpTold(ts[..k], c.cmd);
      ToldEmpty(ts[k + 1..]);
      ToldBoth(ts, k, RedirsIn(c.cmd), Strings(c.cmd), {}, {});
      assert RedirsIn(c.cmd) + {} == RedirsIn(c) && Strings(c.cmd) + {} == Strings(c);
    }
  }

  lemma ToldEmpty(ts: seq<Token>)
    requires ts == []
    ensures Told(ts, {}, {})
  {
  }

  /** Every redirection operator and every word of the line is in the command. */
  lemma {:induction false} LineTold(ts: seq<Token>, c: Cmd)
    requires IsLine(ts, c)
    ensures Told(ts, RedirsIn(c), Strings(c))
    decreases |ts|, 4
  {
    hide IsAmp, IsLine, Told;
    if IsAmp(ts, c) {
      AmpTold(ts, c);
    } else {
      var k := LineForm(ts, c);
      AmpTold(ts[..k], c.left);
      LineTold(ts[k + 1..], c.right);
      ToldBoth(ts, k, RedirsIn(c.left), Strings(c.left), RedirsIn(c.right), Strings(c.right));
    }
  }

  // ----- The order of what a command says -----

  ghost predicate AllBefore(a: set<Span>, b: set<Span>) {
    forall s, u {:trigger s in a, u in b} :: s in a && u in b ==> s.eq <= u.q
  }

  /** Arguments are in the order of the line and fewer than ten; of two redirections of one
      command the one further left is inside the other; what is piped or done first is
      further left. */
  ghost predicate Ordered(c: Cmd) {
    match c
    case Exec(argv) =>
      |argv| < 10 && forall i, j {:trigger argv[i], argv[j]} :: 0 <= i < j < |argv| ==> argv[i].eq <= argv[j].q
    case Redir(d, r) => Ordered(d) && (d.Redir? ==> d.redir.file.eq <= r.file.q)
    case Pipe(l, r) => Ordered(l) && Ordered(r) && AllBefore(Strings(l), Strings(r))
    case List(l, r) => Ordered(l) && Ordered(r) && AllBefore(Strings(l), Strings(r))
    case Back(d) => Ordered(d)
  }

  ghost predicate RedirsOrdered(rs: seq<Redirection>) {
    forall i, j {:trigger rs[i], rs[j]} :: 0 <= i < j < |rs| ==> rs[i].file.eq <= rs[j].file.q
  }

  lemma SortedPart(ts: seq<Token>, a: nat, b: nat)
    requires Sorted(ts) && a <= b <= |ts|
    ensures Sorted(ts[a..b])
  {
    var us := ts[a..b];
    forall x, y | 0 <= x < y < |us| ensures us[x].span.eq <= us[y].span.q {
      assert us[x] == ts[a + x] && us[y] == ts[a + y];
    }
  }

  /** What stands before position `k` in the line is before what stands after it. */
  lemma PartsApart(ts: seq<Token>, k: nat, m: nat)
    requires Sorted(ts) && k <= m <= |ts|
    ensures AllBefore(Words(ts[..k]), Words(ts[m..]))
  {
    forall s, u | s in Words(ts[..k]) && u in Words(ts[m..]) ensures s.eq <= u.q {
      var a: Token :| a in ts[..k] && a.span == s;
      var b: Token :| b in ts[m..] && b.span == u;
      var x :| 0 <= x < k && ts[x] == a;
      var y :| m <= y < |ts| && ts[y] == b;
    }
  }

  lemma {:induction false} WrapOrdered(c: Cmd, rs: seq<Redirection>)
    requires Ordered(c) && RedirsOrdered(rs) && (c.Redir? && rs != [] ==> c.redir.file.eq <= rs[0].file.q)
    ensures Ordered(Wrap(c, rs))
    decreases |rs|
  {
    if rs != [] {
      var us := rs[1..];
      forall i, j | 0 <= i < j < |us| ensures us[i].file.eq <= us[j].file.q {
        assert us[i] == rs[i + 1] && us[j] == rs[j + 1];
      }
      WrapOrdered(Redir(c, rs[0]), us);
    }
  }

  lemma InWords(ts: seq<Token>, s: Span) returns (x: nat)
    requires s in Words(ts)
    ensures x < |ts| && ts[x].span == s
  {
    var k: Token :| k in ts && k.kind == 'a' && k.span == s;
    x :| x < |ts| && ts[x] == k;
  }

  lemma {:induction false} RedirsInOrder(ts: seq<Token>, rs: seq<Redirection>)
    requires IsRedirs(ts, rs) && Sorted(ts)
    ensures RedirsOrdered(rs)
    decreases |rs|
  {
    if rs != [] {
      assert ts[2..|ts|] == ts[2..];
      SortedPart(ts, 2, |ts|);
      RedirsInOrder(ts[2..], rs[1..]);
      RedirsStrings(ts[2..], rs[1..]);
      FirstBefore(ts, 1, 2, rs);
    }
  }

  /** The redirection whose word is token `f` is before those that follow. */
  lemma FirstBefore(ts: seq<Token>, f: nat, m: nat, rs: seq<Redirection>)
    requires Sorted(ts) && f < m <= |ts| && rs != [] && rs[0].file == ts[f].span && RedirsOrdered(rs[1..])
    requires forall r {:trigger r in rs[1..]} :: r in rs[1..] ==> r.file in Words(ts[m..])
    ensures RedirsOrdered(rs)
  {
    var us := rs[1..];
    forall i, j | 0 <= i < j < |rs| ensures rs[i].file.eq <= rs[j].file.q {
      assert rs[j] == us[j - 1] && us[j - 1] in us;
      if i > 0 {
        assert rs[i] == us[i - 1];
      } else {
        var y := InWords(ts[m..], rs[j].file);
        assert ts[m..][y] == ts[m + y];
      }
    }
  }

  ghost predicate SpansOrdered(argv: seq<Span>) {
    forall i, j {:trigger argv[i], argv[j]} :: 0 <= i < j < |argv| ==> argv[i].eq <= argv[j].q
  }

  lemma {:induction false} SimpleInOrder(ts: seq<Token>, argv: seq<Span>, rs: seq<Redirection>)
    requires IsSimple(ts, argv, rs) && Sorted(ts)
    ensures RedirsOrdered(rs) && SpansOrdered(argv)
    decreases |ts|
  {
    if ts != [] {
      if ts[0].kind == 'a' {
        assert ts[1..|ts|] == ts[1..];
        SortedPart(ts, 1, |ts|);
        SimpleInOrder(ts[1..], argv[1..], rs);
        SimpleStrings(ts[1..], argv[1..], rs);
        FirstArg(ts, argv);
      } else {
        assert ts[2..|ts|] == ts[2..];
        SortedPart(ts, 2, |ts|);
        SimpleInOrder(ts[2..], argv, rs[1..]);
        SimpleStrings(ts[2..], argv, rs[1..]);
        FirstBefore(ts, 1, 2, rs);
      }
    }
  }

  lemma FirstArg(ts: seq<Token>, argv: seq<Span>)
    requires Sorted(ts) && ts != [] && argv != [] && argv[0] == ts[0].span && SpansOrdered(argv[1..])
    requires forall s {:trigger s in argv[1..]} :: s in argv[1..] ==> s in Words(ts[1..])
    ensures SpansOrdered(argv)
  {
    var us := argv[1..];
    forall i, j | 0 <= i < j < |argv| ensures argv[i].eq <= argv[j].q {
      assert argv[j] == us[j - 1] && us[j - 1] in us;
      if i > 0 {
        assert argv[i] == us[i - 1];
      } else {
        var y := InWords(ts[1..], argv[j]);
        assert ts[1..][y] == ts[1 + y];
      }
    }
  }

  lemma {:induction false} ExecOrdered(ts: seq<Token>, c: Cmd)
    requires IsExec(ts, c) && Sorted(ts)
    ensures Ordered(c)
    decreases |ts|, 1
  {
    hide IsLine, IsSimple, IsRedirs, Wrap, Sorted, Words;
    if IsSimpleCmd(ts, c) {
      var argv: seq<Span>, rs: seq<Redirection> :|
        IsSimple(ts, argv, rs) && |argv| < MAXARGS && c == Wrap(Exec(argv), rs);
      SimpleInOrder(ts, argv, rs);
      WrapOrdered(Exec(argv), rs);
    } else {
      var k: nat, inner: Cmd, rs: seq<Redirection> :| IsBlockAt(ts, c, k, inner, rs);
      SortedPart(ts, 1, k);
      LineOrdered(ts[1..k], inner);
      assert ts[k + 1..|ts|] == ts[k + 1..];
      SortedPart(ts, k + 1, |ts|);
      RedirsInOrder(ts[k + 1..], rs);
      InnerFirst(ts, k, inner, rs);
      WrapOrdered(inner, rs);
    }
  }

  lemma InnerFirst(ts: seq<Token>, k: nat, inner: Cmd, rs: seq<Redirection>)
    requires Sorted(ts) && 0 < k < |ts| && IsLine(ts[1..k], inner) && IsRedirs(ts[k + 1..], rs)
    ensures inner.Redir? && rs != [] ==> inner.redir.file.eq <= rs[0].file.q
  {
    hide IsLine, IsRedirs, Words, Sorted, AllBefore;
    if inner.Redir? && rs != [] {
      LineStrings(ts[1..k], inner);
      RedirsStrings(ts[k + 1..], rs);
      assert rs[0] in rs && inner.redir.file in Strings(inner);
      assert ts[1..k] == ts[..k][1..k];
      WordsOfPart(ts[..k], 1, k);
      PartsApart(ts, k, k + 1);
      BeforeAt(Words(ts[..k]), Words(ts[k + 1..]), inner.redir.file, rs[0].file);
    }
  }

  lemma BeforeAt(a: set<Span>, b: set<Span>, s: Span, u: Span)
    requires AllBefore(a, b) && s in a && u in b
    ensures s.eq <= u.q
  {
  }

  lemma BeforeLess(a: set<Span>, b: set<Span>, a': set<Span>, b': set<Span>)
    requires AllBefore(a, b) && a' <= a && b' <= b
    ensures AllBefore(a', b')
  {
  }

  lemma {:induction false} PipeOrdered(ts: seq<Token>, c: Cmd)
    requires IsPipe(ts, c) && Sorted(ts)
    ensures Ordered(c)
    decreases |ts|, 2
  {
    hide IsExec, IsPipe, Sorted, Words, AllBefore;
    if IsExec(ts, c) {
      ExecOrdered(ts, c);
    } else {
      var k := PipeForm(ts, c);
      assert ts[0..k] == ts[..k] && ts[k + 1..|ts|] == ts[k + 1..];
      SortedPart(ts, 0, k);
      SortedPart(ts, k + 1, |ts|);
      ExecOrdered(ts[..k], c.left);
      PipeOrdered(ts[k + 1..], c.right);
      ExecStrings(ts[..k], c.left);
      PipeStrings(ts[k + 1..], c.right);
      PartsApart(ts, k, k + 1);
      BeforeLess(Words(ts[..k]), Words(ts[k + 1..]), Strings(c.left), Strings(c.right));
    }
  }

  lemma {:induction false} AmpOrdered(ts: seq<Token>, c: Cmd)
    requires IsAmp(ts, c) && Sorted(ts)
    ensures Ordered(c)
    decreases |ts|, 3
  {
    hide IsPipe, Sorted;
    if IsPipe(ts, c) {
      PipeOrdered(ts, c);
    } else {
      assert ts[0..|ts| - 1] == ts[..|ts| - 1];
      SortedPart(ts, 0, |ts| - 1);
      AmpOrdered(ts[..|ts| - 1], c.cmd);
    }
  }

  lemma {:induction false} LineOrdered(ts: seq<Token>, c: Cmd)
    requires IsLine(ts, c) && Sorted(ts)
    ensures Ordered(c)
    decreases |ts|, 4
  {
    hide IsAmp, IsLine, Sorted, Words, AllBefore;
    if IsAmp(ts, c) {
      AmpOrdered(ts, c);
    } else {
      var k := LineForm(ts, c);
      assert ts[0..k] == ts[..k] && ts[k + 1..|ts|] == ts[k + 1..];
      SortedPart(ts, 0, k);
      SortedPart(ts, k + 1, |ts|);
      AmpOrdered(ts[..k], c.left);
      LineOrdered(ts[k + 1..], c.right);
      AmpStrings(ts[..k], c.left);
      LineStrings(ts[k + 1..], c.right);
      PartsApart(ts, k, k + 1);
      BeforeLess(Words(ts[..k]), Words(ts[k + 1..]), Strings(c.left), Strings(c.right));
    }
  }

  // ----- A whole line -----

  /** Is `j` the last character before `i` that is no blank? */
  ghost predicate LastBefore(t: string, i: nat, j: nat) { j < i <= |t| && !Blank(t[j]) && Blanks(t, j + 1, i) }

  /** The redirection is what the characters before its file say: '<' reads it as descriptor
      0, '>' truncates and '>>' appends to it as descriptor 1. */
  ghost predicate CharsSay(t: string, r: Redirection) {
    exists j: nat {:trigger LastBefore(t, r.file.q, j)} ::
      && LastBefore(t, r.file.q, j)
      && (t[j] == '<' <==> r.fd == 0 && r.mode == O_RDONLY)
      && (t[j] == '>' && !(j > 0 && t[j - 1] == '>') <==> r.fd == 1 && r.mode == O_WRONLY + O_CREATE + O_TRUNC)
      && (t[j] == '>' && j > 0 && t[j - 1] == '>' <==> r.fd == 1 && r.mode == O_WRONLY + O_CREATE)
      && (t[j] == '<' || t[j] == '>')
  }

  /** No operator stands right after another one, as each is followed by a word. */
  lemma NotAfterOperator(t: string, ts: seq<Token>, rs: set<Redirection>, ss: set<Span>, x: nat)
    requires LexOf(t, 0, ts) && Told(ts, rs, ss) && x < |ts| && IsRedirKind(ts[x].kind)
    requires ts[x].span.q > 0 && ts[x].span.q <= |t|
    ensures t[ts[x].span.q - 1] != '>'
  {
    var p := ts[x].span.q - 1;
    LexSorted(t, 0, ts);
    SpecialGreater();
    if x > 0 {
      assert TokenTold(ts, x - 1, rs, ss) && TokenIs(t, ts[x - 1]);
    }
    if t[p] == '>' {
      LexBefore(t, 0, ts, x, p);
    }
  }

  lemma SpecialGreater()
    ensures Special('>') && !Blank('>')
  {
    CharClasses('>');
  }

  lemma RedirChars(t: string, ts: seq<Token>, rs: set<Redirection>, ss: set<Span>, r: Redirection, x: nat)
    requires LexOf(t, 0, ts) && Told(ts, rs, ss) && IsRedirAt(ts, r, x)
    ensures CharsSay(t, r)
  {
    LexSorted(t, 0, ts);
    LexGap(t, 0, ts, x);
    var k := ts[x];
    assert TokenIs(t, k) && TokenIs(t, ts[x + 1]);
    var j := k.span.eq - 1;
    CharClasses(t[j]);
    if k.span.q > 0 {
      NotAfterOperator(t, ts, rs, ss, x);
    }
    assert LastBefore(t, r.file.q, j);
  }

  /** What a command of the line says is what the characters of the line say: every
      redirection, all its words and no others, and their order. */
  lemma LineSays(t: string, c: Cmd)
    requires IsLine(Tokens(t, 0), c)
    ensures forall r {:trigger r in RedirsIn(c)} :: r in RedirsIn(c) ==> CharsSay(t, r)
    ensures Ordered(c) && Strings(c) == Words(Tokens(t, 0))
  {
    hide IsLine, Tokens, Told, CharsSay;
    var ts := Tokens(t, 0);
    TokensLex(t, 0);
    LineTold(ts, c);
    LineFrom(ts, c);
    LexSorted(t, 0, ts);
    LineOrdered(ts, c);
    LineStrings(ts, c);
    WordsTold(ts, RedirsIn(c), Strings(c));
    forall r | r in RedirsIn(c) ensures CharsSay(t, r) {
      var x: nat :| IsRedirAt(ts, r, x);
      RedirChars(t, ts, RedirsIn(c), Strings(c), r, x);
    }
  }

  lemma WordsTold(ts: seq<Token>, rs: set<Redirection>, ss: set<Span>)
    requires Told(ts, rs, ss)
    ensures Words(ts) <= ss
  {
    forall s | s in Words(ts) ensures s in ss {
      var k: Token :| k in ts && k.kind == 'a' && k.span == s;
      var x: nat :| x < |ts| && ts[x] == k;
      assert TokenTold(ts, x, rs, ss);
    }
  }
}
