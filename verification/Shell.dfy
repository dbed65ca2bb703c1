/** The parser of user/sh.c on a line in memory, with its cursor and its NULs. */
module Shell {
  import opened ShellGrammar
  import opened ShellLex
  import opened ShellMeaning

  const NUL: char := '\0'

  /** A command, or one of the parser's panics. */
  datatype Outcome<T> = Done(value: T) | Panics

  /** What a parse function leaves of the tokens and returns is what the grammar's parser says. */
  ghost predicate Agrees<T(!new)>(p: Parse<T>, out: Outcome<T>, rest: seq<Token>) {
    match p
    case Panic => out == Panics
    case Ok(v, r) => out == Done(v) && rest == r
  }

  /** A C string that starts at `s.q` ends at the first NUL after it: it is the stretch `s`
      of the line. */
  ghost predicate ReadsBack(t: string, m: seq<char>, s: Span) {
    && s.q < s.eq <= |t| && |m| == |t| + 1
    && m[s.q..s.eq] == t[s.q..s.eq] && NUL !in m[s.q..s.eq] && m[s.eq] == NUL
  }

  /** NULs were written at the ends of the strings and nowhere else. */
  ghost predicate Terminated(m: seq<char>, m': seq<char>, strings: set<Span>) {
    && |m'| == |m|
    && (forall s {:trigger s in strings} :: s in strings ==> s.eq < |m| && m'[s.eq] == NUL)
    && (forall i {:trigger m'[i]} :: 0 <= i < |m| && m'[i] != m[i] ==> exists s :: s in strings && s.eq == i)
  }

  function SpansOf(argv: seq<Span>): set<Span> { set s | s in argv }

  lemma TerminateOne(m: seq<char>, m': seq<char>, argv: seq<Span>, s: Span)
    requires Terminated(m, m', SpansOf(argv)) && s.eq < |m|
    ensures Terminated(m, m'[s.eq := NUL], SpansOf(argv + [s]))
  {
    assert SpansOf(argv + [s]) == SpansOf(argv) + {s};
    var m2 := m'[s.eq := NUL];
    forall i | 0 <= i < |m| && m2[i] != m[i] ensures exists e :: e in SpansOf(argv + [s]) && e.eq == i {
      if i == s.eq {
        assert s in SpansOf(argv + [s]);
      } else {
        var e :| e in SpansOf(argv) && e.eq == i;
        assert e in SpansOf(argv + [s]);
      }
    }
  }

  lemma StringsReadBack(t: string, m: seq<char>, m': seq<char>, c: Cmd, s: Span)
    requires IsLine(Tokens(t, 0), c) && s in Strings(c) && NUL !in t && m == t + [NUL] && Terminated(m, m', Strings(c))
    ensures ReadsBack(t, m', s)
  {
    EndsOutside(t, c, s, s);
    forall i | s.q <= i < s.eq ensures m'[i] == t[i] {
      if m'[i] != m[i] {
        var e :| e in Strings(c) && e.eq == i;
        EndsOutside(t, c, s, e);
      }
    }
    assert m'[s.q..s.eq] == t[s.q..s.eq];
  }

  class Parser {
    const buf: array<char>
    const n: nat
    var ps: nat

    /** The line as a C string. */
    function Text(): string
      requires n <= buf.Length
      reads buf
    {
      buf[..n]
    }

    ghost predicate Valid()
      reads this, buf
    {
      buf.Length == n + 1 && buf[n] == NUL && ps <= n && NUL !in buf[..n]
    }

    /** The tokens not consumed yet. */
    ghost function Rest(): seq<Token>
      requires n <= buf.Length && ps <= n
      reads this, buf
    {
      Tokens(Text(), ps)
    }

    constructor (line: string)
      requires NUL !in line
      ensures Valid() && fresh(buf) && Text() == line && ps == 0
    {
      n, ps := |line|, 0;
      buf := new char[|line| + 1];
      new;
      for i := 0 to n
        invariant buf[..i] == line[..i] && ps == 0 && n == |line|
      {
        buf[i] := line[i];
      }
      buf[n] := NUL;
      assert buf[..n] == line;
    }

    /** The cursor moves past spaces. */
    method Skip()
      requires Valid()
      modifies `ps
      ensures Valid() && ps == SkipSpace(Text(), old(ps)) && Rest() == old(Rest())
    {
      while ps < n && IsSpace(buf[ps])
        invariant ps <= n && SkipSpace(Text(), ps) == SkipSpace(Text(), old(ps))
        decreases n - ps
      {
        ps := ps + 1;
      }
      TokensAfterSkip(Text(), old(ps));
    }

    /** Is the next token a symbol among `toks`? */
    method Peek(toks: string) returns (b: bool)
      requires Valid() && forall c :: c in toks ==> IsSymbol(c)
      modifies `ps
      ensures Valid() && Rest() == old(Rest()) && ps == SkipSpace(Text(), ps)
      ensures b <==> Rest() != [] && Rest()[0].kind != 'a' && First(Rest()[0].kind) in toks
    {
      Skip();
      SkipTwice(Text(), old(ps));
      b := buf[ps] != NUL && buf[ps] in toks;
    }

    /** The next token is consumed; NUL at the end of the line. */
    method GetToken() returns (ret: char, q: nat, eq: nat)
      requires Valid()
      modifies `ps
      ensures Valid() && (ret == NUL <==> old(Rest()) == [])
      ensures if old(Rest()) == [] then Rest() == []
              else old(Rest())[0] == Token(ret, Span(q, eq)) && Rest() == old(Rest())[1..]
    {
      hide TokenAt, IsSymbol;
      Skip();
      SkipTwice(Text(), old(ps));
      ret, q, eq := Scan();
      Skip();
    }

    /** The switch of gettoken, on the first character of a token. */
    method Scan() returns (ret: char, q: nat, eq: nat)
      requires Valid() && (ps < n ==> !IsSpace(buf[ps]))
      modifies `ps
      ensures Valid() && (ret == NUL <==> old(ps) == n) && q == old(ps) && eq == ps
      ensures if q == n then ps == n else Token(ret, Span(q, eq)) == TokenAt(Text(), q)
    {
      q := ps;
      ret := buf[ps];
      if ret == NUL {
        assert ps == n;
      } else if ret == '>' {
        ps := ps + 1;
        if buf[ps] == '>' {
          ret := '+';
          ps := ps + 1;
        }
      } else if IsSymbol(ret) {
        ps := ps + 1;
      } else {
        ret := 'a';
        while ps < n && !IsSpace(buf[ps]) && !IsSymbol(buf[ps])
          invariant q <= ps <= n && WordEnd(Text(), ps) == WordEnd(Text(), q)
          decreases n - ps
        {
          ps := ps + 1;
        }
      }
      eq := ps;
    }

    /** The redirections parseredirs wraps its command in. */
    method ParseRedirs() returns (out: Outcome<seq<Redirection>>)
      requires Valid()
      modifies `ps
      ensures Valid() && Agrees(Redirs(old(Rest())), out, Rest())
    {
      hide Rest;
      var acc: seq<Redirection> := [];
      BeforeNone(Redirs(Rest()));
      while true
        invariant Valid() && Redirs(old(Rest())) == Before(acc, Redirs(Rest()))
        decreases |Rest()|
      {
        var b := Peek("<>");
        if !b {
          assert acc + [] == acc;
          break;
        }
        ghost var ts := Rest();
        var tok, _, _ := GetToken();
        var ret, q, eq := GetToken();
        if ret != 'a' {
          return Panics;
        }
        assert ts[1..][1..] == ts[2..] && ts[1] == ts[1..][0];
        BeforeMore(acc, RedirOf(tok, Span(q, eq)), Redirs(ts[2..]));
        acc := acc + [RedirOf(tok, Span(q, eq))];
      }
      out := Done(acc);
    }

    /** The loop of parseexec. The exec node inside the redirections gets its arguments
        as they come, so the command is put together at the end. */
    method ParseArgs() returns (out: Outcome<Simple>)
      requires Valid()
      modifies `ps
      ensures Valid() && Agrees(Args(old(Rest()), 0), out, Rest())
    {
      hide Rest, Redirs;
      var argv: seq<Span>, rs: seq<Redirection> := [], [];
      AfterNone(Args(Rest(), 0));
      while true
        invariant Valid() && |argv| < MAXARGS && Args(old(Rest()), 0) == After(Simple(argv, rs), Args(Rest(), |argv|))
        decreases |Rest()|
      {
        ghost var ts := Rest();
        var b := Peek("|)&;");
        StopSymbols(ts);
        if b {
          break;
        }
        var tok, q, eq := GetToken();
        if tok == NUL {
          break;
        }
        if tok != 'a' || |argv| + 1 >= MAXARGS {
          return Panics;
        }
        var r := ParseRedirs();
        if r.Panics? {
          return Panics;
        }
        AfterMore(argv, rs, Span(q, eq), r.value, Args(Rest(), |argv| + 1));
        argv, rs := argv + [Span(q, eq)], rs + r.value;
      }
      assert argv + [] == argv && rs + [] == rs;
      out := Done(Simple(argv, rs));
    }

    method ParseExec() returns (out: Outcome<Cmd>)
      requires Valid()
      modifies `ps
      ensures Valid() && Agrees(ShellGrammar.ParseExec(old(Rest())), out, Rest())
      decreases |Rest()|, 1
    {
      hide Rest, Redirs, Args, ShellGrammar.ParseLine;
      var b := Peek("(");
      if b {
        out := ParseBlock();
        return;
      }
      var r := ParseRedirs();
      if r.Panics? {
        return Panics;
      }
      var a := ParseArgs();
      if a.Panics? {
        return Panics;
      }
      out := Done(Wrap(Exec(a.value.argv), r.value + a.value.rs));
    }

    method ParseBlock() returns (out: Outcome<Cmd>)
      requires Valid() && Head(Rest(), '(')
      modifies `ps
      ensures Valid() && Agrees(ShellGrammar.ParseExec(old(Rest())), out, Rest())
      decreases |Rest()|, 0
    {
      hide Rest, Redirs, Args, ShellGrammar.ParseLine;
      var _, _, _ := GetToken();
      var c := ParseLine();
      if c.Panics? {
        return Panics;
      }
      var b := Peek(")");
      if !b {
        return Panics;
      }
      var _, _, _ := GetToken();
      var r := ParseRedirs();
      if r.Panics? {
        return Panics;
      }
      out := Done(Wrap(c.value, r.value));
    }

    method ParsePipe() returns (out: Outcome<Cmd>)
      requires Valid()
      modifies `ps
      ensures Valid() && Agrees(ShellGrammar.ParsePipe(old(Rest())), out, Rest())
      decreases |Rest()|, 2
    {
      hide Rest, ShellGrammar.ParseExec;
      out := ParseExec();
      if out.Panics? {
        return;
      }
      var b := Peek("|");
      if b {
        var _, _, _ := GetToken();
        var d := ParsePipe();
        if d.Panics? {
          return Panics;
        }
        out := Done(Pipe(out.value, d.value));
      }
    }

    method ParseLine() returns (out: Outcome<Cmd>)
      requires Valid()
      modifies `ps
      ensures Valid() && Agrees(ShellGrammar.ParseLine(old(Rest())), out, Rest())
      decreases |Rest()|, 3
    {
      hide Rest, ShellGrammar.ParsePipe;
      out := ParsePipe();
      if out.Panics? {
        return;
      }
      var c := Ampersands(out.value);
      out := Done(c);
      var b := Peek(";");
      if b {
        var _, _, _ := GetToken();
        var d := ParseLine();
        if d.Panics? {
          return Panics;
        }
        out := Done(List(c, d.value));
      }
    }

    /** parsecmd: the whole line is a command of the grammar, and then every string of it is
        ended by a NUL; or there is a panic, exactly when the grammar has no such command.
        Its redirections, its words and their order are those the characters say. */
    method ParseCmd() returns (out: Outcome<Cmd>)
      requires Valid() && ps == 0
      modifies `ps, buf
      ensures out.Done? ==> IsLine(old(Rest()), out.value)
      ensures out.Done? ==> forall s :: s in Strings(out.value) ==> ReadsBack(old(Text()), buf[..], s)
      ensures out.Panics? ==> forall c :: !IsLine(old(Rest()), c)
      ensures LexOf(old(Text()), 0, old(Rest()))
      ensures out.Done? ==>
                forall r {:trigger r in RedirsIn(out.value)} :: r in RedirsIn(out.value) ==> CharsSay(old(Text()), r)
      ensures out.Done? ==> Ordered(out.value) && Strings(out.value) == Words(old(Rest()))
    {
      hide Rest, IsLine, ShellGrammar.ParseLine, Tokens, Strings, LexOf, CharsSay, RedirsIn, Ordered, Words;
      ghost var ts, t := Rest(), Text();
      TokensFrom0();
      TokensLex(t, 0);
      out := ParseLine();
      Skip();
      AtEnd();
      if out.Panics? || ps != n {
        forall c ensures !IsLine(ts, c) {
          ParserIsGrammar(ts, c);
        }
        return Panics;
      }
      ParserIsGrammar(ts, out.value);
      LineSays(t, out.value);
      ghost var before := buf[..];
      forall s | s in Strings(out.value) ensures s.eq <= n {
        EndsOutside(t, out.value, s, s);
      }
      NulTerminate(out.value);
      forall s | s in Strings(out.value) ensures ReadsBack(t, buf[..], s) {
        StringsReadBack(t, before, buf[..], out.value, s);
      }
    }

    lemma TokensFrom0()
      requires Valid() && ps == 0
      ensures Rest() == Tokens(Text(), 0)
    {
    }

    lemma AtEnd()
      requires Valid() && ps == SkipSpace(Text(), ps)
      ensures ps == n <==> Rest() == []
    {
    }

    /** nulterminate: a NUL at the end of every string of the command. */
    method NulTerminate(c: Cmd)
      requires buf.Length == n + 1 && forall s :: s in Strings(c) ==> s.eq <= n
      modifies buf
      ensures Terminated(old(buf[..]), buf[..], Strings(c))
      decreases c
    {
      match c {
        case Exec(argv) =>
          for i := 0 to |argv|
            invariant Terminated(old(buf[..]), buf[..], SpansOf(argv[..i]))
          {
            assert argv[i] in Strings(c);
            TerminateOne(old(buf[..]), buf[..], argv[..i], argv[i]);
            buf[argv[i].eq] := NUL;
            assert argv[..i + 1] == argv[..i] + [argv[i]];
          }
          assert argv[..|argv|] == argv;
        case Redir(d, r) =>
          NulTerminate(d);
          buf[r.file.eq] := NUL;
        case Pipe(l, r) =>
          NulTerminate(l);
          NulTerminate(r);
        case List(l, r) =>
          NulTerminate(l);
          NulTerminate(r);
        case Back(d) =>
          NulTerminate(d);
      }
    }

    /** The loop of parseline: one backcmd for each '&'. */
    method Ampersands(c0: Cmd) returns (c: Cmd)
      requires Valid()
      modifies `ps
      ensures Valid() && c == Backs(c0, Amps(old(Rest()))) && Rest() == old(Rest())[Amps(old(Rest()))..]
    {
      hide Rest;
      c := c0;
      ghost var m := 0;
      while true
        invariant Valid() && m <= |old(Rest())| && Rest() == old(Rest())[m..]
        invariant c == Backs(c0, m) && Amps(old(Rest())) == m + Amps(Rest())
        decreases |Rest()|
      {
        var b := Peek("&");
        if !b {
          break;
        }
        var _, _, _ := GetToken();
        c := Back(c);
        m := m + 1;
      }
    }
  }

  function Before(acc: seq<Redirection>, p: Parse<seq<Redirection>>): Parse<seq<Redirection>> {
    match p
    case Panic => Panic
    case Ok(rs, rest) => Ok(acc + rs, rest)
  }

  lemma BeforeNone(p: Parse<seq<Redirection>>)
    ensures Before([], p) == p
  {
    if p.Ok? { assert [] + p.value == p.value; }
  }

  lemma AfterNone(p: Parse<Simple>)
    ensures After(Simple([], []), p) == p
  {
    if p.Ok? { assert [] + p.value.argv == p.value.argv && [] + p.value.rs == p.value.rs; }
  }

  lemma StopSymbols(ts: seq<Token>)
    ensures ts != [] ==> (StopsArgs(ts) <==> ts[0].kind != 'a' && First(ts[0].kind) in "|)&;")
  {
    var toks := "|)&;";
    assert toks[0] == '|' && toks[1] == ')' && toks[2] == '&' && toks[3] == ';';
  }

  lemma BeforeMore(acc: seq<Redirection>, r: Redirection, p: Parse<seq<Redirection>>)
    ensures Before(acc, Before([r], p)) == Before(acc + [r], p)
  {
    if p.Ok? { assert acc + ([r] + p.value) == (acc + [r]) + p.value; }
  }

  function After(s: Simple, p: Parse<Simple>): Parse<Simple> {
    match p
    case Panic => Panic
    case Ok(more, rest) => Ok(Simple(s.argv + more.argv, s.rs + more.rs), rest)
  }

  lemma AfterMore(argv: seq<Span>, rs: seq<Redirection>, w: Span, rs': seq<Redirection>, p: Parse<Simple>)
    ensures After(Simple(argv, rs), After(Simple([w], rs'), p)) == After(Simple(argv + [w], rs + rs'), p)
  {
    if p.Ok? {
      assert argv + ([w] + p.value.argv) == (argv + [w]) + p.value.argv;
      assert rs + (rs' + p.value.rs) == (rs + rs') + p.value.rs;
    }
  }
}
