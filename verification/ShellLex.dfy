/** The tokens of a command line in user/sh.c, and where the strings of a command lie. */
module ShellLex {
  import opened ShellGrammar

  predicate IsSpace(c: char) { c == ' ' || c == '\t' || c == '\r' || c == '\n' || c as int == 11 }

  predicate IsSymbol(c: char) { c == '<' || c == '|' || c == '>' || c == '&' || c == ';' || c == '(' || c == ')' }

  function SkipSpace(t: string, i: nat): (r: nat)
    requires i <= |t|
    ensures i <= r <= |t| && (r < |t| ==> !IsSpace(t[r]))
    decreases |t| - i
  {
    if i < |t| && IsSpace(t[i]) then SkipSpace(t, i + 1) else i
  }

  function WordEnd(t: string, i: nat): (r: nat)
    requires i <= |t|
    ensures i <= r <= |t| && (r < |t| ==> IsSpace(t[r]) || IsSymbol(t[r]))
    ensures forall x :: i <= x < r ==> !IsSpace(t[x]) && !IsSymbol(t[x])
    decreases |t| - i
  {
    if i < |t| && !IsSpace(t[i]) && !IsSymbol(t[i]) then WordEnd(t, i + 1) else i
  }

  function TokenAt(t: string, i: nat): (k: Token)
    requires i < |t| && !IsSpace(t[i])
    ensures k.span.q == i < k.span.eq <= |t|
  {
    if t[i] == '>' then
      if i + 1 < |t| && t[i + 1] == '>' then Token('+', Span(i, i + 2)) else Token('>', Span(i, i + 1))
    else if IsSymbol(t[i]) then Token(t[i], Span(i, i + 1))
    else Token('a', Span(i, WordEnd(t, i)))
  }

  /** The tokens from character `i` on. */
  function Tokens(t: string, i: nat): seq<Token>
    requires i <= |t|
    decreases |t| - i
  {
    var j := SkipSpace(t, i);
    if j == |t| then [] else [TokenAt(t, j)] + Tokens(t, TokenAt(t, j).span.eq)
  }

  lemma {:induction false} SkipTwice(t: string, i: nat)
    requires i <= |t|
    ensures SkipSpace(t, SkipSpace(t, i)) == SkipSpace(t, i)
    decreases |t| - i
  {
    if i < |t| && IsSpace(t[i]) { SkipTwice(t, i + 1); }
  }

  lemma TokensAfterSkip(t: string, i: nat)
    requires i <= |t|
    ensures Tokens(t, SkipSpace(t, i)) == Tokens(t, i)
  {
    SkipTwice(t, i);
  }

  /** The character a token other than a word starts with. */
  function First(kind: char): char { if kind == '+' then '>' else kind }

  // ----- Strings of a command -----

  /** A longest stretch without spaces and symbols. */
  ghost predicate IsWord(t: string, s: Span) {
    && s.q < s.eq <= |t|
    && (forall x :: s.q <= x < s.eq ==> !IsSpace(t[x]) && !IsSymbol(t[x]))
    && (s.eq < |t| ==> IsSpace(t[s.eq]) || IsSymbol(t[s.eq]))
  }

  lemma {:induction false} WordTokens(t: string, i: nat, k: Token)
    requires i <= |t| && k in Tokens(t, i) && k.kind == 'a'
    ensures IsWord(t, k.span)
    decreases |t| - i
  {
    var j := SkipSpace(t, i);
    var k0 := TokenAt(t, j);
    assert Tokens(t, i) == [k0] + Tokens(t, k0.span.eq);
    if k != k0 { WordTokens(t, k0.span.eq, k); }
  }

  /** The strings a command refers to, and where they end. */
  function Strings(c: Cmd): set<Span> {
    match c
    case Exec(argv) => set s | s in argv
    case Redir(d, r) => Strings(d) + {r.file}
    case Pipe(l, r) => Strings(l) + Strings(r)
    case List(l, r) => Strings(l) + Strings(r)
    case Back(d) => Strings(d)
  }

  function Words(ts: seq<Token>): set<Span> { set k | k in ts && k.kind == 'a' :: k.span }

  lemma WordsOfPart(ts: seq<Token>, a: nat, b: nat)
    requires a <= b <= |ts|
    ensures Words(ts[a..b]) <= Words(ts)
  {
  }

  lemma {:induction false} WrapStrings(c: Cmd, rs: seq<Redirection>)
    ensures Strings(Wrap(c, rs)) == Strings(c) + set r | r in rs :: r.file
    decreases |rs|
  {
    if rs != [] {
      WrapStrings(Redir(c, rs[0]), rs[1..]);
      assert rs == [rs[0]] + rs[1..];
    }
  }

  lemma {:induction false} RedirsStrings(ts: seq<Token>, rs: seq<Redirection>)
    requires IsRedirs(ts, rs)
    ensures forall r {:trigger r in rs} :: r in rs ==> r.file in Words(ts)
    decreases |rs|
  {
    if rs != [] {
      RedirsStrings(ts[2..], rs[1..]);
      WordsOfPart(ts, 2, |ts|);
      assert ts[1] in ts;
      assert rs == [rs[0]] + rs[1..];
    }
  }

  lemma {:induction false} SimpleStrings(ts: seq<Token>, argv: seq<Span>, rs: seq<Redirection>)
    requires IsSimple(ts, argv, rs)
    ensures forall r {:trigger r in rs} :: r in rs ==> r.file in Words(ts)
    ensures forall s {:trigger s in argv} :: s in argv ==> s in Words(ts)
    decreases |ts|
  {
    if ts != [] {
      if ts[0].kind == 'a' {
        SimpleStrings(ts[1..], argv[1..], rs);
        WordsOfPart(ts, 1, |ts|);
        assert ts[0] in ts;
        assert argv == [argv[0]] + argv[1..];
      } else {
        SimpleStrings(ts[2..], argv, rs[1..]);
        WordsOfPart(ts, 2, |ts|);
        assert ts[1] in ts;
        assert rs == [rs[0]] + rs[1..];
      }
    }
  }

  lemma {:induction false} ExecStrings(ts: seq<Token>, c: Cmd)
    requires IsExec(ts, c)
    ensures Strings(c) <= Words(ts)
    decreases |ts|, 1
  {
    hide IsLine, IsSimple, IsRedirs, Wrap, Words;
    if IsSimpleCmd(ts, c) {
      var argv: seq<Span>, rs: seq<Redirection> :|
        IsSimple(ts, argv, rs) && |argv| < MAXARGS && c == Wrap(Exec(argv), rs);
      SimpleStrings(ts, argv, rs);
      WrapStrings(Exec(argv), rs);
    } else {
      var k: nat, inner: Cmd, rs: seq<Redirection> :| IsBlockAt(ts, c, k, inner, rs);
      LineStrings(ts[1..k], inner);
      RedirsStrings(ts[k + 1..], rs);
      WrapStrings(inner, rs);
      WordsOfPart(ts, 1, k);
      WordsOfPart(ts, k + 1, |ts|);
      assert ts[k + 1..|ts|] == ts[k + 1..];
    }
  }

  lemma {:induction false} PipeStrings(ts: seq<Token>, c: Cmd)
    requires IsPipe(ts, c)
    ensures Strings(c) <= Words(ts)
    decreases |ts|, 2
  {
    hide IsExec, Words;
    if IsExec(ts, c) {
      ExecStrings(ts, c);
    } else {
      var k: nat :| k < |ts| && ts[k].kind == '|' && IsExec(ts[..k], c.left) && IsPipe(ts[k + 1..], c.right);
      ExecStrings(ts[..k], c.left);
      PipeStrings(ts[k + 1..], c.right);
      WordsOfPart(ts, 0, k);
      WordsOfPart(ts, k + 1, |ts|);
      assert ts[0..k] == ts[..k] && ts[k + 1..|ts|] == ts[k + 1..];
    }
  }

  lemma {:induction false} AmpStrings(ts: seq<Token>, c: Cmd)
    requires IsAmp(ts, c)
    ensures Strings(c) <= Words(ts)
    decreases |ts|, 3
  {
    hide IsPipe, Words;
    if IsPipe(ts, c) {
      PipeStrings(ts, c);
    } else {
      AmpStrings(ts[..|ts| - 1], c.cmd);
      WordsOfPart(ts, 0, |ts| - 1);
      assert ts[0..|ts| - 1] == ts[..|ts| - 1];
    }
  }

  /** Every string of a command is a word of the line. */
  lemma {:induction false} LineStrings(ts: seq<Token>, c: Cmd)
    requires IsLine(ts, c)
    ensures Strings(c) <= Words(ts)
    decreases |ts|, 4
  {
    hide IsAmp, Words;
    if IsAmp(ts, c) {
      AmpStrings(ts, c);
    } else {
      var k: nat :| k < |ts| && ts[k].kind == ';' && IsAmp(ts[..k], c.left) && IsLine(ts[k + 1..], c.right);
      AmpStrings(ts[..k], c.left);
      LineStrings(ts[k + 1..], c.right);
      WordsOfPart(ts, 0, k);
      WordsOfPart(ts, k + 1, |ts|);
      assert ts[0..k] == ts[..k] && ts[k + 1..|ts|] == ts[k + 1..];
    }
  }

  /** The end of a string is never inside a string. */
  lemma EndsOutside(t: string, c: Cmd, s: Span, e: Span)
    requires IsLine(Tokens(t, 0), c) && s in Strings(c) && e in Strings(c)
    ensures IsWord(t, s) && !(s.q <= e.eq < s.eq)
  {
    LineStrings(Tokens(t, 0), c);
    var k: Token :| k in Tokens(t, 0) && k.kind == 'a' && k.span == s;
    var l: Token :| l in Tokens(t, 0) && l.kind == 'a' && l.span == e;
    WordTokens(t, 0, k);
    WordTokens(t, 0, l);
  }
}
