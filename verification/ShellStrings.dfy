/** nulterminate of user/sh.c: it cuts the line into C strings, one per token. */
module ShellStrings {
  import opened Options
  import opened Shell
  import opened ShellPrint
  import opened ShellGrammar

  const NUL: char := 0 as char

  /** A maximal word of `s`. */
  predicate WordSpan(s: string, p: Span)
  {
    && p.q < p.eq <= |s| && (forall k | p.q <= k < p.eq :: !IsSpace(s[k]) && !IsSymbol(s[k]))
    && (p.eq < |s| ==> IsSpace(s[p.eq]) || IsSymbol(s[p.eq]))
  }

  predicate SpansOk(s: string, c: Cmd)
  {
    match c
    case Exec(args) => forall k | 0 <= k < |args| :: WordSpan(s, args[k])
    case Redir(d, f, _) => SpansOk(s, d) && WordSpan(s, f)
    case Pipe(l, r) => SpansOk(s, l) && SpansOk(s, r)
    case List(l, r) => SpansOk(s, l) && SpansOk(s, r)
    case Back(d) => SpansOk(s, d)
  }

  predicate RedirsOk(s: string, rs: seq<Redirect>)
  {
    forall k | 0 <= k < |rs| :: WordSpan(s, rs[k].file)
  }

  lemma {:induction false} WordEndIs(s: string, i: nat)
    requires i <= |s|
    ensures var j := WordEnd(s, i);
            (forall k | i <= k < j :: !IsSpace(s[k]) && !IsSymbol(s[k]))
            && (j < |s| ==> IsSpace(s[j]) || IsSymbol(s[j]))
    decreases |s| - i
  {
    if i < |s| && !IsSpace(s[i]) && !IsSymbol(s[i]) {
      WordEndIs(s, i + 1);
    }
  }

  lemma TokenIsWord(s: string, i: nat)
    requires i <= |s|
    ensures var t := GetToken(s, i); t.kind == 'a' ==> WordSpan(s, Span(t.q, t.eq))
  {
    NotSpace(s, i);
    WordEndIs(s, SkipSpace(s, i));
  }

  /** Positions `i` to `j` are blank and end at something that is not. */
  ghost predicate Blank(s: string, i: nat, j: nat)
  {
    i <= j <= |s| && (forall k | i <= k < j :: IsSpace(s[k])) && (j < |s| ==> !IsSpace(s[j]))
  }

  lemma {:induction false} SkipIsBlank(s: string, i: nat)
    requires i <= |s|
    ensures Blank(s, i, SkipSpace(s, i))
    decreases |s| - i
  {
    if i < |s| && IsSpace(s[i]) {
      SkipIsBlank(s, i + 1);
    }
  }

  /**
  gettoken at any position of any line, by the text of the token: blanks are skipped on both sides; the token
  is empty at the end, >>, one symbol with > not followed by another, or a maximal word; the result says which.
  */
  lemma TokenIs(s: string, i: nat)
    requires i <= |s|
    ensures var t := GetToken(s, i); Blank(s, i, t.q) && t.q <= t.eq && Blank(s, t.eq, t.next)
    ensures var t := GetToken(s, i); t.kind == '0' <==> s[t.q..t.eq] == ""
    ensures var t := GetToken(s, i); t.kind == '0' <==> t.q == |s|
    ensures var t := GetToken(s, i); t.kind == '+' <==> s[t.q..t.eq] == ">>"
    ensures var t := GetToken(s, i); IsSymbol(t.kind) <==> (s[t.q..t.eq] == [t.kind] && t.kind != 'a')
    ensures var t := GetToken(s, i); t.kind == '>' && t.eq < |s| ==> s[t.eq] != '>'
    ensures var t := GetToken(s, i); t.kind == 'a' <==> WordSpan(s, Span(t.q, t.eq))
  {
    SkipIsBlank(s, i);
    var t := GetToken(s, i);
    SkipIsBlank(s, t.eq);
    TokenIsWord(s, i);
    hide SkipSpace, WordEnd;
    TokenLength(s, t.q, t.eq);
  }

  /** Short tokens by their characters. */
  lemma TokenLength(s: string, q: nat, eq: nat)
    requires q <= eq <= |s|
    ensures (s[q..eq] == "" <==> q == eq) && (forall c :: s[q..eq] == [c] <==> eq == q + 1 && s[q] == c)
    ensures s[q..eq] == ">>" <==> eq == q + 2 && s[q] == '>' && s[q + 1] == '>'
  {
    assert s[q..eq] == "" <==> |s[q..eq]| == 0;
    if eq == q + 1 {
      assert s[q..eq] == [s[q]];
    }
    if eq == q + 2 {
      assert s[q..eq] == [s[q], s[q + 1]];
    }
  }

  lemma {:induction false} WrapOk(s: string, c: Cmd, rs: seq<Redirect>)
    requires SpansOk(s, c) && RedirsOk(s, rs)
    ensures SpansOk(s, Wrap(c, rs))
    decreases |rs|
  {
    if rs != [] {
      WrapOk(s, Redir(c, rs[0].file, rs[0].mode), rs[1..]);
    }
  }

  lemma {:induction false} RedirsAreWords(s: string, i: nat)
    requires i <= |s|
    ensures ParseRedirs(s, i).Some? ==> RedirsOk(s, ParseRedirs(s, i).value.0)
    decreases |s| - i
  {
    if Peek(s, i, "<>") {
      var t := GetToken(s, SkipSpace(s, i));
      var f := GetToken(s, t.next);
      if f.kind == 'a' {
        TokenIsWord(s, t.next);
        RedirsAreWords(s, f.next);
      }
    }
  }

  lemma {:induction false} ArgsAreWords(s: string, i: nat, args: seq<Span>, rs: seq<Redirect>)
    requires i <= |s| && SpansOk(s, Exec(args)) && RedirsOk(s, rs)
    ensures ParseArgs(s, i, args, rs).Some? ==> SpansOk(s, ParseArgs(s, i, args, rs).value.0)
    decreases |s| - i
  {
    WrapOk(s, Exec(args), rs);
    if !Peek(s, i, "|)&;") {
      var t := GetToken(s, SkipSpace(s, i));
      if t.kind == 'a' && |args| + 1 < MAXARGS {
        TokenIsWord(s, SkipSpace(s, i));
        RedirsAreWords(s, t.next);
        var more := ParseRedirs(s, t.next);
        if more.Some? {
          ArgsAreWords(s, more.value.1, args + [Span(t.q, t.eq)], rs + more.value.0);
        }
      }
    }
  }

  /** Every token and file name of a parsed command is a maximal word of the line. */
  lemma {:induction false} LineIsWords(s: string, i: nat)
    requires i <= |s|
    ensures ParseLine(s, i).Some? ==> SpansOk(s, ParseLine(s, i).value.0)
    decreases |s| - i, 4
  {
    PipeIsWords(s, i);
    var c := ParsePipe(s, i);
    if c.Some? {
      TailIsWords(s, i, c.value.0, c.value.1);
    }
  }

  lemma {:induction false} TailIsWords(s: string, start: nat, c: Cmd, i: nat)
    requires start <= i <= |s| && SpansOk(s, c)
    ensures ParseTail(s, start, c, i).Some? ==> SpansOk(s, ParseTail(s, start, c, i).value.0)
    decreases |s| - start, 3, |s| - i
  {
    if Peek(s, i, "&") {
      TailIsWords(s, start, Back(c), GetToken(s, SkipSpace(s, i)).next);
    } else if Peek(s, i, ";") {
      LineIsWords(s, GetToken(s, SkipSpace(s, i)).next);
    }
  }

  lemma {:induction false} PipeIsWords(s: string, i: nat)
    requires i <= |s|
    ensures ParsePipe(s, i).Some? ==> SpansOk(s, ParsePipe(s, i).value.0)
    decreases |s| - i, 2
  {
    ExecIsWords(s, i);
    var c := ParseExec(s, i);
    if c.Some? && Peek(s, c.value.1, "|") {
      PipeIsWords(s, GetToken(s, SkipSpace(s, c.value.1)).next);
    }
  }

  lemma {:induction false} ExecIsWords(s: string, i: nat)
    requires i <= |s|
    ensures ParseExec(s, i).Some? ==> SpansOk(s, ParseExec(s, i).value.0)
    decreases |s| - i, 1
  {
    if Peek(s, i, "(") {
      BlockIsWords(s, SkipSpace(s, i));
    } else {
      RedirsAreWords(s, SkipSpace(s, i));
      var rs := ParseRedirs(s, SkipSpace(s, i));
      if rs.Some? {
        ArgsAreWords(s, rs.value.1, [], rs.value.0);
      }
    }
  }

  lemma {:induction false} BlockIsWords(s: string, i: nat)
    requires i <= |s| && Peek(s, i, "(")
    ensures ParseBlock(s, i).Some? ==> SpansOk(s, ParseBlock(s, i).value.0)
    decreases |s| - i, 0
  {
    var j := GetToken(s, SkipSpace(s, i)).next;
    LineIsWords(s, j);
    var c := ParseLine(s, j);
    if c.Some? && Peek(s, c.value.1, ")") {
      var n := GetToken(s, SkipSpace(s, c.value.1)).next;
      RedirsAreWords(s, n);
      if ParseRedirs(s, n).Some? {
        WrapOk(s, c.value.0, ParseRedirs(s, n).value.0);
      }
    }
  }

  // ---------------------------------------------------------------------------------------
  // nulterminate
  // ---------------------------------------------------------------------------------------

  /** `p` is a token or file name of `c`. */
  predicate Has(c: Cmd, p: Span)
  {
    match c
    case Exec(args) => p in args
    case Redir(d, f, _) => Has(d, p) || p == f
    case Pipe(l, r) => Has(l, p) || Has(r, p)
    case List(l, r) => Has(l, p) || Has(r, p)
    case Back(d) => Has(d, p)
  }

  /** Some token of `c` ends at `k`. */
  predicate EndsAt(c: Cmd, k: nat)
  {
    match c
    case Exec(args) => exists j :: 0 <= j < |args| && args[j].eq == k
    case Redir(d, f, _) => EndsAt(d, k) || f.eq == k
    case Pipe(l, r) => EndsAt(l, k) || EndsAt(r, k)
    case List(l, r) => EndsAt(l, k) || EndsAt(r, k)
    case Back(d) => EndsAt(d, k)
  }

  /** nulterminate: a NUL at the end of every token, nothing else changed. */
  method NulTerminate(buf: array<char>, c: Cmd)
    requires SpansFit(c, buf.Length)
    modifies buf
    ensures forall k | 0 <= k < buf.Length :: buf[k] == if EndsAt(c, k) then NUL else old(buf[k])
    decreases c
  {
    match c
    case Exec(args) =>
      var i := 0;
      while i < |args|
        invariant i <= |args|
        invariant forall k | 0 <= k < buf.Length :: buf[k] == if exists j :: 0 <= j < i && args[j].eq == k then NUL
                                                                   else old(buf[k])
      {
        buf[args[i].eq] := NUL;
        i := i + 1;
      }
    case Redir(d, f, _) =>
      NulTerminate(buf, d);
      buf[f.eq] := NUL;
    case Pipe(l, r) =>
      NulTerminate(buf, l);
      NulTerminate(buf, r);
    case List(l, r) =>
      NulTerminate(buf, l);
      NulTerminate(buf, r);
    case Back(d) =>
      NulTerminate(buf, d);
  }

  predicate SpansFit(c: Cmd, n: nat)
  {
    match c
    case Exec(args) => forall k | 0 <= k < |args| :: args[k].eq < n
    case Redir(d, f, _) => SpansFit(d, n) && f.eq < n
    case Pipe(l, r) => SpansFit(l, n) && SpansFit(r, n)
    case List(l, r) => SpansFit(l, n) && SpansFit(r, n)
    case Back(d) => SpansFit(d, n)
  }

  /** The C string that starts at `q`. */
  function CString(b: seq<char>, q: nat): string
    decreases |b| - q
  {
    if q < |b| && b[q] != NUL then [b[q]] + CString(b, q + 1) else ""
  }

  lemma {:induction false} CStringIs(b: seq<char>, q: nat, eq: nat)
    requires q <= eq < |b| && b[eq] == NUL && forall k | q <= k < eq :: b[k] != NUL
    ensures CString(b, q) == b[q..eq]
    decreases eq - q
  {
    if q < eq {
      CStringIs(b, q + 1, eq);
      assert b[q..eq] == [b[q]] + b[q + 1..eq];
    }
  }

  lemma {:induction false} HasWord(s: string, c: Cmd, p: Span)
    requires SpansOk(s, c) && Has(c, p)
    ensures WordSpan(s, p) && EndsAt(c, p.eq)
    decreases c
  {
    match c
    case Exec(args) =>
      var k :| 0 <= k < |args| && args[k] == p;
    case Redir(d, f, _) =>
      if Has(d, p) {
        HasWord(s, d, p);
      }
    case Pipe(l, r) =>
      if Has(l, p) {
        HasWord(s, l, p);
      } else {
        HasWord(s, r, p);
      }
    case List(l, r) =>
      if Has(l, p) {
        HasWord(s, l, p);
      } else {
        HasWord(s, r, p);
      }
    case Back(d) => HasWord(s, d, p);
  }

  /** Ends of tokens are never inside a token. */
  lemma {:induction false} EndIsOutside(s: string, c: Cmd, k: nat)
    requires SpansOk(s, c) && EndsAt(c, k)
    ensures k <= |s| && (k < |s| ==> IsSpace(s[k]) || IsSymbol(s[k]))
    decreases c
  {
    match c
    case Exec(args) =>
      var j :| 0 <= j < |args| && args[j].eq == k;
      assert WordSpan(s, args[j]);
    case Redir(d, f, _) =>
      if EndsAt(d, k) {
        EndIsOutside(s, d, k);
      }
    case Pipe(l, r) =>
      if EndsAt(l, k) {
        EndIsOutside(s, l, k);
      } else {
        EndIsOutside(s, r, k);
      }
    case List(l, r) =>
      if EndsAt(l, k) {
        EndIsOutside(s, l, k);
      } else {
        EndIsOutside(s, r, k);
      }
    case Back(d) => EndIsOutside(s, d, k);
  }

  /** The line with its NUL, and the same after nulterminate. */
  ghost predicate CutUp(s: string, c: Cmd, b: seq<char>)
  {
    |b| == |s| + 1 && forall k | 0 <= k < |b| :: b[k] == if EndsAt(c, k) || k == |s| then NUL else s[k]
  }

  /** After nulterminate every token and file name of the parsed command, read as a C string, is its text. */
  lemma TokensAreCStrings(s: string, c: Cmd, b: seq<char>, p: Span)
    requires (forall k | 0 <= k < |s| :: s[k] != NUL) && ParseCmd(s) == Some(c) && CutUp(s, c, b) && Has(c, p)
    ensures p.q < p.eq <= |s| && CString(b, p.q) == s[p.q..p.eq]
  {
    hide ParseLine;
    LineIsWords(s, 0);
    HasWord(s, c, p);
    forall k | p.q <= k < p.eq
      ensures b[k] == s[k]
    {
      if EndsAt(c, k) {
        EndIsOutside(s, c, k);
      }
    }
    CStringIs(b, p.q, p.eq);
    assert b[p.q..p.eq] == s[p.q..p.eq];
  }

  lemma {:induction false} WordsFit(s: string, c: Cmd)
    requires SpansOk(s, c)
    ensures SpansFit(c, |s| + 1)
    decreases c
  {
    match c
    case Exec(args) =>
      forall k | 0 <= k < |args|
        ensures args[k].eq < |s| + 1
      {
        assert WordSpan(s, args[k]);
      }
    case Redir(d, _, _) => WordsFit(s, d);
    case Pipe(l, r) =>
      WordsFit(s, l);
      WordsFit(s, r);
    case List(l, r) =>
      WordsFit(s, l);
      WordsFit(s, r);
    case Back(d) => WordsFit(s, d);
  }

  /** The command as it is run: its words and file names read as C strings in the buffer. */
  function AsRun(b: seq<char>, c: Cmd): Tree
  {
    match c
    case Exec(args) => Run(seq(|args|, k requires 0 <= k < |args| => CString(b, args[k].q)))
    case Redir(d, f, m) => To(AsRun(b, d), CString(b, f.q), m)
    case Pipe(l, r) => Piped(AsRun(b, l), AsRun(b, r))
    case List(l, r) => Seq(AsRun(b, l), AsRun(b, r))
    case Back(d) => Bg(AsRun(b, d))
  }

  lemma {:induction false} RunIsText(s: string, b: seq<char>, c: Cmd)
    requires forall p: Span {:trigger Has(c, p)} | Has(c, p) :: CString(b, p.q) == Slice(s, p)
    ensures AsRun(b, c) == Text(s, c)
    decreases c
  {
    hide CString, Slice;
    match c
    case Exec(args) =>
      assert forall k | 0 <= k < |args| :: Has(c, args[k]);
    case Redir(d, f, m) =>
      assert Has(c, f) && forall p: Span {:trigger Has(d, p)} :: Has(d, p) ==> Has(c, p);
      RunIsText(s, b, d);
    case Pipe(l, r) =>
      assert forall p: Span {:trigger Has(l, p)} {:trigger Has(r, p)} :: Has(l, p) || Has(r, p) ==> Has(c, p);
      RunIsText(s, b, l);
      RunIsText(s, b, r);
    case List(l, r) =>
      assert forall p: Span {:trigger Has(l, p)} {:trigger Has(r, p)} :: Has(l, p) || Has(r, p) ==> Has(c, p);
      RunIsText(s, b, l);
      RunIsText(s, b, r);
    case Back(d) =>
      assert forall p: Span {:trigger Has(d, p)} :: Has(d, p) ==> Has(c, p);
      RunIsText(s, b, d);
  }

  /** The line `s` spells the line `l` of the grammar. */
  ghost predicate Writes(s: string, l: Line)
  {
    LineOk(l) && Tokens(s, 0) == LineTokens(l)
  }

  ghost predicate IsLine(s: string)
  {
    exists l: Line :: Writes(s, l)
  }

  /** Run from the buffer `b`, command `c` is what the line `s` means. */
  ghost predicate RunsAs(s: string, b: seq<char>, c: Cmd)
  {
    forall l: Line {:trigger LineMeans(l)} | Writes(s, l) :: AsRun(b, c) == LineMeans(l)
  }

  lemma Accepts(s: string)
    ensures ParseCmd(s).Some? <==> IsLine(s)
  {
    hide ParseCmd, LineMeans, Tokens, LineTokens, LineOk;
    ParsesExactly(s);
    if ParseCmd(s).Some? {
      var l: Line :| LineOk(l) && Tokens(s, 0) == LineTokens(l);
      assert Writes(s, l);
      assert IsLine(s);
    }
    if IsLine(s) {
      var l: Line :| Writes(s, l);
      ParseMeans(s, l);
    }
  }

  lemma RunsAsMeant(s: string, c: Cmd, b: seq<char>)
    requires (forall k | 0 <= k < |s| :: s[k] != NUL) && ParseCmd(s) == Some(c) && CutUp(s, c, b)
    ensures RunsAs(s, b, c)
  {
    hide ParseCmd, CutUp, LineMeans, Tokens, LineTokens, LineOk, CString;
    forall p: Span | Has(c, p)
      ensures CString(b, p.q) == Slice(s, p)
    {
      TokensAreCStrings(s, c, b, p);
    }
    RunIsText(s, b, c);
    forall l: Line | Writes(s, l)
      ensures AsRun(b, c) == LineMeans(l)
    {
      ParseMeans(s, l);
    }
  }

  lemma CommandFits(s: string, c: Cmd)
    requires ParseCmd(s) == Some(c)
    ensures SpansFit(c, |s| + 1)
  {
    hide ParseLine;
    LineIsWords(s, 0);
    WordsFit(s, c);
  }

  /**
  parsecmd on a line in a buffer, NUL included: it accepts exactly the lines of the grammar, and what is left in the
  buffer is what the line means.
  */
  method Parsecmd(buf: array<char>) returns (r: Option<Cmd>)
    requires buf.Length > 0 && buf[buf.Length - 1] == NUL && forall k | 0 <= k < buf.Length - 1 :: buf[k] != NUL
    modifies buf
    ensures r == ParseCmd(old(buf[..buf.Length - 1])) && (r.None? ==> buf[..] == old(buf[..]))
    ensures r.Some? ==> CutUp(old(buf[..buf.Length - 1]), r.value, buf[..])
    ensures r.Some? ==> forall p: Span | Has(r.value, p) ::
              p.q < p.eq < buf.Length && CString(buf[..], p.q) == old(buf[..])[p.q..p.eq]
    ensures r.Some? <==> IsLine(old(buf[..buf.Length - 1]))
    ensures r.Some? ==> RunsAs(old(buf[..buf.Length - 1]), buf[..], r.value)
  {
    hide ParseCmd, IsLine, RunsAs, CString;
    ghost var s := buf[..buf.Length - 1];
    Accepts(s);
    r := ParseCmd(buf[..buf.Length - 1]);
    if r.Some? {
      CommandFits(s, r.value);
      NulTerminate(buf, r.value);
      forall p: Span | Has(r.value, p)
        ensures p.q < p.eq < buf.Length && CString(buf[..], p.q) == old(buf[..])[p.q..p.eq]
      {
        TokensAreCStrings(s, r.value, buf[..], p);
        assert s[p.q..p.eq] == old(buf[..])[p.q..p.eq];
      }
      RunsAsMeant(s, r.value, buf[..]);
    }
  }
}
