/**
The language of the shell: its grammar over tokens, what each line of it means, and that the parser accepts exactly
the lines of the grammar and gives each its meaning, with any spacing, redirections anywhere among the words, and
parentheses only where they are written.
*/
module ShellGrammar {
  import opened Options
  import opened Shell
  import opened ShellPrint

  // ---------------------------------------------------------------------------------------
  // Tokens
  // ---------------------------------------------------------------------------------------

  datatype Tk = Tk(kind: char, text: string)

  /** The tokens of `s` from position `i` on. */
  function Tokens(s: string, i: nat): seq<Tk>
    requires i <= |s|
    decreases |s| - i
  {
    var t := GetToken(s, i);
    if t.kind == '0' then [] else [Tk(t.kind, s[t.q..t.eq])] + Tokens(s, t.next)
  }

  /** A symbol as a token; '+' is >>. */
  function Sym(k: char): Tk
  {
    Tk(k, if k == '+' then ">>" else [k])
  }

  predicate First(ts: seq<Tk>, kinds: string)
  {
    ts != [] && ts[0].kind in kinds
  }

  lemma {:induction false} SkipTwice(s: string, i: nat)
    requires i <= |s|
    ensures SkipSpace(s, SkipSpace(s, i)) == SkipSpace(s, i) && GetToken(s, SkipSpace(s, i)) == GetToken(s, i)
    ensures Tokens(s, SkipSpace(s, i)) == Tokens(s, i)
  {
    NotSpace(s, i);
  }

  lemma SymbolText(s: string, i: nat)
    requires i <= |s|
    ensures var t := GetToken(s, i); t.kind != 'a' && t.kind != '0' ==> Tk(t.kind, s[t.q..t.eq]) == Sym(t.kind)
  {
    hide SkipSpace, WordEnd;
    var t := GetToken(s, i);
    if t.kind == '+' {
      assert s[t.q..t.eq] == [s[t.q], s[t.q + 1]];
    }
  }

  /** The first token and the rest. */
  lemma Next(s: string, i: nat)
    requires i <= |s|
    ensures var t, ts := GetToken(s, i), Tokens(s, i);
            if t.kind == '0' then ts == []
            else ts != [] && ts[0] == Tk(t.kind, s[t.q..t.eq]) && ts[1..] == Tokens(s, t.next)
                 && (t.kind != 'a' ==> ts[0] == Sym(t.kind))
  {
    SymbolText(s, i);
    hide GetToken;
    var t := GetToken(s, i);
    if t.kind != '0' {
      assert ([Tk(t.kind, s[t.q..t.eq])] + Tokens(s, t.next))[1..] == Tokens(s, t.next);
    }
  }

  /** peek tells the first token, given as its first character. */
  lemma PeekIs(s: string, i: nat, c: char)
    requires i <= |s| && c in "|)&;("
    ensures (SkipSpace(s, i) < |s| && s[SkipSpace(s, i)] == c) <==> First(Tokens(s, i), [c])
  {
    Next(s, i);
    NotSpace(s, i);
  }

  lemma PeekAngle(s: string, i: nat)
    requires i <= |s|
    ensures Peek(s, i, "<>") <==> First(Tokens(s, i), "<>+")
  {
    Next(s, i);
    NotSpace(s, i);
  }

  lemma PeekEnd(s: string, i: nat)
    requires i <= |s|
    ensures Peek(s, i, "|)&;") <==> First(Tokens(s, i), "|)&;")
  {
    Next(s, i);
    NotSpace(s, i);
  }

  lemma PeekOne(s: string, i: nat, c: char)
    requires i <= |s| && c in "|)&;("
    ensures Peek(s, i, [c]) <==> First(Tokens(s, i), [c])
    ensures Peek(s, i, [c]) ==>
              var t := GetToken(s, SkipSpace(s, i)); t.kind == c && Tokens(s, i) == [Sym(c)] + Tokens(s, t.next)
  {
    PeekIs(s, i, c);
    SkipTwice(s, i);
    Next(s, i);
  }

  // ---------------------------------------------------------------------------------------
  // The grammar
  // ---------------------------------------------------------------------------------------

  datatype R = R(mode: Mode, file: string)

  /** A word and the redirections behind it. */
  datatype Arg = Arg(word: string, rs: seq<R>)

  datatype Exe = Simple(pre: seq<R>, args: seq<Arg>) | Block(line: Line, rs: seq<R>)

  datatype Pipeline = One(e: Exe) | Bar(e: Exe, rest: Pipeline)

  /** A pipeline, `amps` ampersands, and perhaps a semicolon and more. */
  datatype Line = Last(p: Pipeline, amps: nat) | Then(p: Pipeline, amps: nat, rest: Line)

  function OpKind(m: Mode): char
  {
    match m
    case Input => '<'
    case Output => '>'
    case Append => '+'
  }

  function RedirTokens(rs: seq<R>): seq<Tk>
  {
    if rs == [] then [] else [Sym(OpKind(rs[0].mode)), Tk('a', rs[0].file)] + RedirTokens(rs[1..])
  }

  function ArgTokens(args: seq<Arg>): seq<Tk>
  {
    if args == [] then [] else [Tk('a', args[0].word)] + (RedirTokens(args[0].rs) + ArgTokens(args[1..]))
  }

  function Amps(n: nat): seq<Tk>
  {
    if n == 0 then [] else [Sym('&')] + Amps(n - 1)
  }

  function ExeTokens(e: Exe): seq<Tk>
  {
    match e
    case Simple(pre, args) => RedirTokens(pre) + ArgTokens(args)
    case Block(l, rs) => [Sym('(')] + (LineTokens(l) + ([Sym(')')] + RedirTokens(rs)))
  }

  function PipeTokens(p: Pipeline): seq<Tk>
  {
    match p
    case One(e) => ExeTokens(e)
    case Bar(e, r) => ExeTokens(e) + ([Sym('|')] + PipeTokens(r))
  }

  function LineTokens(l: Line): seq<Tk>
  {
    match l
    case Last(p, n) => PipeTokens(p) + Amps(n)
    case Then(p, n, r) => PipeTokens(p) + (Amps(n) + ([Sym(';')] + LineTokens(r)))
  }

  predicate ExeOk(e: Exe)
  {
    match e
    case Simple(_, args) => |args| < MAXARGS
    case Block(l, _) => LineOk(l)
  }

  predicate PipeOk(p: Pipeline)
  {
    ExeOk(p.e) && (p.Bar? ==> PipeOk(p.rest))
  }

  /** Each command has fewer than MAXARGS words. */
  predicate LineOk(l: Line)
  {
    PipeOk(l.p) && (l.Then? ==> LineOk(l.rest))
  }

  // ---------------------------------------------------------------------------------------
  // What it means
  // ---------------------------------------------------------------------------------------

  /** Redirections in order of appearance: the first one is applied first. */
  function Redirected(t: Tree, rs: seq<R>): Tree
    decreases |rs|
  {
    if rs == [] then t else Redirected(To(t, rs[0].file, rs[0].mode), rs[1..])
  }

  function WordsOf(args: seq<Arg>): seq<string>
  {
    if args == [] then [] else [args[0].word] + WordsOf(args[1..])
  }

  function RedirsOf(args: seq<Arg>): seq<R>
  {
    if args == [] then [] else args[0].rs + RedirsOf(args[1..])
  }

  function Behind(t: Tree, n: nat): Tree
    decreases n
  {
    if n == 0 then t else Behind(Bg(t), n - 1)
  }

  function ExeMeans(e: Exe): Tree
  {
    match e
    case Simple(pre, args) => Redirected(Run(WordsOf(args)), pre + RedirsOf(args))
    case Block(l, rs) => Redirected(LineMeans(l), rs)
  }

  function PipeMeans(p: Pipeline): Tree
  {
    match p
    case One(e) => ExeMeans(e)
    case Bar(e, r) => Piped(ExeMeans(e), PipeMeans(r))
  }

  function LineMeans(l: Line): Tree
  {
    match l
    case Last(p, n) => Behind(PipeMeans(p), n)
    case Then(p, n, r) => Seq(Behind(PipeMeans(p), n), LineMeans(r))
  }

  /** The words and redirections that spans of `s` spell. */
  function Spelled(s: string, args: seq<Span>): seq<string>
  {
    seq(|args|, k requires 0 <= k < |args| => Slice(s, args[k]))
  }

  function RedirsIn(s: string, rs: seq<Redirect>): seq<R>
  {
    seq(|rs|, k requires 0 <= k < |rs| => R(rs[k].mode, Slice(s, rs[k].file)))
  }

  lemma {:induction false} WrapMeans(s: string, c: Cmd, rs: seq<Redirect>)
    ensures Text(s, Wrap(c, rs)) == Redirected(Text(s, c), RedirsIn(s, rs))
    decreases |rs|
  {
    if rs != [] {
      WrapMeans(s, Redir(c, rs[0].file, rs[0].mode), rs[1..]);
      assert RedirsIn(s, rs)[1..] == RedirsIn(s, rs[1..]);
    }
  }

  // ---------------------------------------------------------------------------------------
  // Redirections
  // ---------------------------------------------------------------------------------------

  /** A parse that consumed exactly the tokens `ts`. */
  ghost predicate Consumed(s: string, i: nat, ts: seq<Tk>, j: nat)
  {
    i <= |s| && j <= |s| && Tokens(s, i) == ts + Tokens(s, j)
  }

  lemma ConsumedJoin(s: string, i: nat, ts: seq<Tk>, j: nat, us: seq<Tk>, k: nat)
    requires Consumed(s, i, ts, j) && Consumed(s, j, us, k)
    ensures Consumed(s, i, ts + us, k)
  {
    assert ts + us + Tokens(s, k) == ts + (us + Tokens(s, k));
  }

  lemma NoRedir(s: string, i: nat)
    requires i <= |s| && !First(Tokens(s, i), "<>+")
    ensures ParseRedirs(s, i) == Some(([], SkipSpace(s, i))) && Tokens(s, SkipSpace(s, i)) == Tokens(s, i)
  {
    PeekAngle(s, i);
    SkipTwice(s, i);
  }

  lemma NoFile(s: string, i: nat)
    requires i <= |s| && First(Tokens(s, i), "<>+") && !First(Tokens(s, i)[1..], "a")
    ensures ParseRedirs(s, i) == None
  {
    PeekAngle(s, i);
    SkipTwice(s, i);
    Next(s, i);
    Next(s, GetToken(s, i).next);
    hide GetToken, SkipSpace, Tokens, Peek;
  }

  predicate OneMore(s: string, i: nat, r: Redirect, j: nat)
    requires i <= |s| && j <= |s|
  {
    ParseRedirs(s, i) == match ParseRedirs(s, j)
                         case None => None
                         case Some(x) => Some(([r] + x.0, x.1))
  }

  /** One round of parseredirs. */
  lemma RedirRound(s: string, i: nat) returns (r: Redirect, j: nat)
    requires i <= |s| && First(Tokens(s, i), "<>+") && First(Tokens(s, i)[1..], "a")
    ensures i < j <= |s| && Tokens(s, j) == Tokens(s, i)[2..] && Tokens(s, i)[0] == Sym(OpKind(r.mode))
    ensures Slice(s, r.file) == Tokens(s, i)[1].text && OneMore(s, i, r, j)
  {
    PeekAngle(s, i);
    SkipTwice(s, i);
    Next(s, i);
    var t := GetToken(s, i);
    Next(s, t.next);
    var f := GetToken(s, t.next);
    hide GetToken, SkipSpace, Tokens, Peek;
    var m := if t.kind == '<' then Input else if t.kind == '>' then Output else Append;
    assert OpKind(m) == t.kind;
    r, j := Redirect(Span(f.q, f.eq), m), f.next;
    assert Tokens(s, i)[1] == Tokens(s, i)[1..][0] && Tokens(s, i)[2..] == Tokens(s, i)[1..][1..];
  }

  lemma RedirsMore(s: string, r: Redirect, rs: seq<Redirect>)
    ensures RedirsIn(s, [r] + rs) == [R(r.mode, Slice(s, r.file))] + RedirsIn(s, rs)
  {
  }

  /** parseredirs on the redirections `rs`. */
  lemma {:induction false} ReadsRedirs(s: string, i: nat, rs: seq<R>, rest: seq<Tk>)
    requires i <= |s| && Tokens(s, i) == RedirTokens(rs) + rest && !First(rest, "<>+")
    ensures ParseRedirs(s, i).Some? && Tokens(s, ParseRedirs(s, i).value.1) == rest
    ensures RedirsIn(s, ParseRedirs(s, i).value.0) == rs
    decreases |rs|
  {
    hide ParseRedirs, Tokens;
    if rs == [] {
      NoRedir(s, i);
      assert RedirTokens(rs) + rest == rest;
    } else {
      var us := RedirTokens(rs[1..]);
      assert Tokens(s, i) == [Sym(OpKind(rs[0].mode)), Tk('a', rs[0].file)] + (us + rest);
      var r, j := RedirRound(s, i);
      ReadsRedirs(s, j, rs[1..], rest);
      RedirsMore(s, r, ParseRedirs(s, j).value.0);
    }
  }

  /** What parseredirs accepts is redirections. */
  lemma {:induction false} SaysRedirs(s: string, i: nat)
    requires i <= |s| && ParseRedirs(s, i).Some?
    ensures var r := ParseRedirs(s, i).value;
            Consumed(s, i, RedirTokens(RedirsIn(s, r.0)), r.1) && !First(Tokens(s, r.1), "<>+")
    decreases |s| - i
  {
    hide ParseRedirs, Tokens;
    if !First(Tokens(s, i), "<>+") {
      NoRedir(s, i);
    } else {
      if !First(Tokens(s, i)[1..], "a") {
        NoFile(s, i);
      }
      var r, j := RedirRound(s, i);
      SaysRedirs(s, j);
      var x := ParseRedirs(s, j).value;
      RedirsMore(s, r, x.0);
      assert Tokens(s, i) == [Tokens(s, i)[0], Tokens(s, i)[1]] + Tokens(s, j);
      assert RedirsIn(s, [r] + x.0)[1..] == RedirsIn(s, x.0);
    }
  }

  // ---------------------------------------------------------------------------------------
  // Words
  // ---------------------------------------------------------------------------------------

  /** A command ends here. */
  predicate Ends(ts: seq<Tk>)
  {
    ts == [] || First(ts, "|)&;")
  }

  lemma ArgsStop(s: string, i: nat, done: seq<Span>, rs: seq<Redirect>)
    requires i <= |s| && Ends(Tokens(s, i))
    ensures var r := ParseArgs(s, i, done, rs);
            r.Some? && r.value.0 == Wrap(Exec(done), rs) && Tokens(s, r.value.1) == Tokens(s, i)
  {
    PeekEnd(s, i);
    SkipTwice(s, i);
    Next(s, i);
  }

  lemma ArgsFail(s: string, i: nat, done: seq<Span>, rs: seq<Redirect>)
    requires i <= |s| && !Ends(Tokens(s, i)) && (!First(Tokens(s, i), "a") || |done| + 1 >= MAXARGS)
    ensures ParseArgs(s, i, done, rs) == None
  {
    PeekEnd(s, i);
    SkipTwice(s, i);
    Next(s, i);
  }

  /** One round of parseexec's loop. */
  lemma ArgRound(s: string, i: nat, done: seq<Span>, rs: seq<Redirect>) returns (p: Span, j: nat)
    requires i <= |s| && First(Tokens(s, i), "a") && |done| + 1 < MAXARGS
    ensures i < j <= |s| && Tokens(s, j) == Tokens(s, i)[1..] && Slice(s, p) == Tokens(s, i)[0].text
    ensures ParseArgs(s, i, done, rs) == match ParseRedirs(s, j)
                                         case None => None
                                         case Some(m) => ParseArgs(s, m.1, done + [p], rs + m.0)
  {
    PeekEnd(s, i);
    SkipTwice(s, i);
    Next(s, i);
    var t := GetToken(s, i);
    p, j := Span(t.q, t.eq), t.next;
  }

  /** The command that `done` and `rs` and then `args` make. */
  ghost predicate ArgsMean(s: string, c: Cmd, done: seq<Span>, rs: seq<Redirect>, args: seq<Arg>)
  {
    Text(s, c) == Redirected(Run(Spelled(s, done) + WordsOf(args)), RedirsIn(s, rs) + RedirsOf(args))
  }

  lemma NoMoreArgs(s: string, done: seq<Span>, rs: seq<Redirect>)
    ensures ArgsMean(s, Wrap(Exec(done), rs), done, rs, [])
  {
    WrapMeans(s, Exec(done), rs);
    assert Spelled(s, done) + WordsOf([]) == Spelled(s, done);
    assert RedirsIn(s, rs) + RedirsOf([]) == RedirsIn(s, rs);
  }

  lemma OneMoreArg(s: string, c: Cmd, done: seq<Span>, rs: seq<Redirect>, p: Span, m: seq<Redirect>, args: seq<Arg>)
    requires args != [] && Slice(s, p) == args[0].word && RedirsIn(s, m) == args[0].rs
    requires ArgsMean(s, c, done + [p], rs + m, args[1..])
    ensures ArgsMean(s, c, done, rs, args)
  {
    hide Text, Redirected, Slice;
    SpelledMore(s, done, p);
    RedirsJoin(s, rs, m);
    hide Spelled, RedirsIn;
    assert Spelled(s, done + [p]) + WordsOf(args[1..]) == Spelled(s, done) + WordsOf(args);
    assert RedirsIn(s, rs + m) + RedirsOf(args[1..]) == RedirsIn(s, rs) + RedirsOf(args);
  }

  lemma SpelledMore(s: string, done: seq<Span>, p: Span)
    ensures Spelled(s, done + [p]) == Spelled(s, done) + [Slice(s, p)]
  {
  }

  lemma RedirsJoin(s: string, rs: seq<Redirect>, m: seq<Redirect>)
    ensures RedirsIn(s, rs + m) == RedirsIn(s, rs) + RedirsIn(s, m)
  {
  }

  lemma ArgTokensMore(args: seq<Arg>, rest: seq<Tk>)
    requires args != []
    ensures ArgTokens(args) + rest
            == [Tk('a', args[0].word)] + (RedirTokens(args[0].rs) + (ArgTokens(args[1..]) + rest))
  {
  }

  lemma ArgsBegin(args: seq<Arg>, rest: seq<Tk>)
    requires Ends(rest)
    ensures var ts := ArgTokens(args) + rest; Ends(ts) || First(ts, "a")
  {
    if args == [] {
      assert ArgTokens(args) + rest == rest;
    }
  }

  /** parseexec's loop on words with redirections among them. */
  lemma {:induction false} ReadsWords(s: string, i: nat, done: seq<Span>, rs: seq<Redirect>, args: seq<Arg>,
                                      rest: seq<Tk>)
    requires i <= |s| && Tokens(s, i) == ArgTokens(args) + rest && Ends(rest) && |done| + |args| < MAXARGS
    ensures var r := ParseArgs(s, i, done, rs);
            r.Some? && Tokens(s, r.value.1) == rest && ArgsMean(s, r.value.0, done, rs, args)
    decreases |args|
  {
    hide ParseArgs, Tokens, ParseRedirs, ArgsMean, Wrap;
    if args == [] {
      assert Tokens(s, i) == rest;
      ArgsStop(s, i, done, rs);
      NoMoreArgs(s, done, rs);
    } else {
      ArgTokensMore(args, rest);
      var p, j := ArgRound(s, i, done, rs);
      var later := ArgTokens(args[1..]) + rest;
      ArgsBegin(args[1..], rest);
      hide ArgTokens;
      ReadsRedirs(s, j, args[0].rs, later);
      var m := ParseRedirs(s, j).value;
      ReadsWords(s, m.1, done + [p], rs + m.0, args[1..], rest);
      OneMoreArg(s, ParseArgs(s, i, done, rs).value.0, done, rs, p, m.0, args);
    }
  }

  /** What parseexec's loop accepts is such words. */
  lemma {:induction false} SaysWords(s: string, i: nat, done: seq<Span>, rs: seq<Redirect>) returns (args: seq<Arg>)
    requires i <= |s| && ParseArgs(s, i, done, rs).Some? && |done| < MAXARGS
    ensures var r := ParseArgs(s, i, done, rs).value;
            Consumed(s, i, ArgTokens(args), r.1) && ArgsMean(s, r.0, done, rs, args) && |done| + |args| < MAXARGS
    decreases |s| - i
  {
    hide ParseArgs, Tokens, ParseRedirs, ArgsMean, Wrap;
    if Ends(Tokens(s, i)) {
      args := [];
      ArgsStop(s, i, done, rs);
      NoMoreArgs(s, done, rs);
    } else {
      if !First(Tokens(s, i), "a") || |done| + 1 >= MAXARGS {
        ArgsFail(s, i, done, rs);
      }
      var p, j := ArgRound(s, i, done, rs);
      SaysRedirs(s, j);
      var m := ParseRedirs(s, j).value;
      var more := SaysWords(s, m.1, done + [p], rs + m.0);
      args := [Arg(Slice(s, p), RedirsIn(s, m.0))] + more;
      assert args[1..] == more;
      OneMoreArg(s, ParseArgs(s, i, done, rs).value.0, done, rs, p, m.0, args);
      var k := ParseArgs(s, i, done, rs).value.1;
      ArgTokensMore(args, Tokens(s, k));
      assert Tokens(s, i) == [Tokens(s, i)[0]] + Tokens(s, j);
    }
  }

  // ---------------------------------------------------------------------------------------
  // Commands, pipelines, lines: the parser reads the grammar
  // ---------------------------------------------------------------------------------------

  lemma RedirsBegin(rs: seq<R>, rest: seq<Tk>)
    requires Ends(rest) || First(rest, "a")
    ensures !First(RedirTokens(rs) + rest, "(")
  {
    if rs == [] {
      assert RedirTokens(rs) + rest == rest;
    }
  }

  lemma ReadsSimple(s: string, i: nat, pre: seq<R>, args: seq<Arg>, rest: seq<Tk>)
    requires i <= |s| && Tokens(s, i) == RedirTokens(pre) + ArgTokens(args) + rest && Ends(rest) && |args| < MAXARGS
    ensures var r := ParseExec(s, i);
            r.Some? && Tokens(s, r.value.1) == rest && Text(s, r.value.0) == ExeMeans(Simple(pre, args))
  {
    hide ParseArgs, Tokens, ParseRedirs, ParseBlock, RedirTokens, ArgTokens, Redirected, WordsOf, RedirsOf;
    var later := ArgTokens(args) + rest;
    assert Tokens(s, i) == RedirTokens(pre) + later;
    ArgsBegin(args, rest);
    RedirsBegin(pre, later);
    PeekOne(s, i, '(');
    SkipTwice(s, i);
    ReadsRedirs(s, SkipSpace(s, i), pre, later);
    var m := ParseRedirs(s, SkipSpace(s, i)).value;
    ReadsWords(s, m.1, [], m.0, args, rest);
    assert Spelled(s, []) + WordsOf(args) == WordsOf(args);
  }

  lemma ReadsBlock(s: string, i: nat, j: nat, l: Line, rs: seq<R>, rest: seq<Tk>)
    requires i <= |s| && Tokens(s, i) == ExeTokens(Block(l, rs)) + rest && Ends(rest) && First(Tokens(s, i), "(")
    requires j == GetToken(s, SkipSpace(s, i)).next
    requires var r := ParseLine(s, j);
             r.Some? && Tokens(s, r.value.1) == [Sym(')')] + (RedirTokens(rs) + rest)
             && Text(s, r.value.0) == LineMeans(l)
    ensures var r := ParseExec(s, i);
            r.Some? && Tokens(s, r.value.1) == rest && Text(s, r.value.0) == ExeMeans(Block(l, rs))
  {
    hide ParseLine, Tokens, ParseRedirs, RedirTokens, Redirected, GetToken, SkipSpace, ParseArgs;
    PeekOne(s, i, '(');
    SkipTwice(s, i);
    var c := ParseLine(s, j).value;
    PeekOne(s, c.1, ')');
    var k := GetToken(s, SkipSpace(s, c.1)).next;
    assert Tokens(s, k) == Tokens(s, c.1)[1..] == RedirTokens(rs) + rest;
    ReadsRedirs(s, k, rs, rest);
    WrapMeans(s, c.0, ParseRedirs(s, k).value.0);
    assert Peek(s, SkipSpace(s, i), "(");
  }

  predicate PipeEnds(ts: seq<Tk>)
  {
    ts == [] || First(ts, ")&;")
  }

  predicate LineEnds(ts: seq<Tk>)
  {
    ts == [] || First(ts, ")")
  }

  /** What a parser made of the tokens from `i` on: `rest` is left, and the command means `t`. */
  ghost predicate Made(s: string, r: Option<(Cmd, nat)>, rest: seq<Tk>, t: Tree)
  {
    r.Some? && r.value.1 <= |s| && Tokens(s, r.value.1) == rest && Text(s, r.value.0) == t
  }

  lemma {:induction false} ReadsExe(s: string, i: nat, e: Exe, rest: seq<Tk>)
    requires i <= |s| && ExeOk(e) && Tokens(s, i) == ExeTokens(e) + rest && Ends(rest)
    ensures Made(s, ParseExec(s, i), rest, ExeMeans(e))
    decreases e
  {
    hide ParseExec, ParseLine, Tokens, RedirTokens, ArgTokens, LineTokens, LineMeans, Text;
    match e {
      case Simple(pre, args) =>
        ReadsSimple(s, i, pre, args, rest);
      case Block(l, rs) =>
        var later := [Sym(')')] + (RedirTokens(rs) + rest);
        assert Tokens(s, i) == [Sym('(')] + (LineTokens(l) + later);
        PeekOne(s, i, '(');
        var j := GetToken(s, SkipSpace(s, i)).next;
        assert Tokens(s, j) == Tokens(s, i)[1..];
        ReadsLine(s, j, l, later);
        ReadsBlock(s, i, j, l, rs, rest);
    }
  }

  lemma PipeStops(s: string, i: nat, c: Cmd, j: nat)
    requires i <= j <= |s| && ParseExec(s, i) == Some((c, j)) && !First(Tokens(s, j), "|")
    ensures Made(s, ParsePipe(s, i), Tokens(s, j), Text(s, c))
  {
    hide ParseExec, Text, Tokens, SkipSpace;
    PeekOne(s, j, '|');
    SkipTwice(s, j);
  }

  lemma PipeGoesOn(s: string, i: nat, c: Cmd, j: nat) returns (k: nat)
    requires i <= j <= |s| && ParseExec(s, i) == Some((c, j)) && First(Tokens(s, j), "|")
    ensures j < k <= |s| && Tokens(s, j) == [Sym('|')] + Tokens(s, k)
    ensures ParsePipe(s, i) == match ParsePipe(s, k)
                               case None => None
                               case Some(r) => Some((Pipe(c, r.0), r.1))
  {
    hide ParseExec, Tokens;
    PeekOne(s, j, '|');
    k := GetToken(s, SkipSpace(s, j)).next;
  }

  lemma {:induction false} ReadsPipe(s: string, i: nat, p: Pipeline, rest: seq<Tk>)
    requires i <= |s| && PipeOk(p) && Tokens(s, i) == PipeTokens(p) + rest && PipeEnds(rest)
    ensures Made(s, ParsePipe(s, i), rest, PipeMeans(p))
    decreases p
  {
    hide ParseExec, ParsePipe, Tokens, ExeTokens, ExeMeans;
    match p {
      case One(e) =>
        ReadsExe(s, i, e, rest);
        var c := ParseExec(s, i).value;
        PipeStops(s, i, c.0, c.1);
      case Bar(e, r) =>
        var later := [Sym('|')] + (PipeTokens(r) + rest);
        assert Tokens(s, i) == ExeTokens(e) + later;
        ReadsExe(s, i, e, later);
        var c := ParseExec(s, i).value;
        var k := PipeGoesOn(s, i, c.0, c.1);
        assert Tokens(s, k) == ([Sym('|')] + Tokens(s, k))[1..];
        ReadsPipe(s, k, r, rest);
    }
  }

  // ---- ampersands ----

  lemma TailAmpersand(s: string, start: nat, c: Cmd, i: nat) returns (j: nat)
    requires start <= i <= |s| && First(Tokens(s, i), "&")
    ensures i < j <= |s| && Tokens(s, i) == [Sym('&')] + Tokens(s, j)
    ensures ParseTail(s, start, c, i) == ParseTail(s, start, Back(c), j)
  {
    hide Tokens;
    PeekOne(s, i, '&');
    j := GetToken(s, SkipSpace(s, i)).next;
  }

  lemma TailSemicolon(s: string, start: nat, c: Cmd, i: nat) returns (j: nat)
    requires start <= i <= |s| && First(Tokens(s, i), ";")
    ensures i < j <= |s| && Tokens(s, i) == [Sym(';')] + Tokens(s, j)
    ensures ParseTail(s, start, c, i) == match ParseLine(s, j)
                                         case None => None
                                         case Some(r) => Some((List(c, r.0), r.1))
  {
    hide Tokens;
    PeekOne(s, i, '&');
    PeekOne(s, i, ';');
    j := GetToken(s, SkipSpace(s, i)).next;
  }

  lemma TailStops(s: string, start: nat, c: Cmd, i: nat)
    requires start <= i <= |s| && !First(Tokens(s, i), "&;")
    ensures Made(s, ParseTail(s, start, c, i), Tokens(s, i), Text(s, c))
  {
    hide Tokens, Text, SkipSpace;
    PeekOne(s, i, '&');
    PeekOne(s, i, ';');
    SkipTwice(s, i);
  }

  lemma {:induction false} ReadsAmps(s: string, start: nat, c: Cmd, i: nat, n: nat, rest: seq<Tk>)
      returns (d: Cmd, j: nat)
    requires start <= i <= |s| && Tokens(s, i) == Amps(n) + rest
    ensures i <= j <= |s| && Tokens(s, j) == rest && Text(s, d) == Behind(Text(s, c), n)
    ensures ParseTail(s, start, c, i) == ParseTail(s, start, d, j)
    decreases n
  {
    hide Tokens, ParseTail;
    d, j := c, i;
    if n == 0 {
      assert Amps(n) + rest == rest;
    } else {
      assert Tokens(s, i) == [Sym('&')] + (Amps(n - 1) + rest);
      j := TailAmpersand(s, start, c, i);
      assert Tokens(s, j) == ([Sym('&')] + Tokens(s, j))[1..];
      d, j := ReadsAmps(s, start, Back(c), j, n - 1, rest);
    }
  }

  lemma {:induction false} ReadsLine(s: string, i: nat, l: Line, rest: seq<Tk>)
    requires i <= |s| && LineOk(l) && Tokens(s, i) == LineTokens(l) + rest && LineEnds(rest)
    ensures Made(s, ParseLine(s, i), rest, LineMeans(l))
    decreases l
  {
    hide ParsePipe, ParseTail, Tokens, PipeTokens, PipeMeans, Text;
    var more := if l.Last? then rest else [Sym(';')] + (LineTokens(l.rest) + rest);
    var later := Amps(l.amps) + more;
    assert Tokens(s, i) == PipeTokens(l.p) + later;
    ReadsPipe(s, i, l.p, later);
    var c := ParsePipe(s, i).value;
    var d, j := ReadsAmps(s, i, c.0, c.1, l.amps, more);
    if l.Last? {
      TailStops(s, i, d, j);
    } else {
      var k := TailSemicolon(s, i, d, j);
      assert Tokens(s, k) == ([Sym(';')] + Tokens(s, k))[1..];
      ReadsLine(s, k, l.rest, rest);
      SeqText(s, d, ParseLine(s, k).value.0);
    }
  }

  lemma SeqText(s: string, c: Cmd, d: Cmd)
    ensures Text(s, List(c, d)) == Seq(Text(s, c), Text(s, d))
  {
  }

  // ---------------------------------------------------------------------------------------
  // What the parser accepts is in the grammar
  // ---------------------------------------------------------------------------------------

  lemma SaysSimple(s: string, i: nat) returns (e: Exe)
    requires i <= |s| && ParseExec(s, i).Some? && !First(Tokens(s, i), "(")
    ensures ExeOk(e) && Consumed(s, i, ExeTokens(e), ParseExec(s, i).value.1)
    ensures Text(s, ParseExec(s, i).value.0) == ExeMeans(e)
  {
    hide ParseArgs, Tokens, ParseRedirs, ParseBlock, RedirTokens, ArgTokens, Redirected, WordsOf, RedirsOf;
    PeekOne(s, i, '(');
    SkipTwice(s, i);
    var j := SkipSpace(s, i);
    SaysRedirs(s, j);
    var m := ParseRedirs(s, j).value;
    var args := SaysWords(s, m.1, [], m.0);
    e := Simple(RedirsIn(s, m.0), args);
    assert Spelled(s, []) + WordsOf(args) == WordsOf(args);
    ConsumedJoin(s, j, RedirTokens(RedirsIn(s, m.0)), m.1, ArgTokens(args), ParseExec(s, i).value.1);
  }

  lemma SaysBlock(s: string, i: nat, j: nat, l: Line) returns (e: Exe)
    requires i <= |s| && ParseExec(s, i).Some? && First(Tokens(s, i), "(") && j == GetToken(s, SkipSpace(s, i)).next
    requires ParseLine(s, j).Some? && LineOk(l) && Consumed(s, j, LineTokens(l), ParseLine(s, j).value.1)
    requires Text(s, ParseLine(s, j).value.0) == LineMeans(l)
    ensures ExeOk(e) && Consumed(s, i, ExeTokens(e), ParseExec(s, i).value.1)
    ensures Text(s, ParseExec(s, i).value.0) == ExeMeans(e)
  {
    hide ParseLine, Tokens, ParseRedirs, RedirTokens, Redirected, GetToken, SkipSpace, ParseArgs, Text, LineTokens;
    PeekOne(s, i, '(');
    SkipTwice(s, i);
    var c := ParseLine(s, j).value;
    PeekOne(s, c.1, ')');
    var k := GetToken(s, SkipSpace(s, c.1)).next;
    SaysRedirs(s, k);
    var m := ParseRedirs(s, k).value;
    e := Block(l, RedirsIn(s, m.0));
    WrapMeans(s, c.0, m.0);
    BlockTokens(s, i, j, LineTokens(l), c.1, k, RedirTokens(RedirsIn(s, m.0)), m.1);
  }

  lemma BlockTokens(s: string, i: nat, j: nat, ls: seq<Tk>, x: nat, k: nat, rs: seq<Tk>, y: nat)
    requires Consumed(s, i, [Sym('(')], j) && Consumed(s, j, ls, x)
    requires Consumed(s, x, [Sym(')')], k) && Consumed(s, k, rs, y)
    ensures Consumed(s, i, [Sym('(')] + (ls + ([Sym(')')] + rs)), y)
  {
    hide Consumed;
    ConsumedJoin(s, x, [Sym(')')], k, rs, y);
    ConsumedJoin(s, j, ls, x, [Sym(')')] + rs, y);
    ConsumedJoin(s, i, [Sym('(')], j, ls + ([Sym(')')] + rs), y);
  }

  lemma {:induction false} SaysExe(s: string, i: nat) returns (e: Exe)
    requires i <= |s| && ParseExec(s, i).Some?
    ensures ExeOk(e) && Consumed(s, i, ExeTokens(e), ParseExec(s, i).value.1)
    ensures Text(s, ParseExec(s, i).value.0) == ExeMeans(e)
    decreases |s| - i, 1
  {
    hide Tokens, ParseLine, ParseRedirs, ParseArgs, GetToken;
    hide Text, ExeTokens, ExeMeans, LineMeans, LineTokens, LineOk, ExeOk;
    if !First(Tokens(s, i), "(") {
      e := SaysSimple(s, i);
    } else {
      PeekOne(s, i, '(');
      SkipTwice(s, i);
      var j := GetToken(s, SkipSpace(s, i)).next;
      var l := SaysLine(s, j);
      e := SaysBlock(s, i, j, l);
    }
  }

  lemma {:induction false} SaysPipe(s: string, i: nat) returns (p: Pipeline)
    requires i <= |s| && ParsePipe(s, i).Some?
    ensures PipeOk(p) && Consumed(s, i, PipeTokens(p), ParsePipe(s, i).value.1)
    ensures Text(s, ParsePipe(s, i).value.0) == PipeMeans(p)
    decreases |s| - i, 2
  {
    hide ParseExec, ParsePipe, ParseLine, ParseTail, Tokens, ExeTokens, ExeMeans, ExeOk, Text;
    ExecFirst(s, i);
    var e := SaysExe(s, i);
    var c := ParseExec(s, i).value;
    if !First(Tokens(s, c.1), "|") {
      p := One(e);
      PipeStops(s, i, c.0, c.1);
    } else {
      var k := PipeGoesOn(s, i, c.0, c.1);
      var r := SaysPipe(s, k);
      p := Bar(e, r);
      var d := ParsePipe(s, k).value;
      PipeText(s, c.0, d.0);
      BarTokens(s, i, ExeTokens(e), c.1, k, PipeTokens(r), d.1);
    }
  }

  lemma PipeText(s: string, c: Cmd, d: Cmd)
    ensures Text(s, Pipe(c, d)) == Piped(Text(s, c), Text(s, d))
  {
  }

  lemma BarTokens(s: string, i: nat, es: seq<Tk>, x: nat, k: nat, rs: seq<Tk>, y: nat)
    requires Consumed(s, i, es, x) && Consumed(s, x, [Sym('|')], k) && Consumed(s, k, rs, y)
    ensures Consumed(s, i, es + ([Sym('|')] + rs), y)
  {
    hide Consumed;
    ConsumedJoin(s, x, [Sym('|')], k, rs, y);
    ConsumedJoin(s, i, es, x, [Sym('|')] + rs, y);
  }

  lemma ExecFirst(s: string, i: nat)
    requires i <= |s|
    ensures ParsePipe(s, i).Some? ==> ParseExec(s, i).Some?
    ensures ParseLine(s, i).Some? ==>
              ParsePipe(s, i).Some?
              && ParseLine(s, i) == ParseTail(s, i, ParsePipe(s, i).value.0, ParsePipe(s, i).value.1)
  {
    hide ParseExec, ParseTail;
  }

  /** Ampersands, and what comes behind a semicolon. */
  function TailTokens(n: nat, rest: Option<Line>): seq<Tk>
  {
    Amps(n) + match rest
              case None => []
              case Some(l) => [Sym(';')] + LineTokens(l)
  }

  function TailMeans(t: Tree, n: nat, rest: Option<Line>): Tree
  {
    match rest
    case None => Behind(t, n)
    case Some(l) => Seq(Behind(t, n), LineMeans(l))
  }

  lemma {:induction false} SaysTail(s: string, start: nat, c: Cmd, i: nat) returns (n: nat, rest: Option<Line>)
    requires start <= i <= |s| && ParseTail(s, start, c, i).Some?
    ensures rest.Some? ==> LineOk(rest.value)
    ensures Consumed(s, i, TailTokens(n, rest), ParseTail(s, start, c, i).value.1)
    ensures Text(s, ParseTail(s, start, c, i).value.0) == TailMeans(Text(s, c), n, rest)
    decreases |s| - start, 3, |s| - i
  {
    hide ParseTail, Tokens, ParseLine, LineTokens, LineOk, LineMeans;
    n, rest := 0, None;
    if First(Tokens(s, i), "&") {
      var j := TailAmpersand(s, start, c, i);
      n, rest := SaysTail(s, start, Back(c), j);
      ConsumedJoin(s, i, [Sym('&')], j, TailTokens(n, rest), ParseTail(s, start, c, i).value.1);
      MoreAmps(n, rest);
      n := n + 1;
    } else if First(Tokens(s, i), ";") {
      var j := TailSemicolon(s, start, c, i);
      var l := SaysLine(s, j);
      rest := Some(l);
      SeqText(s, c, ParseLine(s, j).value.0);
      ConsumedJoin(s, i, [Sym(';')], j, LineTokens(l), ParseTail(s, start, c, i).value.1);
      assert Amps(0) + ([Sym(';')] + LineTokens(l)) == [Sym(';')] + LineTokens(l);
    } else {
      TailStops(s, start, c, i);
    }
  }

  lemma MoreAmps(n: nat, rest: Option<Line>)
    ensures TailTokens(n + 1, rest) == [Sym('&')] + TailTokens(n, rest)
  {
  }

  lemma {:induction false} SaysLine(s: string, i: nat) returns (l: Line)
    requires i <= |s| && ParseLine(s, i).Some?
    ensures LineOk(l) && Consumed(s, i, LineTokens(l), ParseLine(s, i).value.1)
    ensures Text(s, ParseLine(s, i).value.0) == LineMeans(l)
    decreases |s| - i, 4
  {
    ExecFirst(s, i);
    hide ParsePipe, ParseTail, ParseLine, Tokens, PipeTokens, PipeMeans, PipeOk, Text;
    var p := SaysPipe(s, i);
    var c := ParsePipe(s, i).value;
    var n, rest := SaysTail(s, i, c.0, c.1);
    l := if rest.None? then Last(p, n) else Then(p, n, rest.value);
    ConsumedJoin(s, i, PipeTokens(p), c.1, TailTokens(n, rest), ParseLine(s, i).value.1);
    assert rest.None? ==> Amps(n) + [] == Amps(n);
  }

  // ---------------------------------------------------------------------------------------
  // The parser is the grammar
  // ---------------------------------------------------------------------------------------

  /** A line of the grammar, however it is spaced, parses to what it means. */
  lemma ParseMeans(s: string, l: Line)
    requires LineOk(l) && Tokens(s, 0) == LineTokens(l)
    ensures ParseCmd(s).Some? && Text(s, ParseCmd(s).value) == LineMeans(l)
  {
    hide ParseLine, Tokens, LineTokens, LineMeans, LineOk, Text;
    assert LineTokens(l) + [] == LineTokens(l);
    ReadsLine(s, 0, l, []);
    AtEnd(s, ParseLine(s, 0).value.1);
  }

  lemma AtEnd(s: string, i: nat)
    requires i <= |s|
    ensures Tokens(s, i) == [] <==> SkipSpace(s, i) == |s|
  {
    Next(s, i);
  }

  /** A line is accepted exactly if its tokens are a line of the grammar. */
  lemma ParsesExactly(s: string)
    ensures ParseCmd(s).Some? <==> exists l: Line :: LineOk(l) && Tokens(s, 0) == LineTokens(l)
  {
    hide ParseLine, Tokens, LineTokens, LineOk;
    if ParseCmd(s).Some? {
      var l := SaysLine(s, 0);
      var j := ParseLine(s, 0).value.1;
      AtEnd(s, j);
      assert LineTokens(l) + [] == LineTokens(l);
    }
    forall l: Line | LineOk(l) && Tokens(s, 0) == LineTokens(l)
      ensures ParseCmd(s).Some?
    {
      ParseMeans(s, l);
    }
  }

  // ---- writing a line ----

  /** The tokens with a blank behind each. */
  function Spell(ts: seq<Tk>): string
  {
    if ts == [] then "" else ts[0].text + (" " + Spell(ts[1..]))
  }

  predicate TokenOk(t: Tk)
  {
    (t.kind == 'a' && Word(t.text)) || (t == Sym(t.kind) && t.kind in "<>+|&;()")
  }

  lemma SymToken(s: string, i: nat, k: char)
    requires k in "<>+|&;()" && Stands(s, i, Sym(k).text + " ")
    ensures var t := GetToken(s, i);
            t.kind == k && t.q == i && t.eq == i + |Sym(k).text| && t.next == SkipSpace(s, t.eq)
  {
    var n := |Sym(k).text|;
    StandsSplit(s, i, Sym(k).text, " ");
    assert s[i] == s[i..i + n][0] && s[i + n] == s[i + n..i + n + 1][0];
    assert k == '+' ==> s[i + 1] == s[i..i + n][1];
    NoSkip(s, i);
  }

  lemma BlankSkipped(s: string, i: nat)
    requires i < |s| && IsSpace(s[i])
    ensures Tokens(s, SkipSpace(s, i)) == Tokens(s, i + 1)
  {
    SkipTwice(s, i + 1);
  }

  lemma OneToken(s: string, i: nat, t: Tk)
    requires TokenOk(t) && Stands(s, i, t.text + " ")
    ensures i + |t.text| < |s| && Tokens(s, i) == [t] + Tokens(s, i + |t.text| + 1)
  {
    hide Tokens, GetToken, SkipSpace;
    var j := i + |t.text|;
    StandsSplit(s, i, t.text, " ");
    StandsChar(s, j, ' ');
    if t.kind == 'a' {
      WordToken(s, i, t.text);
    } else {
      SymToken(s, i, t.kind);
    }
    Next(s, i);
    BlankSkipped(s, j);
    assert Tokens(s, i) == [Tokens(s, i)[0]] + Tokens(s, i)[1..];
  }

  lemma SpelledFirst(s: string, i: nat, ts: seq<Tk>)
    requires Stands(s, i, Spell(ts))
    ensures if ts == [] then Spell(ts) == ""
            else Stands(s, i, ts[0].text + " ") && Stands(s, i + |ts[0].text| + 1, Spell(ts[1..]))
                 && |Spell(ts)| == |ts[0].text| + 1 + |Spell(ts[1..])|
  {
    hide Stands;
    if ts != [] {
      var x, y: string := ts[0].text, Spell(ts[1..]);
      assert Spell(ts) == x + (" " + y) == (x + " ") + y;
      StandsSplit(s, i, x + " ", y);
    }
  }

  lemma {:induction false} SpelledTokens(s: string, i: nat, ts: seq<Tk>)
    requires (forall k | 0 <= k < |ts| :: TokenOk(ts[k])) && Stands(s, i, Spell(ts)) && i + |Spell(ts)| == |s|
    ensures Tokens(s, i) == ts
    decreases |ts|
  {
    hide Tokens, Stands, TokenOk, Spell;
    SpelledFirst(s, i, ts);
    if ts == [] {
      AtEnd(s, i);
    } else {
      var t := ts[0];
      SpelledFirst(s, i, ts);
      assert TokenOk(t);
      OneToken(s, i, t);
      SpelledTokens(s, i + |t.text| + 1, ts[1..]);
    }
  }

  /** Writing any line of the grammar down and parsing it gives what it means. */
  lemma WrittenLineMeans(l: Line)
    requires LineOk(l) && forall k | 0 <= k < |LineTokens(l)| :: TokenOk(LineTokens(l)[k])
    ensures var s := Spell(LineTokens(l)); ParseCmd(s).Some? && Text(s, ParseCmd(s).value) == LineMeans(l)
  {
    hide LineTokens, LineOk, ParseCmd, Text, Tokens, TokenOk, LineMeans;
    var s := Spell(LineTokens(l));
    assert s[0..|s|] == s;
    SpelledTokens(s, 0, LineTokens(l));
    ParseMeans(s, l);
  }
}
