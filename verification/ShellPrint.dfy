/** Command trees with their words, their fully parenthesised printing, and that parsing undoes it. */
module ShellPrint {
  import opened Options
  import opened Shell

  datatype Tree =
    | Run(args: seq<string>)
    | To(cmd: Tree, file: string, mode: Mode)
    | Piped(left: Tree, right: Tree)
    | Seq(left: Tree, right: Tree)
    | Bg(cmd: Tree)

  predicate Word(w: string)
  {
    w != "" && forall k | 0 <= k < |w| :: IsWordChar(w[k])
  }

  predicate Legal(t: Tree)
  {
    match t
    case Run(args) => |args| < MAXARGS && AllWords(args)
    case To(c, f, _) => Legal(c) && Word(f)
    case Piped(l, r) => Legal(l) && Legal(r)
    case Seq(l, r) => Legal(l) && Legal(r)
    case Bg(c) => Legal(c)
  }

  function Words(args: seq<string>): string
  {
    if args == [] then "" else if |args| == 1 then args[0] else args[0] + " " + Words(args[1..])
  }

  function Operator(m: Mode): string
  {
    match m
    case Input => "<"
    case Output => ">"
    case Append => ">>"
  }

  function Print(t: Tree): string
  {
    match t
    case Run(args) => Words(args)
    case To(c, f, m) => "(" + Print(c) + ")" + Operator(m) + f
    case Piped(l, r) => "(" + Print(l) + ")|(" + Print(r) + ")"
    case Seq(l, r) => "(" + Print(l) + ");(" + Print(r) + ")"
    case Bg(c) => "(" + Print(c) + ")&"
  }

  /** The tree a parsed command spells in the line `s`. */
  function Text(s: string, c: Cmd): Tree
  {
    match c
    case Exec(args) => Run(seq(|args|, k requires 0 <= k < |args| => Slice(s, args[k])))
    case Redir(d, f, m) => To(Text(s, d), Slice(s, f), m)
    case Pipe(l, r) => Piped(Text(s, l), Text(s, r))
    case List(l, r) => Seq(Text(s, l), Text(s, r))
    case Back(d) => Bg(Text(s, d))
  }

  function Slice(s: string, p: Span): string
  {
    if p.q <= p.eq <= |s| then s[p.q..p.eq] else ""
  }

  // ---------------------------------------------------------------------------------------
  // Reading what was printed
  // ---------------------------------------------------------------------------------------

  /** `x` stands at position `i` of `s`. */
  predicate Stands(s: string, i: nat, x: string)
  {
    i + |x| <= |s| && s[i..i + |x|] == x
  }

  lemma StandsSplit(s: string, i: nat, x: string, y: string)
    requires Stands(s, i, x + y)
    ensures Stands(s, i, x) && Stands(s, i + |x|, y)
  {
    assert s[i..i + |x|] == s[i..i + |x + y|][..|x|];
    assert s[i + |x|..i + |x| + |y|] == s[i..i + |x + y|][|x|..];
  }

  /** The printing ends here: at the end of the line or before a closing parenthesis. */
  predicate Closes(s: string, i: nat)
  {
    i == |s| || (i < |s| && s[i] == ')')
  }

  predicate StartsPlain(s: string, i: nat)
  {
    i <= |s| && (i < |s| ==> !IsSpace(s[i]))
  }

  lemma NoSkip(s: string, i: nat)
    requires StartsPlain(s, i)
    ensures SkipSpace(s, i) == i
  {
  }

  /** gettoken on a symbol followed by no space. */
  lemma SymbolToken(s: string, i: nat, c: char)
    requires i < |s| && s[i] == c && c in {'(', ')', '|', ';', '&', '<'} && StartsPlain(s, i + 1)
    ensures GetToken(s, i) == Token(c, i, i + 1, i + 1)
  {
    NoSkip(s, i);
    NoSkip(s, i + 1);
  }

  lemma {:induction false} WordEndAt(s: string, i: nat, w: string)
    requires Stands(s, i, w) && (forall k | 0 <= k < |w| :: IsWordChar(w[k]))
    requires i + |w| == |s| || IsSpace(s[i + |w|]) || IsSymbol(s[i + |w|])
    ensures WordEnd(s, i) == i + |w|
    decreases |w|
  {
    if w != "" {
      assert s[i] == s[i..i + |w|][0] == w[0];
      assert s[i + 1..i + 1 + |w[1..]|] == s[i..i + |w|][1..];
      WordEndAt(s, i + 1, w[1..]);
    }
  }

  /** gettoken on a word. */
  lemma WordToken(s: string, i: nat, w: string)
    requires Stands(s, i, w) && Word(w) && (i + |w| == |s| || IsSpace(s[i + |w|]) || IsSymbol(s[i + |w|]))
    ensures GetToken(s, i) == Token('a', i, i + |w|, SkipSpace(s, i + |w|)) && Slice(s, Span(i, i + |w|)) == w
  {
    assert s[i] == s[i..i + |w|][0] == w[0] && IsWordChar(w[0]);
    NoSkip(s, i);
    WordEndAt(s, i, w);
  }

  lemma NoRedirs(s: string, i: nat)
    requires i <= |s| && !Peek(s, i, "<>")
    ensures ParseRedirs(s, i) == Some(([], SkipSpace(s, i)))
  {
  }

  lemma WordsStart(args: seq<string>)
    requires args != [] && AllWords(args)
    ensures Words(args) != "" && IsWordChar(Words(args)[0])
  {
    assert Word(args[0]);
  }

  /** A plain command: the arguments `done`, then some that spell `args`. */
  ghost predicate ArgsAre(s: string, c: Cmd, done: seq<Span>, args: seq<string>)
  {
    && c.Exec? && |c.args| == |done| + |args| && c.args[..|done|] == done
    && forall k {:trigger args[k]} | 0 <= k < |args| :: Slice(s, c.args[|done| + k]) == args[k]
  }

  /** Where the words after the first one start. */
  function AfterWord(i: nat, args: seq<string>): nat
    requires args != []
  {
    if |args| == 1 then i + |args[0]| else i + |args[0]| + 1
  }

  predicate AllWords(args: seq<string>)
  {
    forall k | 0 <= k < |args| :: Word(args[k])
  }

  lemma NextWord(s: string, i: nat, args: seq<string>)
    requires args != [] && AllWords(args) && Stands(s, i, Words(args)) && Closes(s, i + |Words(args)|)
    ensures var n := AfterWord(i, args); Stands(s, n, Words(args[1..])) && n + |Words(args[1..])| == i + |Words(args)|
    ensures Stands(s, i, args[0]) && (i + |args[0]| == |s| || IsSpace(s[i + |args[0]|]) || IsSymbol(s[i + |args[0]|]))
    ensures SkipSpace(s, i + |args[0]|) == AfterWord(i, args) <= |s| && StartsWord(s, i)
    ensures AfterWord(i, args) == |s| || s[AfterWord(i, args)] == ')' || StartsWord(s, AfterWord(i, args))
  {
    var w, j := args[0], i + |args[0]|;
    assert Word(w) && IsWordChar(w[0]);
    if |args| == 1 {
      assert s[i] == s[i..j][0];
      NoSkip(s, j);
    } else {
      var rest := Words(args[1..]);
      assert Words(args) == w + (" " + rest);
      StandsSplit(s, i, w, " " + rest);
      StandsSplit(s, j, " ", rest);
      assert s[i] == s[i..j][0] && s[j] == s[j..j + 1][0];
      WordsStart(args[1..]);
      assert s[j + 1] == s[j + 1..j + 1 + |rest|][0];
      NoSkip(s, j + 1);
    }
  }

  predicate StartsWord(s: string, i: nat)
  {
    i < |s| && IsWordChar(s[i])
  }

  /** One round of parseexec's loop on a word without redirections behind it. */
  lemma ArgStep(s: string, i: nat, done: seq<Span>, j: nat, n: nat)
    requires StartsWord(s, i) && GetToken(s, i) == Token('a', i, j, n) && |done| + 1 < MAXARGS
    requires n <= |s| && (n == |s| || s[n] == ')' || StartsWord(s, n))
    ensures ParseArgs(s, i, done, []) == ParseArgs(s, n, done + [Span(i, j)], [])
  {
    NoSkip(s, i);
    NoSkip(s, n);
    NoRedirs(s, n);
    var none: seq<Redirect> := [];
    assert none + none == none;
  }

  lemma ArgsEnd(s: string, i: nat, done: seq<Span>)
    requires Closes(s, i)
    ensures ParseArgs(s, i, done, []) == Some((Exec(done), i))
  {
    NoSkip(s, i);
    assert ')' in "|)&;";
  }

  lemma NoArgs(s: string, done: seq<Span>)
    ensures ArgsAre(s, Exec(done), done, []) && Words([]) == ""
  {
    assert done[..|done|] == done;
  }

  /** parseexec's loop reads the words that are left. */
  lemma {:induction false} ReadsArgs(s: string, i: nat, done: seq<Span>, args: seq<string>)
    requires |done| + |args| < MAXARGS && AllWords(args) && Stands(s, i, Words(args)) && Closes(s, i + |Words(args)|)
    ensures ParseArgs(s, i, done, []).Some? && ParseArgs(s, i, done, []).value.1 == i + |Words(args)|
    ensures ArgsAre(s, ParseArgs(s, i, done, []).value.0, done, args)
    decreases |args|
  {
    hide ParseArgs, GetToken, Words, ArgsAre, Word, Slice;
    if args == [] {
      NoArgs(s, done);
      ArgsEnd(s, i, done);
    } else {
      var j, n := i + |args[0]|, AfterWord(i, args);
      NextWord(s, i, args);
      assert Word(args[0]);
      WordToken(s, i, args[0]);
      ArgStep(s, i, done, j, n);
      ReadsArgs(s, n, done + [Span(i, j)], args[1..]);
      ArgsShift(s, ParseArgs(s, i, done, []).value.0, done, Span(i, j), args);
    }
  }

  lemma ArgsShift(s: string, c: Cmd, done: seq<Span>, p: Span, args: seq<string>)
    requires args != [] && Slice(s, p) == args[0] && ArgsAre(s, c, done + [p], args[1..])
    ensures ArgsAre(s, c, done, args)
  {
    assert c.args[|done|] == c.args[..|done| + 1][|done|];
    assert c.args[..|done|] == c.args[..|done| + 1][..|done|];
    forall k | 0 <= k < |args|
      ensures Slice(s, c.args[|done| + k]) == args[k]
    {
      if k > 0 {
        assert args[k] == args[1..][k - 1];
        assert Slice(s, c.args[|done + [p]| + (k - 1)]) == args[1..][k - 1];
      }
    }
  }

  // ---------------------------------------------------------------------------------------
  // Trees
  // ---------------------------------------------------------------------------------------

  /** A command that is followed by nothing is a whole line. */
  lemma LineOf(s: string, i: nat, c: Cmd, j: nat)
    requires i <= j <= |s| && ParseExec(s, i) == Some((c, j)) && Closes(s, j)
    ensures ParsePipe(s, i) == Some((c, j)) && ParseLine(s, i) == Some((c, j))
  {
    NoSkip(s, j);
  }

  /** `t` printed in parentheses at `i`, the closing one at `k`. */
  predicate Enclosed(s: string, i: nat, t: Tree, k: nat)
  {
    k == i + 1 + |Print(t)| && k < |s| && s[i] == '(' && Stands(s, i + 1, Print(t)) && s[k] == ')'
  }

  lemma {:induction false} PrintStart(t: Tree)
    requires Legal(t)
    ensures Print(t) == "" || IsWordChar(Print(t)[0]) || Print(t)[0] == '('
  {
    if t.Run? && t.args != [] {
      WordsStart(t.args);
    }
  }

  /** parseblock, given what parseline makes of the inside. */
  lemma BlockBody(s: string, i: nat, k: nat, c: Cmd)
    requires i < k < |s| && s[i] == '(' && s[k] == ')' && StartsPlain(s, i + 1) && StartsPlain(s, k + 1)
    requires ParseLine(s, i + 1) == Some((c, k))
    ensures ParseExec(s, i) == match ParseRedirs(s, k + 1)
                               case None => None
                               case Some(rs) => Some((Wrap(c, rs.0), rs.1))
  {
    hide ParseLine, ParseRedirs, ParseArgs, GetToken, SkipSpace, Wrap;
    NoSkip(s, i);
    NoSkip(s, k);
    SymbolToken(s, i, '(');
    SymbolToken(s, k, ')');
    assert ParseExec(s, i) == ParseBlock(s, i);
  }

  lemma BlockExec(s: string, i: nat, t: Tree, k: nat, c: Cmd)
    requires Legal(t) && Enclosed(s, i, t, k) && ParseLine(s, i + 1) == Some((c, k)) && StartsPlain(s, k + 1)
    ensures ParseExec(s, i) == match ParseRedirs(s, k + 1)
                               case None => None
                               case Some(rs) => Some((Wrap(c, rs.0), rs.1))
  {
    PrintStart(t);
    hide ParseLine, ParseRedirs, ParseExec, Print, Legal;
    assert Print(t) != "" ==> s[i + 1] == s[i + 1..k][0];
    BlockBody(s, i, k, c);
  }

  /** ... with no redirection behind. */
  lemma BlockAlone(s: string, i: nat, t: Tree, k: nat, c: Cmd)
    requires Legal(t) && Enclosed(s, i, t, k) && ParseLine(s, i + 1) == Some((c, k))
    requires k + 1 == |s| || s[k + 1] in {')', '|', ';', '&'}
    ensures ParseExec(s, i) == Some((c, k + 1))
  {
    hide ParseLine, ParseExec, Print;
    BlockExec(s, i, t, k, c);
    NoSkip(s, k + 1);
    NoRedirs(s, k + 1);
  }

  /** A redirection operator and a file name, then nothing. */
  lemma ReadsRedir(s: string, i: nat, m: Mode, f: string)
    requires Word(f) && Stands(s, i, Operator(m) + f) && Closes(s, i + |Operator(m)| + |f|)
    ensures var j := i + |Operator(m)|;
            ParseRedirs(s, i) == Some(([Redirect(Span(j, j + |f|), m)], j + |f|))
            && Slice(s, Span(j, j + |f|)) == f
  {
    hide GetToken, SkipSpace, WordEnd, Slice, Word;
    var j := i + |Operator(m)|;
    StandsSplit(s, i, Operator(m), f);
    OperatorToken(s, i, m, f);
    WordToken(s, j, f);
    NoSkip(s, i);
    NoSkip(s, j + |f|);
    NoRedirs(s, j + |f|);
    var r := Redirect(Span(j, j + |f|), m);
    assert [r] + [] == [r];
    assert ParseRedirs(s, i) == Some(([r] + [], j + |f|));
  }

  lemma OperatorToken(s: string, i: nat, m: Mode, f: string)
    requires Word(f) && Stands(s, i, Operator(m)) && Stands(s, i + |Operator(m)|, f)
    ensures StartsPlain(s, i) && i < |s| && s[i] in "<>"
    ensures GetToken(s, i).next == i + |Operator(m)|
    ensures GetToken(s, i).kind == (if m.Input? then '<' else if m.Output? then '>' else '+')
  {
    var j := i + |Operator(m)|;
    assert s[i] == s[i..j][0] && s[j] == s[j..j + |f|][0] && IsWordChar(f[0]);
    assert m.Append? ==> s[i + 1] == s[i..j][1];
    NoSkip(s, i);
    NoSkip(s, j);
    match m {
      case Input =>
        assert s[i] == '<';
        SymbolToken(s, i, '<');
      case Output => assert s[i] == '>' && s[i + 1] != '>';
      case Append => assert s[i] == '>' && s[i + 1] == '>';
    }
  }

  /** What parseline makes of the printing of `t` at `i`. */
  ghost predicate ReadAs(s: string, i: nat, t: Tree)
  {
    i <= |s| && ParseLine(s, i).Some? && ParseLine(s, i).value.1 == i + |Print(t)|
        && Text(s, ParseLine(s, i).value.0) == t
  }

  /** Parsing a printed tree that nothing follows gives the tree back, up to where it ends. */
  lemma {:induction false} Reads(s: string, i: nat, t: Tree)
    requires Legal(t) && Stands(s, i, Print(t)) && Closes(s, i + |Print(t)|)
    ensures ReadAs(s, i, t)
    decreases t
  {
    hide ReadAs, Print, Stands, Closes;
    match t {
      case Run(args) =>
        PrintRun(args);
        ReadsRun(s, i, args);
      case To(c, f, m) =>
        ToParts(s, i, t);
        Reads(s, i + 1, c);
        ReadsTo(s, i, t);
      case Piped(l, r) =>
        PrintPair(l, r);
        PairParts(s, i, l, r, '|');
        Reads(s, i + 1, l);
        Reads(s, i + |Print(l)| + 4, r);
        ReadsPiped(s, i, l, r);
      case Seq(l, r) =>
        PrintPair(l, r);
        PairParts(s, i, l, r, ';');
        Reads(s, i + 1, l);
        Reads(s, i + |Print(l)| + 4, r);
        ReadsSeq(s, i, l, r);
      case Bg(c) =>
        BgParts(s, i, c);
        Reads(s, i + 1, c);
        ReadsBg(s, i, c);
    }
  }

  lemma PrintRun(args: seq<string>)
    ensures Print(Run(args)) == Words(args)
  {
  }

  lemma ReadsRun(s: string, i: nat, args: seq<string>)
    requires Legal(Run(args)) && Stands(s, i, Words(args)) && Closes(s, i + |Words(args)|)
    ensures ReadAs(s, i, Run(args))
  {
    hide ParseArgs, ParseLine, ParsePipe, Slice;
    ReadsArgs(s, i, [], args);
    if args != [] {
      WordsStart(args);
      assert s[i] == s[i..i + |Words(args)|][0];
    }
    NoSkip(s, i);
    NoRedirs(s, i);
    var c := ParseArgs(s, i, [], []).value.0;
    LineOf(s, i, c, i + |Words(args)|);
    assert Text(s, c).args == args;
  }

  lemma ToParts(s: string, i: nat, t: Tree)
    requires t.To? && Legal(t) && Stands(s, i, Print(t)) && Closes(s, i + |Print(t)|)
    ensures Enclosed(s, i, t.cmd, i + 1 + |Print(t.cmd)|)
            && Stands(s, i + |Print(t.cmd)| + 2, Operator(t.mode) + t.file)
    ensures Closes(s, i + 1 + |Print(t.cmd)|  + 1 + |Operator(t.mode)| + |t.file|) && Closes(s, i + 1 + |Print(t.cmd)|)
  {
    var p := Print(t.cmd);
    hide Print;
    PrintTo(t);
    StandsSplit(s, i, "(", p + (")" + (Operator(t.mode) + t.file)));
    StandsSplit(s, i + 1, p, ")" + (Operator(t.mode) + t.file));
    StandsSplit(s, i + 1 + |p|, ")", Operator(t.mode) + t.file);
    assert s[i] == s[i..i + 1][0] && s[i + 1 + |p|] == s[i + 1 + |p|..i + 2 + |p|][0];
  }

  lemma PrintTo(t: Tree)
    requires t.To?
    ensures Print(t) == "(" + (Print(t.cmd) + (")" + (Operator(t.mode) + t.file)))
  {
  }

  lemma ReadsTo(s: string, i: nat, t: Tree)
    requires t.To? && Legal(t) && Stands(s, i, Print(t)) && Closes(s, i + |Print(t)|) && ReadAs(s, i + 1, t.cmd)
    ensures ReadAs(s, i, t)
  {
    hide ParseLine, ParseExec, ParseRedirs, Print, Word, GetToken, Stands, Operator, Slice;
    var c := ParseLine(s, i + 1).value.0;
    var k := i + 1 + |Print(t.cmd)|;
    var j := k + 1 + |Operator(t.mode)|;
    ToParts(s, i, t);
    RedirBehind(s, k + 1, t.mode, t.file);
    BlockExec(s, i, t.cmd, k, c);
    WrapOne(c, Redirect(Span(j, j + |t.file|), t.mode));
    PrintTo(t);
    LineOf(s, i, Redir(c, Span(j, j + |t.file|), t.mode), j + |t.file|);
  }

  lemma WrapOne(c: Cmd, r: Redirect)
    ensures Wrap(c, [r]) == Redir(c, r.file, r.mode)
  {
    assert [r][1..] == [];
  }

  lemma RedirBehind(s: string, i: nat, m: Mode, f: string)
    requires Word(f) && Stands(s, i, Operator(m) + f) && Closes(s, i + |Operator(m)| + |f|)
    ensures var j := i + |Operator(m)|;
            ParseRedirs(s, i) == Some(([Redirect(Span(j, j + |f|), m)], j + |f|))
            && Slice(s, Span(j, j + |f|)) == f
    ensures StartsPlain(s, i)
  {
    StandsSplit(s, i, Operator(m), f);
    OperatorToken(s, i, m, f);
    ReadsRedir(s, i, m, f);
  }

  /** Two parenthesised commands with an operator in between. */
  function Pair(l: string, op: char, r: string): string
  {
    "(" + (l + (")" + ([op] + ("(" + (r + ")")))))
  }

  lemma PrintPair(l: Tree, r: Tree)
    ensures Print(Piped(l, r)) == Pair(Print(l), '|', Print(r)) && Print(Seq(l, r)) == Pair(Print(l), ';', Print(r))
  {
    var p, q := Print(l), Print(r);
    assert ")|(" == ")" + (['|'] + "(") && ");(" == ")" + ([';'] + "(");
    hide Print;
    assert "(" + p + (")" + (['|'] + "(")) + q + ")" == Pair(p, '|', q);
    assert "(" + p + (")" + ([';'] + "(")) + q + ")" == Pair(p, ';', q);
  }

  lemma PairParts(s: string, i: nat, l: Tree, r: Tree, op: char)
    requires Stands(s, i, Pair(Print(l), op, Print(r)))
    ensures var k := i + 1 + |Print(l)|; var k2 := k + 3 + |Print(r)|;
            Enclosed(s, i, l, k) && Enclosed(s, k + 2, r, k2) && s[k + 1] == op && Closes(s, k) && Closes(s, k2)
  {
    hide Print, Stands;
    var p, q := Print(l), Print(r);
    var k := i + 1 + |p|;
    PairSplit(s, i, p, op, q);
    StandsChar(s, i, '(');
    StandsChar(s, k, ')');
    StandsChar(s, k + 1, op);
    StandsChar(s, k + 2, '(');
    StandsChar(s, k + 3 + |q|, ')');
  }

  lemma PairSplit(s: string, i: nat, p: string, op: char, q: string)
    requires Stands(s, i, Pair(p, op, q))
    ensures var k := i + 1 + |p|;
            Stands(s, i, "(") && Stands(s, i + 1, p) && Stands(s, k, ")")
            && Stands(s, k + 1, [op])
            && Stands(s, k + 2, "(") && Stands(s, k + 3, q) && Stands(s, k + 3 + |q|, ")")
  {
    hide Stands;
    var k := i + 1 + |p|;
    var e2: string := q + ")";
    var e3: string := "(" + e2;
    var e4: string := [op] + e3;
    var e5: string := ")" + e4;
    var e6: string := p + e5;
    StandsSplit(s, i, "(", e6);
    StandsSplit(s, i + 1, p, e5);
    StandsSplit(s, k, ")", e4);
    StandsSplit(s, k + 1, [op], e3);
    StandsSplit(s, k + 2, "(", e2);
    StandsSplit(s, k + 3, q, ")");
  }

  lemma StandsChar(s: string, i: nat, c: char)
    requires Stands(s, i, [c])
    ensures i < |s| && s[i] == c
  {
    assert s[i] == s[i..i + 1][0];
  }

  /** The parts of "(l)op(r)", each read right. */
  ghost predicate PairRead(s: string, i: nat, l: Tree, r: Tree, op: char)
  {
    var k := i + 1 + |Print(l)|;
    var k2 := k + 3 + |Print(r)|;
    && Legal(l) && Legal(r) && Enclosed(s, i, l, k) && Enclosed(s, k + 2, r, k2) && s[k + 1] == op && Closes(s, k2 + 1)
    && ReadAs(s, i + 1, l) && ReadAs(s, k + 3, r)
  }

  lemma PairLength(l: Tree, r: Tree)
    ensures |Print(Piped(l, r))| == |Print(Seq(l, r))| == |Print(l)| + |Print(r)| + 5
  {
  }

  lemma ReadsPiped(s: string, i: nat, l: Tree, r: Tree)
    requires PairRead(s, i, l, r, '|')
    ensures ReadAs(s, i, Piped(l, r))
  {
    hide ParseLine, ParseExec, Print, Legal, GetToken, SkipSpace;
    PairLength(l, r);
    var k := i + 1 + |Print(l)|;
    var k2 := k + 3 + |Print(r)|;
    var cl, cr := ParseLine(s, i + 1).value.0, ParseLine(s, k + 3).value.0;
    BlockAlone(s, i, l, k, cl);
    BlockAlone(s, k + 2, r, k2, cr);
    LineOf(s, k + 2, cr, k2 + 1);
    NoSkip(s, k + 1);
    SymbolToken(s, k + 1, '|');
    assert ParsePipe(s, i) == Some((Pipe(cl, cr), k2 + 1));
    TailEnds(s, i, Pipe(cl, cr), k2 + 1);
  }

  /** A pipeline followed by nothing is a line. */
  lemma TailEnds(s: string, i: nat, c: Cmd, j: nat)
    requires i <= j <= |s| && ParsePipe(s, i) == Some((c, j)) && Closes(s, j)
    ensures ParseLine(s, i) == Some((c, j))
  {
    NoSkip(s, j);
  }

  lemma ReadsSeq(s: string, i: nat, l: Tree, r: Tree)
    requires PairRead(s, i, l, r, ';')
    ensures ReadAs(s, i, Seq(l, r))
  {
    hide ParseLine, ParseExec, Print, Legal, GetToken, SkipSpace;
    PairLength(l, r);
    var k := i + 1 + |Print(l)|;
    var k2 := k + 3 + |Print(r)|;
    var cl, cr := ParseLine(s, i + 1).value.0, ParseLine(s, k + 3).value.0;
    BlockAlone(s, i, l, k, cl);
    BlockAlone(s, k + 2, r, k2, cr);
    LineOf(s, k + 2, cr, k2 + 1);
    PipeAlone(s, i, cl, k + 1);
    TailSemi(s, i, cl, k + 1, cr, k2 + 1);
  }

  lemma PipeAlone(s: string, i: nat, c: Cmd, j: nat)
    requires i <= j < |s| && ParseExec(s, i) == Some((c, j)) && (s[j] == ';' || s[j] == '&')
    ensures ParsePipe(s, i) == Some((c, j))
  {
    NoSkip(s, j);
  }

  lemma TailSemi(s: string, i: nat, c: Cmd, j: nat, d: Cmd, n: nat)
    requires i <= j < j + 1 <= n <= |s| && ParsePipe(s, i) == Some((c, j)) && s[j] == ';' && StartsPlain(s, j + 1)
    requires ParseLine(s, j + 1) == Some((d, n))
    ensures ParseLine(s, i) == Some((List(c, d), n))
  {
    NoSkip(s, j);
    SymbolToken(s, j, ';');
    hide ParsePipe, GetToken;
  }

  lemma BgParts(s: string, i: nat, c: Tree)
    requires Stands(s, i, Print(Bg(c)))
    ensures var k := i + 1 + |Print(c)|;
            Enclosed(s, i, c, k) && k + 1 < |s| && s[k + 1] == '&' && Closes(s, k)
            && |Print(Bg(c))| == |Print(c)| + 3
  {
    var p := Print(c);
    PrintBg(c);
    hide Print;
    StandsSplit(s, i, "(", p + (")" + "&"));
    StandsSplit(s, i + 1, p, ")" + "&");
    StandsSplit(s, i + 1 + |p|, ")", "&");
    StandsChar(s, i, '(');
    StandsChar(s, i + 1 + |p|, ')');
    StandsChar(s, i + 2 + |p|, '&');
  }

  lemma PrintBg(c: Tree)
    ensures Print(Bg(c)) == "(" + (Print(c) + (")" + "&"))
  {
    assert ")&" == ")" + "&";
  }

  lemma ReadsBg(s: string, i: nat, t: Tree)
    requires Legal(t) && Stands(s, i, Print(Bg(t))) && Closes(s, i + |Print(Bg(t))|) && ReadAs(s, i + 1, t)
    ensures ReadAs(s, i, Bg(t))
  {
    hide ParseLine, ParseExec, Print, Legal, GetToken;
    var c, k := ParseLine(s, i + 1).value.0, i + 1 + |Print(t)|;
    BgParts(s, i, t);
    BlockAlone(s, i, t, k, c);
    PipeAlone(s, i, c, k + 1);
    TailAmp(s, i, c, k + 1);
  }

  lemma TailAmp(s: string, i: nat, c: Cmd, j: nat)
    requires i <= j < |s| && ParsePipe(s, i) == Some((c, j)) && s[j] == '&' && Closes(s, j + 1)
    ensures ParseLine(s, i) == Some((Back(c), j + 1))
  {
    NoSkip(s, j);
    NoSkip(s, j + 1);
    SymbolToken(s, j, '&');
    hide ParsePipe, GetToken;
    assert ParseTail(s, i, Back(c), j + 1) == Some((Back(c), j + 1));
    assert ParseTail(s, i, c, j) == ParseTail(s, i, Back(c), j + 1);
  }

  /** Parsing the fully parenthesised printing of any legal tree succeeds and gives that tree. */
  lemma RoundTrip(t: Tree)
    requires Legal(t)
    ensures ParseCmd(Print(t)).Some? && Text(Print(t), ParseCmd(Print(t)).value) == t
  {
    var s := Print(t);
    assert s[0..|s|] == s;
    hide Print;
    Reads(s, 0, t);
    NoSkip(s, |s|);
  }
}
