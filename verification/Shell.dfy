/** The parser of user/sh.c over positions in the command line; panic is None. */
module Shell {
  import opened Options

  const MAXARGS: nat := 10

  predicate IsSpace(c: char)
  {
    c == ' ' || c == '\t' || c == '\r' || c == '\n' || c == 11 as char
  }

  predicate IsSymbol(c: char)
  {
    c == '<' || c == '|' || c == '>' || c == '&' || c == ';' || c == '(' || c == ')'
  }

  predicate IsWordChar(c: char)
  {
    !IsSpace(c) && !IsSymbol(c) && c != 0 as char
  }

  /** A token or file name: positions q to eq. */
  datatype Span = Span(q: nat, eq: nat)

  datatype Mode = Input | Output | Append

  datatype Cmd =
    | Exec(args: seq<Span>)
    | Redir(cmd: Cmd, file: Span, mode: Mode)
    | Pipe(left: Cmd, right: Cmd)
    | List(left: Cmd, right: Cmd)
    | Back(cmd: Cmd)

  function SkipSpace(s: string, i: nat): (j: nat)
    requires i <= |s|
    ensures i <= j <= |s|
    decreases |s| - i
  {
    if i < |s| && IsSpace(s[i]) then SkipSpace(s, i + 1) else i
  }

  function WordEnd(s: string, i: nat): (j: nat)
    requires i <= |s|
    ensures i <= j <= |s|
    decreases |s| - i
  {
    if i < |s| && !IsSpace(s[i]) && !IsSymbol(s[i]) then WordEnd(s, i + 1) else i
  }

  /** What gettoken returns: 'a' for a word, '+' for >>, the symbol itself, '0' at the end. */
  datatype Token = Token(kind: char, q: nat, eq: nat, next: nat)

  function GetToken(s: string, i: nat): (t: Token)
    requires i <= |s|
    ensures i <= t.q <= t.eq <= t.next <= |s|
    ensures t.kind != '0' ==> i < t.next
  {
    var q := SkipSpace(s, i);
    if q == |s| then Token('0', q, q, q)
    else if s[q] == '>' then
      if q + 1 < |s| && s[q + 1] == '>' then Token('+', q, q + 2, SkipSpace(s, q + 2))
          else Token('>', q, q + 1, SkipSpace(s, q + 1))
    else if IsSymbol(s[q]) then Token(s[q], q, q + 1, SkipSpace(s, q + 1))
    else
      var eq := WordEnd(s, q);
      NotSpace(s, i);
      Token('a', q, eq, SkipSpace(s, eq))
  }

  lemma {:induction false} NotSpace(s: string, i: nat)
    requires i <= |s|
    ensures SkipSpace(s, i) < |s| ==> !IsSpace(s[SkipSpace(s, i)])
    decreases |s| - i
  {
    if i < |s| && IsSpace(s[i]) {
      NotSpace(s, i + 1);
    }
  }

  /** peek: the next position that is not a space, and whether one of `toks` is there. */
  predicate Peek(s: string, i: nat, toks: string)
    requires i <= |s|
  {
    var j := SkipSpace(s, i);
    j < |s| && s[j] in toks
  }

  datatype Redirect = Redirect(file: Span, mode: Mode)

  function Wrap(c: Cmd, rs: seq<Redirect>): Cmd
    decreases |rs|
  {
    if rs == [] then c else Wrap(Redir(c, rs[0].file, rs[0].mode), rs[1..])
  }

  /** parseredirs: the redirections from position `i` on, in order. */
  function ParseRedirs(s: string, i: nat): (r: Option<(seq<Redirect>, nat)>)
    requires i <= |s|
    ensures r.Some? ==> i <= r.value.1 <= |s|
    decreases |s| - i
  {
    if !Peek(s, i, "<>") then Some(([], SkipSpace(s, i)))
    else
      var t := GetToken(s, SkipSpace(s, i));
      var f := GetToken(s, t.next);
      if f.kind != 'a' then None
      else
        var rest := ParseRedirs(s, f.next);
        if rest.None? then None
        else
          var mode := if t.kind == '<' then Input else if t.kind == '>' then Output else Append;
          Some(([Redirect(Span(f.q, f.eq), mode)] + rest.value.0, rest.value.1))
  }

  /** parseexec's loop, with the arguments and redirections found so far. */
  function ParseArgs(s: string, i: nat, args: seq<Span>, rs: seq<Redirect>): (r: Option<(Cmd, nat)>)
    requires i <= |s|
    ensures r.Some? ==> i <= r.value.1 <= |s|
    decreases |s| - i
  {
    if Peek(s, i, "|)&;") then Some((Wrap(Exec(args), rs), SkipSpace(s, i)))
    else
      var t := GetToken(s, SkipSpace(s, i));
      if t.kind == '0' then Some((Wrap(Exec(args), rs), t.next))
      else if t.kind != 'a' || |args| + 1 >= MAXARGS then None
      else
        var more := ParseRedirs(s, t.next);
        if more.None? then None else ParseArgs(s, more.value.1, args + [Span(t.q, t.eq)], rs + more.value.0)
  }

  function ParseLine(s: string, i: nat): (r: Option<(Cmd, nat)>)
    requires i <= |s|
    ensures r.Some? ==> i <= r.value.1 <= |s|
    decreases |s| - i, 4
  {
    var c := ParsePipe(s, i);
    if c.None? then None else ParseTail(s, i, c.value.0, c.value.1)
  }

  /** parseline after its pipeline: ampersands, then perhaps a semicolon. */
  function ParseTail(s: string, start: nat, c: Cmd, i: nat): (r: Option<(Cmd, nat)>)
    requires start <= i <= |s|
    ensures r.Some? ==> i <= r.value.1 <= |s|
    decreases |s| - start, 3, |s| - i
  {
    if Peek(s, i, "&") then ParseTail(s, start, Back(c), GetToken(s, SkipSpace(s, i)).next)
    else if Peek(s, i, ";") then
      var r := ParseLine(s, GetToken(s, SkipSpace(s, i)).next);
      if r.None? then None else Some((List(c, r.value.0), r.value.1))
    else Some((c, SkipSpace(s, i)))
  }

  function ParsePipe(s: string, i: nat): (r: Option<(Cmd, nat)>)
    requires i <= |s|
    ensures r.Some? ==> i <= r.value.1 <= |s|
    decreases |s| - i, 2
  {
    var c := ParseExec(s, i);
    if c.None? then None
    else if Peek(s, c.value.1, "|") then
      var r := ParsePipe(s, GetToken(s, SkipSpace(s, c.value.1)).next);
      if r.None? then None else Some((Pipe(c.value.0, r.value.0), r.value.1))
    else Some((c.value.0, SkipSpace(s, c.value.1)))
  }

  function ParseExec(s: string, i: nat): (r: Option<(Cmd, nat)>)
    requires i <= |s|
    ensures r.Some? ==> i <= r.value.1 <= |s|
    decreases |s| - i, 1
  {
    if Peek(s, i, "(") then ParseBlock(s, SkipSpace(s, i))
    else
      var rs := ParseRedirs(s, SkipSpace(s, i));
      if rs.None? then None else ParseArgs(s, rs.value.1, [], rs.value.0)
  }

  function ParseBlock(s: string, i: nat): (r: Option<(Cmd, nat)>)
    requires i <= |s| && Peek(s, i, "(")
    ensures r.Some? ==> i <= r.value.1 <= |s|
    decreases |s| - i, 0
  {
    var c := ParseLine(s, GetToken(s, SkipSpace(s, i)).next);
    if c.None? || !Peek(s, c.value.1, ")") then None
    else
      var rs := ParseRedirs(s, GetToken(s, SkipSpace(s, c.value.1)).next);
      if rs.None? then None else Some((Wrap(c.value.0, rs.value.0), rs.value.1))
  }

  /** parsecmd up to nulterminate. */
  function ParseCmd(s: string): (r: Option<Cmd>)
  {
    var c := ParseLine(s, 0);
    if c.None? || SkipSpace(s, c.value.1) != |s| then None else Some(c.value.0)
  }
}
