/**
  The command language of user/sh.c: tokens, the recursive-descent parser as functions of the
  line and a position, and the trees it builds. A token is a range q .. eq of the line.
 */
module ShellGrammar {

  const MAXARGS: nat := 10

  /** "<" reads, ">" truncates, ">>" appends. */
  datatype Dir = In | Out | Append

  datatype Range = Range(q: int, eq: int)

  datatype Cmd =
    | Exec(argv: seq<Range>)
    | Redir(cmd: Cmd, file: Range, dir: Dir)
    | Pipe(left: Cmd, right: Cmd)
    | List(left: Cmd, right: Cmd)
    | Back(cmd: Cmd)

  /** A command and the position behind it, or a syntax panic. */
  datatype Result = Panic | Ok(cmd: Cmd, pos: int)

  // ---------------------------------------------------------------------------------
  // Tokens
  // ---------------------------------------------------------------------------------

  predicate Space(c: char) { c == ' ' || c == '\t' || c == '\r' || c == '\n' || c == '\U{0b}' }

  predicate Symbol(c: char) { c == '<' || c == '|' || c == '>' || c == '&' || c == ';' || c == '(' || c == ')' }

  predicate WordChar(c: char) { !Space(c) && !Symbol(c) }

  function SkipSpace(s: string, i: nat): (j: nat)
    requires i <= |s|
    ensures i <= j <= |s| && (j < |s| ==> !Space(s[j])) && forall k :: i <= k < j ==> Space(s[k])
    decreases |s| - i
  {
    if i < |s| && Space(s[i]) then SkipSpace(s, i + 1) else i
  }

  function SkipWord(s: string, i: nat): (j: nat)
    requires i <= |s|
    ensures i <= j <= |s| && (j < |s| ==> !WordChar(s[j])) && forall k :: i <= k < j ==> WordChar(s[k])
    decreases |s| - i
  {
    if i < |s| && WordChar(s[i]) then SkipWord(s, i + 1) else i
  }

  /** The character at i, NUL at the end. */
  function Char(s: string, i: nat): (c: char)
    requires i <= |s|
  {
    if i < |s| then s[i] else '\0'
  }

  predicate Peek(s: string, i: nat, toks: set<char>)
    requires i <= |s|
  {
    SkipSpace(s, i) < |s| && s[SkipSpace(s, i)] in toks
  }

  /**
    What gettoken returns ('a' for a word, '+' for ">>", NUL at the end), the token, and where
    it leaves the cursor.
   */
  datatype Token = Token(kind: char, range: Range, next: nat)

  function GetToken(s: string, i: nat): (t: Token)
    requires i <= |s|
    ensures i <= t.next <= |s| && (t.kind != '\0' || SkipSpace(s, i) < |s| ==> i < t.next)
    ensures t.kind == 'a' ==> RangeOk(s, t.range)
    ensures t.kind == '\0' ==> t.next == |s|
  {
    var q := SkipSpace(s, i);
    if q == |s| then Token('\0', Range(q, q), q)
    else if s[q] == '>' then
      if q + 1 < |s| && s[q + 1] == '>' then Token('+', Range(q, q + 2), SkipSpace(s, q + 2))
      else Token('>', Range(q, q + 1), SkipSpace(s, q + 1))
    else if Symbol(s[q]) then Token(s[q], Range(q, q + 1), SkipSpace(s, q + 1))
    else var e := SkipWord(s, q + 1);
         Token('a', Range(q, e), SkipSpace(s, e))
  }

  /** A whole word: word characters up to, and not including, the first other one. */
  predicate RangeOk(s: string, r: Range) {
    && 0 <= r.q < r.eq <= |s| && (forall k :: r.q <= k < r.eq ==> WordChar(s[k]))
    && (r.eq < |s| ==> !WordChar(s[r.eq]))
  }

  /** Every token of the tree is a word of the line. */
  predicate Sound(s: string, c: Cmd) {
    match c
    case Exec(argv) => |argv| < MAXARGS && forall k :: 0 <= k < |argv| ==> RangeOk(s, argv[k])
    case Redir(d, f, _) => Sound(s, d) && RangeOk(s, f)
    case Pipe(l, r) => Sound(s, l) && Sound(s, r)
    case List(l, r) => Sound(s, l) && Sound(s, r)
    case Back(d) => Sound(s, d)
  }

  // ---------------------------------------------------------------------------------
  // The parser
  // ---------------------------------------------------------------------------------

  predicate Fine(s: string, i: nat, r: Result) { r.Ok? ==> i <= r.pos <= |s| && Sound(s, r.cmd) }

  function DirOf(kind: char): (d: Dir) { if kind == '<' then In else if kind == '>' then Out else Append }

  /** parseredirs(). */
  function Redirs(s: string, c: Cmd, i: nat): (r: Result)
    requires i <= |s| && Sound(s, c)
    ensures Fine(s, i, r)
    decreases |s| - i
  {
    if Peek(s, i, {'<', '>'}) then
      var t := GetToken(s, i);
      var f := GetToken(s, t.next);
      if f.kind != 'a' then Panic else Redirs(s, Redir(c, f.range, DirOf(t.kind)), f.next)
    else Ok(c, SkipSpace(s, i))
  }

  /** The tree built so far with one more argument in the command at its bottom. */
  function AddArg(c: Cmd, a: Range): (r: Cmd) {
    match c
    case Exec(argv) => Exec(argv + [a])
    case Redir(d, f, m) => Redir(AddArg(d, a), f, m)
    case _ => c
  }

  /** argc. */
  function Args(c: Cmd): (n: nat) {
    match c
    case Exec(argv) => |argv|
    case Redir(d, _, _) => Args(d)
    case _ => 0
  }

  predicate OverExec(c: Cmd) { c.Exec? || (c.Redir? && OverExec(c.cmd)) }

  lemma {:induction false} AddArgSound(s: string, c: Cmd, a: Range)
    requires Sound(s, c) && RangeOk(s, a) && Args(c) + 1 < MAXARGS && OverExec(c)
    ensures Sound(s, AddArg(c, a)) && Args(AddArg(c, a)) == Args(c) + 1 && OverExec(AddArg(c, a))
  {
    if c.Redir? { AddArgSound(s, c.cmd, a); }
  }

  lemma {:induction false} RedirsArgs(s: string, c: Cmd, i: nat)
    requires i <= |s| && Sound(s, c) && OverExec(c)
    ensures Redirs(s, c, i).Ok? ==> OverExec(Redirs(s, c, i).cmd) && Args(Redirs(s, c, i).cmd) == Args(c)
    decreases |s| - i
  {
    hide GetToken, Peek;
    if Peek(s, i, {'<', '>'}) {
      PeekMoves(s, i, {'<', '>'});
      var t := GetToken(s, i);
      var f := GetToken(s, t.next);
      if f.kind == 'a' { RedirsArgs(s, Redir(c, f.range, DirOf(t.kind)), f.next); }
    }
  }

  /** A token that peek has seen is consumed. */
  lemma PeekMoves(s: string, i: nat, toks: set<char>)
    requires i <= |s|
    ensures Peek(s, i, toks) ==> i < GetToken(s, i).next
  {}

  /** The argument loop of parseexec. */
  function Arguments(s: string, c: Cmd, i: nat): (r: Result)
    requires i <= |s| && Sound(s, c) && OverExec(c)
    ensures Fine(s, i, r)
    decreases |s| - i
  {
    if Peek(s, i, {'|', ')', '&', ';'}) then Ok(c, SkipSpace(s, i)) else
    var t := GetToken(s, i);
    if t.kind == '\0' then Ok(c, t.next)
    else if t.kind != 'a' then Panic
    else if Args(c) + 1 >= MAXARGS then Panic
    else
      AddArgSound(s, c, t.range);
      RedirsArgs(s, AddArg(c, t.range), t.next);
      var r := Redirs(s, AddArg(c, t.range), t.next);
      if r.Panic? then Panic else Arguments(s, r.cmd, r.pos)
  }

  /** parseline(). */
  function Line(s: string, i: nat): (r: Result)
    requires i <= |s|
    ensures Fine(s, i, r)
    decreases |s| - i, 3
  {
    var p := Pipeline(s, i);
    if p.Panic? then Panic else
    var b := Background(s, p.cmd, p.pos);
    if b.Panic? then Panic
    else if Peek(s, b.pos, {';'}) then
      var rest := Line(s, GetToken(s, b.pos).next);
      if rest.Panic? then Panic else Ok(List(b.cmd, rest.cmd), rest.pos)
    else Ok(b.cmd, SkipSpace(s, b.pos))
  }

  /** The "&" loop of parseline. */
  function Background(s: string, c: Cmd, i: nat): (r: Result)
    requires i <= |s| && Sound(s, c)
    ensures r.Ok? && Fine(s, i, r)
    decreases |s| - i
  {
    if Peek(s, i, {'&'}) then Background(s, Back(c), GetToken(s, i).next) else Ok(c, SkipSpace(s, i))
  }

  /** parsepipe(). */
  function Pipeline(s: string, i: nat): (r: Result)
    requires i <= |s|
    ensures Fine(s, i, r)
    decreases |s| - i, 2
  {
    var e := Command(s, i);
    if e.Panic? then Panic
    else if Peek(s, e.pos, {'|'}) then
      var rest := Pipeline(s, GetToken(s, e.pos).next);
      if rest.Panic? then Panic else Ok(Pipe(e.cmd, rest.cmd), rest.pos)
    else Ok(e.cmd, SkipSpace(s, e.pos))
  }

  /** parseexec(). */
  function Command(s: string, i: nat): (r: Result)
    requires i <= |s|
    ensures Fine(s, i, r)
    decreases |s| - i, 1
  {
    if Peek(s, i, {'('}) then Block(s, i) else
    RedirsArgs(s, Exec([]), i);
    var r := Redirs(s, Exec([]), i);
    if r.Panic? then Panic else Arguments(s, r.cmd, r.pos)
  }

  /** parseblock(), where the "(" has been seen. */
  function Block(s: string, i: nat): (r: Result)
    requires i <= |s| && Peek(s, i, {'('})
    ensures Fine(s, i, r)
    decreases |s| - i, 0
  {
    var l := Line(s, GetToken(s, i).next);
    if l.Panic? || !Peek(s, l.pos, {')'}) then Panic else Redirs(s, l.cmd, GetToken(s, l.pos).next)
  }

  /** parsecmd() before nulterminate: nothing may be left over. */
  function Parse(s: string): (r: Result)
    ensures Fine(s, 0, r)
  {
    var l := Line(s, 0);
    if l.Ok? && SkipSpace(s, l.pos) == |s| then Ok(l.cmd, |s|) else Panic
  }
}
