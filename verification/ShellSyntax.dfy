/**
  What the shell's parser accepts and what it makes of it: the token sequence of a line, the
  command language as a grammar over tokens, and the tree that each line of it stands for.
 */
module ShellSyntax {
  import opened ShellGrammar

  // ---------------------------------------------------------------------------------
  // Trees by their words
  // ---------------------------------------------------------------------------------

  datatype Tree =
    | TExec(args: seq<string>)
    | TRedir(sub: Tree, file: string, dir: Dir)
    | TPipe(left: Tree, right: Tree)
    | TList(left: Tree, right: Tree)
    | TBack(sub: Tree)

  function Text(s: string, r: Range): (w: string) { if 0 <= r.q <= r.eq <= |s| then s[r.q..r.eq] else "" }

  function ArgWords(s: string, argv: seq<Range>): (r: seq<string>) {
    seq(|argv|, k requires 0 <= k < |argv| => Text(s, argv[k]))
  }

  /** A parsed command with its ranges replaced by what they hold. */
  function Words(s: string, c: Cmd): (t: Tree) {
    match c
    case Exec(argv) => TExec(ArgWords(s, argv))
    case Redir(d, f, m) => TRedir(Words(s, d), Text(s, f), m)
    case Pipe(l, r) => TPipe(Words(s, l), Words(s, r))
    case List(l, r) => TList(Words(s, l), Words(s, r))
    case Back(d) => TBack(Words(s, d))
  }

  // ---------------------------------------------------------------------------------
  // The tokens of a line
  // ---------------------------------------------------------------------------------

  /** A word, or a symbol by its kind; '+' is ">>". */
  datatype Tok = W(text: string) | S(kind: char)

  function TokOf(s: string, t: Token): (k: Tok) { if t.kind == 'a' then W(Text(s, t.range)) else S(t.kind) }

  /** The tokens from i to the end of the line. */
  function Toks(s: string, i: nat): (r: seq<Tok>)
    requires i <= |s|
    decreases |s| - i
  {
    var t := GetToken(s, i);
    if t.kind == '\0' then [] else [TokOf(s, t)] + Toks(s, t.next)
  }

  /** The first character of a token. */
  function Lead(k: Tok): (c: char) {
    match k
    case W(w) => if w == "" then '\0' else w[0]
    case S(c) => if c == '+' then '>' else c
  }

  predicate Starts(toks: seq<Tok>, lead: set<char>) { toks != [] && Lead(toks[0]) in lead }

  lemma SkipTwice(s: string, i: nat)
    requires i <= |s|
    ensures SkipSpace(s, SkipSpace(s, i)) == SkipSpace(s, i)
  {}

  lemma SameToken(s: string, i: nat)
    requires i <= |s|
    ensures GetToken(s, SkipSpace(s, i)) == GetToken(s, i)
  {
    hide SkipWord, SkipSpace, Symbol, Space, WordChar, RangeOk;
    SkipTwice(s, i);
  }

  /** White space before a token is of no account. */
  lemma Skipped(s: string, i: nat)
    requires i <= |s|
    ensures Toks(s, SkipSpace(s, i)) == Toks(s, i)
  {
    hide GetToken, SkipSpace;
    SameToken(s, i);
  }

  /** peek looks at the next token. */
  lemma Peeked(s: string, i: nat, lead: set<char>)
    requires i <= |s|
    ensures Peek(s, i, lead) <==> Starts(Toks(s, i), lead)
  {}

  lemma Ended(s: string, i: nat)
    requires i <= |s|
    ensures Toks(s, i) == [] <==> SkipSpace(s, i) == |s|
  {}

  /** gettoken takes the next token. */
  lemma Taken(s: string, i: nat)
    requires i <= |s| && Toks(s, i) != []
    ensures var t := GetToken(s, i);
            && t.kind != '\0' && i < t.next && Toks(s, i) == [TokOf(s, t)] + Toks(s, t.next)
            && Toks(s, i)[0] == TokOf(s, t) && Toks(s, i)[1..] == Toks(s, t.next)
            && (Toks(s, i)[0].W? <==> t.kind == 'a') && (t.kind == 'a' ==> RangeOk(s, t.range))
  {}

  // ---------------------------------------------------------------------------------
  // The command language
  // ---------------------------------------------------------------------------------

  /** What a simple command is made of. */
  datatype Item = Arg(word: string) | Red(dir: Dir, file: string)

  /** items in any order; or a parenthesised line and redirections. */
  datatype Stage = Simple(items: seq<Item>) | Group(script: Script, reds: seq<Item>)

  datatype Chain = Last(stage: Stage) | Bar(stage: Stage, rest: Chain)

  /** A line: pipelines, each with so many "&" behind it, between semicolons. */
  datatype Script = Final(chain: Chain, amps: nat) | Semi(chain: Chain, amps: nat, rest: Script)

  function Kind(d: Dir): (k: char) { match d case In => '<' case Out => '>' case Append => '+' }

  function OneItem(x: Item): (r: seq<Tok>) { match x case Arg(w) => [W(w)] case Red(d, f) => [S(Kind(d)), W(f)] }

  function ItemToks(items: seq<Item>): (r: seq<Tok>) {
    if items == [] then [] else OneItem(items[0]) + ItemToks(items[1..])
  }

  function StageToks(k: Stage): (r: seq<Tok>) {
    match k
    case Simple(items) => ItemToks(items)
    case Group(l, reds) => [S('(')] + ScriptToks(l) + [S(')')] + ItemToks(reds)
  }

  function ChainToks(p: Chain): (r: seq<Tok>) {
    match p
    case Last(k) => StageToks(k)
    case Bar(k, q) => StageToks(k) + [S('|')] + ChainToks(q)
  }

  function Amps(n: nat): (r: seq<Tok>) { seq(n, _ => S('&')) }

  function ScriptToks(l: Script): (r: seq<Tok>) {
    match l
    case Final(p, n) => ChainToks(p) + Amps(n)
    case Semi(p, n, m) => ChainToks(p) + Amps(n) + [S(';')] + ScriptToks(m)
  }

  /** The words of a simple command, in order. */
  function WordsOf(items: seq<Item>): (r: seq<string>) {
    if items == [] then [] else (if items[0].Arg? then [items[0].word] else []) + WordsOf(items[1..])
  }

  /** t under the redirections among items, the first innermost. */
  function Wrap(t: Tree, items: seq<Item>): (r: Tree)
    decreases |items|
  {
    if items == [] then t
    else Wrap(if items[0].Red? then TRedir(t, items[0].file, items[0].dir) else t, items[1..])
  }

  function BackN(t: Tree, n: nat): (r: Tree) { if n == 0 then t else TBack(BackN(t, n - 1)) }

  /** A simple command is its words under its redirections, however the two are mixed. */
  function StageTree(k: Stage): (t: Tree) {
    match k
    case Simple(items) => Wrap(TExec(WordsOf(items)), items)
    case Group(l, reds) => Wrap(ScriptTree(l), reds)
  }

  function ChainTree(p: Chain): (t: Tree) {
    match p
    case Last(k) => StageTree(k)
    case Bar(k, q) => TPipe(StageTree(k), ChainTree(q))
  }

  function ScriptTree(l: Script): (t: Tree) {
    match l
    case Final(p, n) => BackN(ChainTree(p), n)
    case Semi(p, n, m) => TList(BackN(ChainTree(p), n), ScriptTree(m))
  }

  predicate AllReds(items: seq<Item>) { forall k :: 0 <= k < |items| ==> items[k].Red? }

  /** Fewer than MAXARGS words in each simple command; only redirections behind a group. */
  predicate StageOk(k: Stage) {
    match k
    case Simple(items) => |WordsOf(items)| < MAXARGS
    case Group(l, reds) => ScriptOk(l) && AllReds(reds)
  }

  predicate ChainOk(p: Chain) {
    match p
    case Last(k) => StageOk(k)
    case Bar(k, q) => StageOk(k) && ChainOk(q)
  }

  predicate ScriptOk(l: Script) {
    match l
    case Final(p, _) => ChainOk(p)
    case Semi(p, _, m) => ChainOk(p) && ScriptOk(m)
  }

  // ---------------------------------------------------------------------------------
  // Redirections and arguments
  // ---------------------------------------------------------------------------------

  /** parseredirs and then the argument loop, as parseexec runs them on its own tree. */
  function Loop(s: string, c: Cmd, i: nat): (r: Result)
    requires i <= |s| && Sound(s, c) && OverExec(c)
  {
    RedirsArgs(s, c, i);
    var r := Redirs(s, c, i);
    if r.Panic? then Panic else Arguments(s, r.cmd, r.pos)
  }

  /** One more word for the command at the bottom. */
  function AddWord(t: Tree, w: string): (r: Tree) {
    match t
    case TExec(args) => TExec(args + [w])
    case TRedir(u, f, d) => TRedir(AddWord(u, w), f, d)
    case _ => t
  }

  lemma {:induction false} AddArgWords(s: string, c: Cmd, a: Range)
    requires OverExec(c)
    ensures Words(s, AddArg(c, a)) == AddWord(Words(s, c), Text(s, a))
  {
    if c.Redir? {
      AddArgWords(s, c.cmd, a);
    } else {
      assert ArgWords(s, c.argv + [a]) == ArgWords(s, c.argv) + [Text(s, a)];
    }
  }

  /** parseredirs at a redirection. */
  lemma RedirNext(s: string, c: Cmd, i: nat)
    requires i <= |s| && Sound(s, c) && |Toks(s, i)| >= 2 && Starts(Toks(s, i), {'<', '>'}) && Toks(s, i)[1].W?
    ensures var t := GetToken(s, i);
            var f := GetToken(s, t.next);
            && f.kind == 'a' && Sound(s, Redir(c, f.range, DirOf(t.kind))) && f.next <= |s|
            && Redirs(s, c, i) == Redirs(s, Redir(c, f.range, DirOf(t.kind)), f.next)
            && Toks(s, i) == [S(t.kind), W(Text(s, f.range))] + Toks(s, f.next)
            && (t.kind == '<' || t.kind == '>' || t.kind == '+') && i < f.next
  {
    hide GetToken, Peek, Toks, SkipSpace, Text;
    Peeked(s, i, {'<', '>'});
    Taken(s, i);
    LeadSign(s, i);
    var t := GetToken(s, i);
    Taken(s, t.next);
    assert Toks(s, i)[1] == Toks(s, t.next)[0];
  }

  lemma LeadSign(s: string, i: nat)
    requires i <= |s| && Starts(Toks(s, i), {'<', '>'})
    ensures var t := GetToken(s, i); t.kind == '<' || t.kind == '>' || t.kind == '+'
  {}

  /** parseredirs elsewhere. */
  lemma RedirNone(s: string, c: Cmd, i: nat)
    requires i <= |s| && Sound(s, c) && !Starts(Toks(s, i), {'<', '>'})
    ensures Redirs(s, c, i) == Ok(c, SkipSpace(s, i)) && Toks(s, SkipSpace(s, i)) == Toks(s, i)
  {
    hide GetToken, Peek, Toks, SkipSpace;
    Peeked(s, i, {'<', '>'});
    Skipped(s, i);
  }

  lemma ItemHead(items: seq<Item>, rest: seq<Tok>)
    requires items != []
    ensures ItemToks(items) + rest == OneItem(items[0]) + (ItemToks(items[1..]) + rest)
  {
    var x, y := OneItem(items[0]), ItemToks(items[1..]);
    hide ItemToks, OneItem;
    assert x + y + rest == x + (y + rest);
  }

  lemma SamePair(a: Tok, b: Tok, x: seq<Tok>, c: Tok, d: Tok, y: seq<Tok>)
    requires [a, b] + x == [c, d] + y
    ensures a == c && b == d && x == y
  {
    assert ([a, b] + x)[0] == a && ([a, b] + x)[1] == b && ([a, b] + x)[2..] == x;
    assert ([c, d] + y)[0] == c && ([c, d] + y)[1] == d && ([c, d] + y)[2..] == y;
  }

  lemma SameHead(a: Tok, x: seq<Tok>, b: Tok, y: seq<Tok>)
    requires [a] + x == [b] + y
    ensures a == b && x == y
  {
    assert ([a] + x)[1..] == x && ([b] + y)[1..] == y;
  }

  /** The redirection that items begin with, as gettoken delivers it. */
  lemma RedFirst(s: string, c: Cmd, i: nat, items: seq<Item>, rest: seq<Tok>)
    requires i <= |s| && Sound(s, c) && items != [] && items[0].Red? && Toks(s, i) == ItemToks(items) + rest
    ensures |Toks(s, i)| >= 2 && Starts(Toks(s, i), {'<', '>'}) && Toks(s, i)[1].W?
    ensures var t := GetToken(s, i);
            var f := GetToken(s, t.next);
            && f.kind == 'a' && Sound(s, Redir(c, f.range, DirOf(t.kind))) && f.next <= |s|
            && Redirs(s, c, i) == Redirs(s, Redir(c, f.range, DirOf(t.kind)), f.next)
            && Text(s, f.range) == items[0].file && DirOf(t.kind) == items[0].dir
            && Toks(s, f.next) == ItemToks(items[1..]) + rest
  {
    hide GetToken, Redirs, Sound, SkipSpace, Toks, Text, ItemToks;
    var Red(d, f) := items[0];
    var behind := ItemToks(items[1..]) + rest;
    ItemHead(items, rest);
    assert Toks(s, i) == [S(Kind(d)), W(f)] + behind;
    RedirNext(s, c, i);
    var t := GetToken(s, i);
    var g := GetToken(s, t.next);
    SamePair(S(Kind(d)), W(f), behind, S(t.kind), W(Text(s, g.range)), Toks(s, g.next));
  }

  lemma {:induction false} RedirsParse(s: string, c: Cmd, i: nat, reds: seq<Item>, rest: seq<Tok>)
    requires i <= |s| && Sound(s, c) && AllReds(reds) && Toks(s, i) == ItemToks(reds) + rest
    requires !Starts(rest, {'<', '>'})
    ensures var r := Redirs(s, c, i);
            r.Ok? && r.pos <= |s| && Words(s, r.cmd) == Wrap(Words(s, c), reds) && Toks(s, r.pos) == rest
    decreases |reds|
  {
    hide GetToken, Redirs, Sound, SkipSpace, Toks, Text, DirOf, Starts;
    if reds == [] {
      assert Toks(s, i) == rest;
      RedirNone(s, c, i);
    } else {
      RedFirst(s, c, i, reds, rest);
      var t := GetToken(s, i);
      var g := GetToken(s, t.next);
      hide ItemToks;
      RedirsParse(s, Redir(c, g.range, DirOf(t.kind)), g.next, reds[1..], rest);
    }
  }

  /** The end of a command: of the line, or of what the next symbol starts. */
  predicate Ends(rest: seq<Tok>) { rest == [] || (rest[0].S? && rest[0].kind in {'|', ')', '&', ';'}) }

  /** t with the items of a simple command added one by one. */
  function Grow(t: Tree, items: seq<Item>): (r: Tree)
    decreases |items|
  {
    if items == [] then t
    else Grow(match items[0]
              case Arg(w) => AddWord(t, w)
              case Red(d, f) => TRedir(t, f, d), items[1..])
  }

  lemma EndsLead(rest: seq<Tok>)
    requires Ends(rest)
    ensures !Starts(rest, {'<', '>'}) && !Starts(rest, {'('})
    ensures rest != [] ==> Starts(rest, {'|', ')', '&', ';'})
  {}

  lemma WordLead(s: string, i: nat, lead: set<char>)
    requires i <= |s| && Toks(s, i) != [] && Toks(s, i)[0].W? && (forall x :: x in lead ==> Symbol(x))
    ensures !Starts(Toks(s, i), lead)
  {}

  lemma LoopEnd(s: string, c: Cmd, i: nat)
    requires i <= |s| && Sound(s, c) && OverExec(c) && Ends(Toks(s, i))
    ensures var r := Loop(s, c, i); r.Ok? && r.cmd == c && r.pos <= |s| && Toks(s, r.pos) == Toks(s, i)
  {
    hide GetToken, Peek, Toks, SkipSpace, Redirs, Sound, Starts, Ends;
    EndsLead(Toks(s, i));
    RedirNone(s, c, i);
    var j := SkipSpace(s, i);
    ArgumentsEnd(s, c, j);
  }

  lemma ArgumentsEnd(s: string, c: Cmd, i: nat)
    requires i <= |s| && Sound(s, c) && OverExec(c) && Ends(Toks(s, i))
    ensures var r := Arguments(s, c, i); r.Ok? && r.cmd == c && r.pos <= |s| && Toks(s, r.pos) == Toks(s, i)
  {
    hide Peek, SkipSpace, Redirs, Sound, GetToken, Starts;
    EndsLead(Toks(s, i));
    Peeked(s, i, {'|', ')', '&', ';'});
    if Toks(s, i) == [] { NoToken(s, i); } else { Skipped(s, i); }
  }

  lemma NoToken(s: string, i: nat)
    requires i <= |s| && Toks(s, i) == []
    ensures GetToken(s, i).kind == '\0' && Toks(s, GetToken(s, i).next) == []
    ensures forall lead :: !Starts(Toks(s, i), lead)
  {}

  lemma LoopRed(s: string, c: Cmd, i: nat)
    requires i <= |s| && Sound(s, c) && OverExec(c)
    requires |Toks(s, i)| >= 2 && Starts(Toks(s, i), {'<', '>'}) && Toks(s, i)[1].W?
    ensures var t := GetToken(s, i);
            var f := GetToken(s, t.next);
            && Sound(s, Redir(c, f.range, DirOf(t.kind))) && OverExec(Redir(c, f.range, DirOf(t.kind)))
            && Loop(s, c, i) == Loop(s, Redir(c, f.range, DirOf(t.kind)), f.next)
  {
    hide GetToken, Peek, Toks, SkipSpace, Redirs, Sound, Arguments;
    RedirNext(s, c, i);
  }

  lemma LoopArg(s: string, c: Cmd, i: nat)
    requires i <= |s| && Sound(s, c) && OverExec(c) && Args(c) + 1 < MAXARGS
    requires Toks(s, i) != [] && Toks(s, i)[0].W?
    ensures var t := GetToken(s, i);
            && Sound(s, AddArg(c, t.range)) && OverExec(AddArg(c, t.range))
            && Args(AddArg(c, t.range)) == Args(c) + 1
            && Loop(s, c, i) == Loop(s, AddArg(c, t.range), t.next)
  {
    hide GetToken, Peek, Toks, SkipSpace, Redirs, Sound, Starts;
    Taken(s, i);
    SameToken(s, i);
    WordLead(s, i, {'<', '>'});
    RedirNone(s, c, i);
    var j := SkipSpace(s, i);
    WordLead(s, j, {'|', ')', '&', ';'});
    Peeked(s, j, {'|', ')', '&', ';'});
    AddArgSound(s, c, GetToken(s, i).range);
  }

  /** The word that items begin with. */
  lemma ArgFirst(s: string, i: nat, items: seq<Item>, rest: seq<Tok>)
    requires i <= |s| && items != [] && items[0].Arg? && Toks(s, i) == ItemToks(items) + rest
    ensures Toks(s, i) != [] && Toks(s, i)[0].W?
    ensures var t := GetToken(s, i);
            t.next <= |s| && Text(s, t.range) == items[0].word && Toks(s, t.next) == ItemToks(items[1..]) + rest
  {
    hide GetToken, Toks, Text, RangeOk, ItemToks;
    ItemHead(items, rest);
    Taken(s, i);
    var t := GetToken(s, i);
    SameHead(W(items[0].word), ItemToks(items[1..]) + rest, TokOf(s, t), Toks(s, t.next));
  }

  lemma {:induction false} ItemsParse(s: string, c: Cmd, i: nat, items: seq<Item>, rest: seq<Tok>)
    requires i <= |s| && Sound(s, c) && OverExec(c) && Args(c) + |WordsOf(items)| < MAXARGS
    requires Toks(s, i) == ItemToks(items) + rest && Ends(rest)
    ensures var r := Loop(s, c, i);
            r.Ok? && r.pos <= |s| && Words(s, r.cmd) == Grow(Words(s, c), items) && Toks(s, r.pos) == rest
    decreases |items|
  {
    hide GetToken, Loop, Sound, Toks, Text, OverExec, Ends, Starts, Redirs, DirOf, AddArg, AddWord;
    if items == [] {
      assert Toks(s, i) == rest;
      LoopEnd(s, c, i);
    } else if items[0].Arg? {
      ArgFirst(s, i, items, rest);
      LoopArg(s, c, i);
      hide ItemToks, RangeOk;
      var t := GetToken(s, i);
      AddArgWords(s, c, t.range);
      ItemsParse(s, AddArg(c, t.range), t.next, items[1..], rest);
    } else {
      RedFirst(s, c, i, items, rest);
      LoopRed(s, c, i);
      hide ItemToks, RangeOk;
      var t := GetToken(s, i);
      var g := GetToken(s, t.next);
      ItemsParse(s, Redir(c, g.range, DirOf(t.kind)), g.next, items[1..], rest);
    }
  }

  // The order of words among redirections does not matter.

  lemma {:induction false} WrapAdd(t: Tree, w: string, items: seq<Item>)
    ensures Wrap(AddWord(t, w), items) == AddWord(Wrap(t, items), w)
    decreases |items|
  {
    if items != [] {
      WrapAdd(if items[0].Red? then TRedir(t, items[0].file, items[0].dir) else t, w, items[1..]);
    }
  }

  lemma {:induction false} WrapSnoc(t: Tree, items: seq<Item>, x: Item)
    ensures Wrap(t, items + [x]) == if x.Red? then TRedir(Wrap(t, items), x.file, x.dir) else Wrap(t, items)
    decreases |items|
  {
    if items == [] {
      assert [x][1..] == [];
    } else {
      assert (items + [x])[1..] == items[1..] + [x];
      WrapSnoc(if items[0].Red? then TRedir(t, items[0].file, items[0].dir) else t, items[1..], x);
    }
  }

  /** Adding the items in turn gives the words in order under the redirections in order. */
  lemma {:induction false} GrowIs(ws: seq<string>, done: seq<Item>, items: seq<Item>)
    ensures Grow(Wrap(TExec(ws), done), items) == Wrap(TExec(ws + WordsOf(items)), done + items)
    decreases |items|
  {
    if items == [] {
      assert done + items == done && ws + WordsOf(items) == ws;
    } else {
      var x, rest := items[0], items[1..];
      WrapSnoc(TExec(ws), done, x);
      assert done + items == (done + [x]) + rest;
      if x.Arg? {
        WrapAdd(TExec(ws), x.word, done);
        WrapSnoc(TExec(ws + [x.word]), done, x);
        GrowIs(ws + [x.word], done + [x], rest);
        assert ws + [x.word] + WordsOf(rest) == ws + WordsOf(items);
      } else {
        GrowIs(ws, done + [x], rest);
        assert WordsOf(items) == WordsOf(rest);
      }
    }
  }

  /** parseexec on a simple command: redirections and words in any order. */
  lemma SimpleParse(s: string, i: nat, items: seq<Item>, rest: seq<Tok>)
    requires i <= |s| && |WordsOf(items)| < MAXARGS && Toks(s, i) == ItemToks(items) + rest && Ends(rest)
    ensures Reads(s, Command(s, i), Wrap(TExec(WordsOf(items)), items), rest)
  {
    hide GetToken, Toks, Peek, Arguments, Redirs, Wrap, Grow, Ends, ItemToks, WordsOf, Starts;
    NotGroup(s, i, items, rest);
    Peeked(s, i, {'('});
    ItemsParse(s, Exec([]), i, items, rest);
    assert ArgWords(s, []) == [];
    GrowIs([], [], items);
    WrapNil(TExec([]));
    assert [] + items == items && [] + WordsOf(items) == WordsOf(items);
    LoopIsCommand(s, i);
  }

  lemma WrapNil(t: Tree)
    ensures Wrap(t, []) == t
  {}

  lemma LoopIsCommand(s: string, i: nat)
    requires i <= |s| && !Peek(s, i, {'('})
    ensures Command(s, i) == Loop(s, Exec([]), i)
  {
    hide Peek, Arguments, Redirs;
  }

  lemma NotGroup(s: string, i: nat, items: seq<Item>, rest: seq<Tok>)
    requires i <= |s| && Toks(s, i) == ItemToks(items) + rest && Ends(rest)
    ensures !Starts(Toks(s, i), {'('})
  {
    hide Toks;
    if items == [] {
      assert Toks(s, i) == rest;
    } else if items[0].Arg? {
      ArgFirst(s, i, items, rest);
      WordLead(s, i, {'('});
    } else {
      assert Toks(s, i)[0] == S(Kind(items[0].dir));
    }
  }

  // ---------------------------------------------------------------------------------
  // Every line of the grammar parses to its tree
  // ---------------------------------------------------------------------------------

  /** r is the tree t, and what is left begins with rest. */
  ghost predicate Reads(s: string, r: Result, t: Tree, rest: seq<Tok>) {
    r.Ok? && 0 <= r.pos <= |s| && Words(s, r.cmd) == t && Toks(s, r.pos) == rest
  }

  /** gettoken at a symbol. */
  lemma SymbolFirst(s: string, i: nat, k: char, rest: seq<Tok>)
    requires i <= |s| && Toks(s, i) == [S(k)] + rest
    ensures var t := GetToken(s, i); t.next <= |s| && i < t.next && Toks(s, t.next) == rest
    ensures k != '+' ==> forall lead :: Peek(s, i, lead) <==> k in lead
  {
    hide GetToken, Peek, Toks;
    Taken(s, i);
    assert Toks(s, i)[1..] == rest;
    if k != '+' {
      forall lead ensures Peek(s, i, lead) <==> k in lead { Peeked(s, i, lead); }
    }
  }

  lemma {:induction false} StageParse(s: string, i: nat, k: Stage, rest: seq<Tok>)
    requires i <= |s| && StageOk(k) && Toks(s, i) == StageToks(k) + rest && Ends(rest)
    ensures Reads(s, Command(s, i), StageTree(k), rest)
    decreases k, 0
  {
    hide GetToken, Toks, Peek, Ends, Command, Line;
    match k
    case Simple(items) => SimpleParse(s, i, items, rest);
    case Group(l, reds) =>
      var behind := [S(')')] + ItemToks(reds) + rest;
      assert Toks(s, i) == [S('(')] + (ScriptToks(l) + behind);
      SymbolFirst(s, i, '(', ScriptToks(l) + behind);
      ScriptParse(s, GetToken(s, i).next, l, behind);
      GroupParse(s, i, reds, rest);
  }

  lemma GroupParse(s: string, i: nat, reds: seq<Item>, rest: seq<Tok>)
    requires i <= |s| && Peek(s, i, {'('}) && AllReds(reds) && Ends(rest)
    requires var l := Line(s, GetToken(s, i).next);
             l.Ok? && Toks(s, l.pos) == [S(')')] + ItemToks(reds) + rest
    ensures Reads(s, Command(s, i), Wrap(Words(s, Line(s, GetToken(s, i).next).cmd), reds), rest)
  {
    hide GetToken, Toks, Peek, Line, Redirs, Sound;
    var l := Line(s, GetToken(s, i).next);
    assert Toks(s, l.pos) == [S(')')] + (ItemToks(reds) + rest);
    SymbolFirst(s, l.pos, ')', ItemToks(reds) + rest);
    EndsLead(rest);
    RedirsParse(s, l.cmd, GetToken(s, l.pos).next, reds, rest);
  }

  lemma {:induction false} ChainParse(s: string, i: nat, p: Chain, rest: seq<Tok>)
    requires i <= |s| && ChainOk(p) && Toks(s, i) == ChainToks(p) + rest && Ends(rest) && !Starts(rest, {'|'})
    ensures Reads(s, Pipeline(s, i), ChainTree(p), rest)
    decreases p, 0
  {
    hide GetToken, Toks, Peek, Ends, Command, Pipeline, Starts;
    match p
    case Last(k) =>
      StageParse(s, i, k, rest);
      PipeNone(s, i);
    case Bar(k, q) =>
      var behind := [S('|')] + (ChainToks(q) + rest);
      assert Toks(s, i) == StageToks(k) + behind;
      assert Ends(behind) by { EndsAt(behind, '|'); }
      StageParse(s, i, k, behind);
      var j := Command(s, i).pos;
      SymbolFirst(s, j, '|', ChainToks(q) + rest);
      ChainParse(s, GetToken(s, j).next, q, rest);
      PipeMore(s, i);
  }

  lemma EndsAt(rest: seq<Tok>, k: char)
    requires rest != [] && rest[0] == S(k) && k in {'|', ')', '&', ';'}
    ensures Ends(rest)
  {}

  lemma PipeNone(s: string, i: nat)
    requires i <= |s| && Command(s, i).Ok? && !Starts(Toks(s, Command(s, i).pos), {'|'})
    ensures var c, r := Command(s, i), Pipeline(s, i);
            r.Ok? && r.cmd == c.cmd && Toks(s, r.pos) == Toks(s, c.pos)
  {
    hide Command, Peek, SkipSpace, Sound, Toks, Starts;
    Peeked(s, Command(s, i).pos, {'|'});
    Skipped(s, Command(s, i).pos);
  }

  lemma PipeMore(s: string, i: nat)
    requires i <= |s| && Command(s, i).Ok? && Peek(s, Command(s, i).pos, {'|'})
    requires i <= GetToken(s, Command(s, i).pos).next <= |s|
    requires Pipeline(s, GetToken(s, Command(s, i).pos).next).Ok?
    ensures var c := Command(s, i);
            var q := Pipeline(s, GetToken(s, c.pos).next);
            Pipeline(s, i) == Ok(Pipe(c.cmd, q.cmd), q.pos)
  {
    hide Command, Peek, SkipSpace, Sound, GetToken;
  }

  /** The "&" loop of parseline. */
  lemma {:induction false} AmpsParse(s: string, c: Cmd, i: nat, n: nat, rest: seq<Tok>)
    requires i <= |s| && Sound(s, c) && Toks(s, i) == Amps(n) + rest && !Starts(rest, {'&'})
    ensures Reads(s, Background(s, c, i), BackN(Words(s, c), n), rest)
    decreases n
  {
    hide GetToken, Toks, Peek, SkipSpace;
    if n == 0 {
      assert Toks(s, i) == rest;
      Peeked(s, i, {'&'});
      Skipped(s, i);
    } else {
      assert Toks(s, i) == [S('&')] + (Amps(n - 1) + rest);
      SymbolFirst(s, i, '&', Amps(n - 1) + rest);
      BackInside(Words(s, c), n - 1);
      AmpsParse(s, Back(c), GetToken(s, i).next, n - 1, rest);
    }
  }

  lemma {:induction false} BackInside(t: Tree, n: nat)
    ensures BackN(TBack(t), n) == TBack(BackN(t, n))
  {
    if n > 0 { BackInside(t, n - 1); }
  }

  /** What may follow a line: nothing, or a closing parenthesis. */
  predicate Closes(rest: seq<Tok>) { rest == [] || rest[0] == S(')') }

  lemma {:induction false} ScriptParse(s: string, i: nat, l: Script, rest: seq<Tok>)
    requires i <= |s| && ScriptOk(l) && Toks(s, i) == ScriptToks(l) + rest && Closes(rest)
    ensures Reads(s, Line(s, i), ScriptTree(l), rest)
    decreases l, 0
  {
    hide GetToken, Toks, Peek, Pipeline, Line, Ends, Background;
    var p, n := l.chain, l.amps;
    var behind := if l.Final? then rest else [S(';')] + (ScriptToks(l.rest) + rest);
    assert Toks(s, i) == ChainToks(p) + (Amps(n) + behind);
    AmpsBehind(n, behind);
    ChainParse(s, i, p, Amps(n) + behind);
    var c := Pipeline(s, i);
    AmpsParse(s, c.cmd, c.pos, n, behind);
    var b := Background(s, c.cmd, c.pos);
    if l.Semi? {
      SymbolFirst(s, b.pos, ';', ScriptToks(l.rest) + rest);
      ScriptParse(s, GetToken(s, b.pos).next, l.rest, rest);
      LineMore(s, i);
    } else {
      LineNone(s, i);
    }
  }

  lemma AmpsBehind(n: nat, behind: seq<Tok>)
    requires Closes(behind) || behind[0] == S(';')
    ensures Ends(Amps(n) + behind) && !Starts(Amps(n) + behind, {'|'}) && !Starts(behind, {'&'})
  {
    if n == 0 { assert Amps(n) + behind == behind; }
  }

  lemma LineNone(s: string, i: nat)
    requires i <= |s| && Pipeline(s, i).Ok?
    requires !Starts(Toks(s, Background(s, Pipeline(s, i).cmd, Pipeline(s, i).pos).pos), {';'})
    ensures var b, r := Background(s, Pipeline(s, i).cmd, Pipeline(s, i).pos), Line(s, i);
            r.Ok? && r.cmd == b.cmd && Toks(s, r.pos) == Toks(s, b.pos)
  {
    hide Pipeline, Peek, SkipSpace, Sound, Toks, Starts, Background;
    var b := Background(s, Pipeline(s, i).cmd, Pipeline(s, i).pos);
    Peeked(s, b.pos, {';'});
    Skipped(s, b.pos);
  }

  lemma LineMore(s: string, i: nat)
    requires i <= |s| && Pipeline(s, i).Ok?
    requires var b := Background(s, Pipeline(s, i).cmd, Pipeline(s, i).pos);
             Peek(s, b.pos, {';'}) && i <= GetToken(s, b.pos).next && Line(s, GetToken(s, b.pos).next).Ok?
    ensures var b := Background(s, Pipeline(s, i).cmd, Pipeline(s, i).pos);
            var m := Line(s, GetToken(s, b.pos).next);
            Line(s, i) == Ok(List(b.cmd, m.cmd), m.pos)
  {
    hide Pipeline, Peek, SkipSpace, Sound, GetToken, Background;
  }

  // ---------------------------------------------------------------------------------
  // Every line that parses is one of the grammar
  // ---------------------------------------------------------------------------------

  lemma {:induction false} RedirsRead(s: string, c: Cmd, i: nat) returns (reds: seq<Item>)
    requires i <= |s| && Sound(s, c) && Redirs(s, c, i).Ok?
    ensures AllReds(reds) && Toks(s, i) == ItemToks(reds) + Toks(s, Redirs(s, c, i).pos)
    ensures Words(s, Redirs(s, c, i).cmd) == Wrap(Words(s, c), reds)
    decreases |s| - i
  {
    hide GetToken, Toks, SkipSpace, Text, Starts, DirOf;
    if Peek(s, i, {'<', '>'}) {
      var t := GetToken(s, i);
      var f := GetToken(s, t.next);
      RedirTokens(s, i);
      var more := RedirsRead(s, Redir(c, f.range, DirOf(t.kind)), f.next);
      reds := [Red(DirOf(t.kind), Text(s, f.range))] + more;
      assert reds[1..] == more;
    } else {
      Skipped(s, i);
      reds := [];
    }
  }

  /** The two tokens of a redirection. */
  lemma RedirTokens(s: string, i: nat)
    requires i <= |s| && Peek(s, i, {'<', '>'}) && GetToken(s, GetToken(s, i).next).kind == 'a'
    ensures var t := GetToken(s, i);
            var f := GetToken(s, t.next);
            && i < f.next <= |s| && t.kind == Kind(DirOf(t.kind))
            && Toks(s, i) == [S(Kind(DirOf(t.kind))), W(Text(s, f.range))] + Toks(s, f.next)
  {
    hide GetToken, Peek, Toks, Text, RangeOk;
    Peeked(s, i, {'<', '>'});
    LeadSign(s, i);
    Taken(s, i);
    NonEmpty(s, GetToken(s, i).next);
    Taken(s, GetToken(s, i).next);
  }

  lemma NonEmpty(s: string, i: nat)
    requires i <= |s| && GetToken(s, i).kind != '\0'
    ensures Toks(s, i) != []
  {}

  lemma {:induction false} ItemsAppend(a: seq<Item>, b: seq<Item>)
    ensures ItemToks(a + b) == ItemToks(a) + ItemToks(b) && WordsOf(a + b) == WordsOf(a) + WordsOf(b)
    decreases |a|
  {
    if a == [] {
      assert a + b == b;
    } else {
      hide OneItem;
      assert (a + b)[1..] == a[1..] + b;
      ItemsAppend(a[1..], b);
      var x, y, z := OneItem(a[0]), ItemToks(a[1..]), ItemToks(b);
      assert x + (y + z) == x + y + z;
    }
  }

  lemma {:induction false} GrowAppend(t: Tree, a: seq<Item>, b: seq<Item>)
    ensures Grow(t, a + b) == Grow(Grow(t, a), b)
    decreases |a|
  {
    if a == [] {
      assert a + b == b;
    } else {
      assert (a + b)[1..] == a[1..] + b;
      GrowAppend(match a[0] case Arg(w) => AddWord(t, w) case Red(d, f) => TRedir(t, f, d), a[1..], b);
    }
  }

  lemma {:induction false} GrowReds(t: Tree, reds: seq<Item>)
    requires AllReds(reds)
    ensures Grow(t, reds) == Wrap(t, reds) && WordsOf(reds) == []
    decreases |reds|
  {
    if reds != [] { GrowReds(TRedir(t, reds[0].file, reds[0].dir), reds[1..]); }
  }

  /** What the argument loop has read. */
  ghost predicate ItemsOf(s: string, c: Cmd, i: nat, r: Result, items: seq<Item>)
    requires i <= |s|
  {
    r.Ok? && 0 <= r.pos <= |s| && Toks(s, i) == ItemToks(items) + Toks(s, r.pos)
    && Words(s, r.cmd) == Grow(Words(s, c), items)
  }

  /** A redirection list, read by parseredirs, in front of more items. */
  lemma ItemsJoin(s: string, c: Cmd, i: nat, d: Cmd, j: nat, r: Result, reds: seq<Item>, more: seq<Item>)
    requires i <= |s| && j <= |s| && ItemsOf(s, c, i, Ok(d, j), reds) && ItemsOf(s, d, j, r, more)
    ensures ItemsOf(s, c, i, r, reds + more)
  {
    hide Toks, Words, Grow, ItemToks;
    ItemsAppend(reds, more);
    GrowAppend(Words(s, c), reds, more);
  }

  lemma {:induction false} ArgumentsRead(s: string, c: Cmd, i: nat) returns (items: seq<Item>)
    requires i <= |s| && Sound(s, c) && OverExec(c) && Args(c) < MAXARGS && Arguments(s, c, i).Ok?
    ensures ItemsOf(s, c, i, Arguments(s, c, i), items) && Ends(Toks(s, Arguments(s, c, i).pos))
    ensures Args(c) + |WordsOf(items)| < MAXARGS
    decreases |s| - i, 1
  {
    hide GetToken, Toks, SkipSpace, Text, Ends, Starts, Redirs, Sound, Peek, Words, Grow;
    var t := GetToken(s, i);
    if Peek(s, i, {'|', ')', '&', ';'}) {
      items := [];
      Skipped(s, i);
      PeekEnds(s, i);
      NothingRead(s, c, i, Toks(s, i));
    } else if t.kind == '\0' {
      items := [];
      TokenEnd(s, i);
      NothingRead(s, c, i, []);
    } else {
      items := ArgumentRead(s, c, i);
    }
  }

  lemma NothingRead(s: string, c: Cmd, i: nat, toks: seq<Tok>)
    requires i <= |s| && Toks(s, i) == toks
    ensures Toks(s, i) == ItemToks([]) + toks && Words(s, c) == Grow(Words(s, c), []) && WordsOf([]) == []
  {}

  lemma PeekEnds(s: string, i: nat)
    requires i <= |s| && Peek(s, i, {'|', ')', '&', ';'})
    ensures Ends(Toks(s, i))
  {
    Peeked(s, i, {'|', ')', '&', ';'});
    LeadEnds(s, i);
  }

  lemma LeadEnds(s: string, i: nat)
    requires i <= |s| && Starts(Toks(s, i), {'|', ')', '&', ';'})
    ensures Ends(Toks(s, i))
  {}

  lemma TokenEnd(s: string, i: nat)
    requires i <= |s| && GetToken(s, i).kind == '\0'
    ensures Toks(s, i) == [] && Toks(s, GetToken(s, i).next) == [] && Ends([])
  {}

  /** One word, the redirections behind it, and the rest. */
  lemma {:induction false} ArgumentRead(s: string, c: Cmd, i: nat) returns (items: seq<Item>)
    requires i <= |s| && Sound(s, c) && OverExec(c) && Args(c) < MAXARGS && Arguments(s, c, i).Ok?
    requires !Peek(s, i, {'|', ')', '&', ';'}) && GetToken(s, i).kind != '\0'
    ensures ItemsOf(s, c, i, Arguments(s, c, i), items) && Ends(Toks(s, Arguments(s, c, i).pos))
    ensures Args(c) + |WordsOf(items)| < MAXARGS
    decreases |s| - i, 0
  {
    hide GetToken, Toks, SkipSpace, Ends, Starts, Redirs, Sound, Peek, Words, Grow, RangeOk;
    var t := GetToken(s, i);
    var d := AddArg(c, t.range);
    var w := Text(s, t.range);
    AddArgSound(s, c, t.range);
    AddArgWords(s, c, t.range);
    RedirsArgs(s, d, t.next);
    var e := Redirs(s, d, t.next);
    var reds := RedirsRead(s, d, t.next);
    GrowReds(Words(s, d), reds);
    var more := ArgumentsRead(s, e.cmd, e.pos);
    NonEmpty(s, i);
    Taken(s, i);
    OneArg(Words(s, c), w);
    assert ItemsOf(s, c, i, Ok(d, t.next), [Arg(w)]);
    ItemsJoin(s, d, t.next, e.cmd, e.pos, Arguments(s, c, i), reds, more);
    ItemsJoin(s, c, i, d, t.next, Arguments(s, c, i), [Arg(w)], reds + more);
    ItemsAppend(reds, more);
    ItemsAppend([Arg(w)], reds + more);
    items := [Arg(w)] + (reds + more);
  }

  lemma OneArg(t: Tree, w: string)
    ensures ItemToks([Arg(w)]) == [W(w)] && WordsOf([Arg(w)]) == [w] && Grow(t, [Arg(w)]) == AddWord(t, w)
  {}

  lemma {:induction false} StageRead(s: string, i: nat) returns (k: Stage)
    requires i <= |s| && Command(s, i).Ok?
    ensures var r := Command(s, i);
            && StageOk(k) && Words(s, r.cmd) == StageTree(k) && Toks(s, i) == StageToks(k) + Toks(s, r.pos)
    decreases |s| - i, 1
  {
    hide GetToken, Toks, Peek, Line, Redirs, Arguments, Words, ItemToks, Wrap, Grow, ScriptTree, ScriptToks;
    if Peek(s, i, {'('}) {
      k := GroupRead(s, i);
    } else {
      k := SimpleRead(s, i);
    }
  }

  lemma SimpleRead(s: string, i: nat) returns (k: Stage)
    requires i <= |s| && Command(s, i).Ok? && !Peek(s, i, {'('})
    ensures var r := Command(s, i);
            && StageOk(k) && Words(s, r.cmd) == StageTree(k) && Toks(s, i) == StageToks(k) + Toks(s, r.pos)
  {
    hide GetToken, Toks, Peek, Redirs, Arguments, Wrap, Grow, ItemToks, WordsOf;
    RedirsArgs(s, Exec([]), i);
    var e := Redirs(s, Exec([]), i);
    var reds := RedirsRead(s, Exec([]), i);
    var more := ArgumentsRead(s, e.cmd, e.pos);
    GrowReds(Words(s, Exec([])), reds);
    ItemsAppend(reds, more);
    ItemsJoin(s, Exec([]), i, e.cmd, e.pos, Command(s, i), reds, more);
    assert ArgWords(s, []) == [];
    var items := reds + more;
    GrowIs([], [], items);
    WrapNil(TExec([]));
    assert [] + items == items && [] + WordsOf(items) == WordsOf(items);
    k := Simple(items);
  }

  lemma {:induction false} GroupRead(s: string, i: nat) returns (k: Stage)
    requires i <= |s| && Command(s, i).Ok? && Peek(s, i, {'('})
    ensures var r := Command(s, i);
            && StageOk(k) && Words(s, r.cmd) == StageTree(k) && Toks(s, i) == StageToks(k) + Toks(s, r.pos)
    decreases |s| - i, 0
  {
    hide GetToken, Toks, Peek, Line, Redirs, Words, ItemToks, Wrap, ScriptTree, ScriptToks, ScriptOk;
    PeekMoves(s, i, {'('});
    SymbolRead(s, i, '(');
    var m := GetToken(s, i).next;
    var l := ScriptRead(s, m);
    var j := Line(s, m).pos;
    SymbolRead(s, j, ')');
    var n := GetToken(s, j).next;
    var reds := RedirsRead(s, Line(s, m).cmd, n);
    k := Group(l, reds);
    var rest := Toks(s, Command(s, i).pos);
    var x, y := ScriptToks(l), ItemToks(reds);
    assert [S('(')] + (x + ([S(')')] + (y + rest))) == [S('(')] + x + [S(')')] + y + rest;
  }

  /** A symbol that peek has seen. */
  lemma SymbolRead(s: string, i: nat, k: char)
    requires i <= |s| && Peek(s, i, {k}) && Symbol(k) && k != '>' && k != '<'
    ensures i < GetToken(s, i).next <= |s| && Toks(s, i) == [S(k)] + Toks(s, GetToken(s, i).next)
  {
    Peeked(s, i, {k});
    Taken(s, i);
  }

  lemma {:induction false} ChainRead(s: string, i: nat) returns (p: Chain)
    requires i <= |s| && Pipeline(s, i).Ok?
    ensures var r := Pipeline(s, i);
            && ChainOk(p) && Words(s, r.cmd) == ChainTree(p) && Toks(s, i) == ChainToks(p) + Toks(s, r.pos)
    decreases |s| - i, 2
  {
    hide GetToken, Toks, Peek, Command, StageTree, StageToks, StageOk, SkipSpace;
    var k := StageRead(s, i);
    var j := Command(s, i).pos;
    if Peek(s, j, {'|'}) {
      SymbolRead(s, j, '|');
      var n := GetToken(s, j).next;
      var q := ChainRead(s, n);
      p := Bar(k, q);
      var x, y, z := StageToks(k), ChainToks(q), Toks(s, Pipeline(s, i).pos);
      assert x + ([S('|')] + (y + z)) == x + [S('|')] + y + z;
    } else {
      Skipped(s, j);
      p := Last(k);
    }
  }

  lemma {:induction false} AmpsRead(s: string, c: Cmd, i: nat) returns (n: nat)
    requires i <= |s| && Sound(s, c)
    ensures var r := Background(s, c, i);
            Words(s, r.cmd) == BackN(Words(s, c), n) && Toks(s, i) == Amps(n) + Toks(s, r.pos)
    decreases |s| - i
  {
    hide GetToken, Toks, Peek, SkipSpace;
    if Peek(s, i, {'&'}) {
      SymbolRead(s, i, '&');
      var m := AmpsRead(s, Back(c), GetToken(s, i).next);
      BackInside(Words(s, c), m);
      n := m + 1;
      assert Amps(n) == [S('&')] + Amps(m);
    } else {
      Skipped(s, i);
      n := 0;
    }
  }

  lemma {:induction false} ScriptRead(s: string, i: nat) returns (l: Script)
    requires i <= |s| && Line(s, i).Ok?
    ensures var r := Line(s, i);
            && ScriptOk(l) && Words(s, r.cmd) == ScriptTree(l) && Toks(s, i) == ScriptToks(l) + Toks(s, r.pos)
    decreases |s| - i, 3
  {
    hide GetToken, Toks, Peek, Pipeline, Background, ChainTree, ChainToks, ChainOk, SkipSpace, Amps, BackN;
    var p := ChainRead(s, i);
    var c := Pipeline(s, i);
    var n := AmpsRead(s, c.cmd, c.pos);
    var b := Background(s, c.cmd, c.pos);
    var x, y, z := ChainToks(p), Amps(n), Toks(s, Line(s, i).pos);
    if Peek(s, b.pos, {';'}) {
      SymbolRead(s, b.pos, ';');
      var m := ScriptRead(s, GetToken(s, b.pos).next);
      l := Semi(p, n, m);
      assert x + (y + ([S(';')] + (ScriptToks(m) + z))) == x + y + [S(';')] + ScriptToks(m) + z;
    } else {
      Skipped(s, b.pos);
      l := Final(p, n);
      assert x + (y + z) == x + y + z;
    }
  }

  /** A line whose tokens are those of l parses, to the tree of l. */
  lemma LineParses(s: string, l: Script)
    requires ScriptOk(l) && Toks(s, 0) == ScriptToks(l)
    ensures Parse(s).Ok? && Words(s, Parse(s).cmd) == ScriptTree(l)
  {
    hide Toks, Line, SkipSpace;
    assert Toks(s, 0) == ScriptToks(l) + [];
    ScriptParse(s, 0, l, []);
    Ended(s, Line(s, 0).pos);
  }

  /** The parser accepts exactly the lines of the grammar. */
  lemma AcceptsExactly(s: string)
    ensures Parse(s).Ok? <==> exists l :: ScriptOk(l) && Toks(s, 0) == ScriptToks(l)
    ensures Parse(s).Ok? ==>
              exists l :: ScriptOk(l) && Toks(s, 0) == ScriptToks(l) && Words(s, Parse(s).cmd) == ScriptTree(l)
  {
    hide Toks, Line, SkipSpace, ScriptOk, ScriptToks, ScriptTree, Words;
    if Parse(s).Ok? {
      var l := ScriptRead(s, 0);
      Ended(s, Line(s, 0).pos);
      assert Toks(s, 0) == ScriptToks(l);
    } else if l :| ScriptOk(l) && Toks(s, 0) == ScriptToks(l) {
      LineParses(s, l);
    }
  }
}
