/**
  Promises of the shell's parser: a line written with any spacing parses to the tree of its
  grammar, every tree can be written, and after nulterminate each argument and file name is
  the C string of its own token.
 */
module ShellRoundTrip {
  import opened ShellGrammar
  import opened ShellParser
  import opened ShellSyntax

  // ---------------------------------------------------------------------------------
  // Writing tokens down
  // ---------------------------------------------------------------------------------

  const WHITE: set<char> := {' ', '\t', '\r', '\n', '\U{0b}'}
  const SYMBOLS: set<char> := {'<', '|', '>', '&', ';', '(', ')'}

  predicate White(g: string) { forall k :: 0 <= k < |g| ==> g[k] in WHITE }

  predicate Word(w: string) { w != "" && forall k :: 0 <= k < |w| ==> w[k] !in WHITE && w[k] !in SYMBOLS }

  predicate TokGood(k: Tok) { match k case W(w) => Word(w) case S(c) => c in SYMBOLS || c == '+' }

  function TokText(k: Tok): (r: string) { match k case W(w) => w case S(c) => if c == '+' then ">>" else [c] }

  /** Two tokens that need something between them: two words, or ">" before another. */
  predicate Touch(a: Tok, b: Tok) { (a.W? && b.W?) || (a == S('>') && b.S? && Lead(b) == '>') }

  /** White space in front of each token and at the end, none of it needed but between tokens that touch. */
  predicate GapsOk(toks: seq<Tok>, gaps: seq<string>) {
    && |gaps| == |toks| + 1 && White(gaps[0])
    && (toks != [] ==>
          && TokGood(toks[0]) && (|toks| > 1 && Touch(toks[0], toks[1]) ==> gaps[1] != "")
          && GapsOk(toks[1..], gaps[1..]))
  }

  function Written(toks: seq<Tok>, gaps: seq<string>): (r: string)
    requires |gaps| == |toks| + 1
  {
    if toks == [] then gaps[0] else gaps[0] + (TokText(toks[0]) + Written(toks[1..], gaps[1..]))
  }

  lemma Classes(c: char)
    ensures Space(c) <==> c in WHITE
    ensures Symbol(c) <==> c in SYMBOLS
    ensures WordChar(c) <==> c !in WHITE && c !in SYMBOLS
  {}

  lemma {:induction false} SkipsGap(s: string, i: nat, j: nat)
    requires i <= j <= |s| && (forall k :: i <= k < j ==> Space(s[k])) && (j < |s| ==> !Space(s[j]))
    ensures SkipSpace(s, i) == j
    decreases j - i
  {
    if i < j { SkipsGap(s, i + 1, j); }
  }

  lemma {:induction false} SkipsWord(s: string, i: nat, j: nat)
    requires i <= j <= |s| && (forall k :: i <= k < j ==> WordChar(s[k])) && (j < |s| ==> !WordChar(s[j]))
    ensures SkipWord(s, i) == j
    decreases j - i
  {
    if i < j { SkipsWord(s, i + 1, j); }
  }

  /** What a token may not be followed by. */
  predicate Apart(k: Tok, s: string, e: nat) {
    e < |s| ==> (k.W? ==> !WordChar(s[e])) && (k == S('>') ==> s[e] != '>')
  }

  /** gettoken on a token that stands at j. */
  lemma TokenAt(s: string, i: nat, j: nat, e: nat, k: Tok)
    requires i <= j <= e <= |s| && SkipSpace(s, i) == j && s[j..e] == TokText(k) && TokGood(k) && Apart(k, s, e)
    ensures var t := GetToken(s, i); t.kind != '\0' && TokOf(s, t) == k && t.next == SkipSpace(s, e)
  {
    if k.W? { WordTokenAt(s, i, j, e, k.text); } else { SymbolTokenAt(s, i, j, e, k.kind); }
  }

  lemma WordTokenAt(s: string, i: nat, j: nat, e: nat, w: string)
    requires i <= j <= e <= |s| && SkipSpace(s, i) == j && s[j..e] == w && Word(w) && (e < |s| ==> !WordChar(s[e]))
    ensures GetToken(s, i) == Token('a', Range(j, e), SkipSpace(s, e))
  {
    hide WordChar, SkipSpace, SkipWord;
    forall n | j <= n < e ensures WordChar(s[n]) {
      assert s[n] == w[n - j];
      Classes(s[n]);
    }
    SkipsWord(s, j + 1, e);
    WordIsNot(s[j]);
  }

  lemma WordIsNot(c: char)
    requires WordChar(c)
    ensures !Space(c) && !Symbol(c) && c != '>'
  {}

  lemma SymbolTokenAt(s: string, i: nat, j: nat, e: nat, c: char)
    requires i <= j <= e <= |s| && SkipSpace(s, i) == j && s[j..e] == TokText(S(c)) && TokGood(S(c))
    requires c == '>' && e < |s| ==> s[e] != '>'
    ensures GetToken(s, i) == Token(c, Range(j, e), SkipSpace(s, e))
  {
    hide SkipSpace, SkipWord;
    var w := TokText(S(c));
    assert s[j] == s[j..e][0] == w[0];
    if c == '+' { assert s[j + 1] == s[j..e][1] == w[1]; }
    Classes(s[j]);
  }

  lemma GoodLead(k: Tok)
    requires TokGood(k)
    ensures TokText(k) != "" && TokText(k)[0] == Lead(k) && !Space(Lead(k)) && (k.S? ==> !WordChar(Lead(k)))
    ensures Lead(k) == '>' ==> k.S?
  {
    Classes(Lead(k));
  }

  /** The character that a written rest begins with does not belong to the token before. */
  lemma NextApart(s: string, e: nat, k: Tok, toks: seq<Tok>, gaps: seq<string>)
    requires e <= |s| && GapsOk(toks, gaps) && s[e..] == Written(toks, gaps) && TokGood(k)
    requires toks != [] && Touch(k, toks[0]) ==> gaps[0] != ""
    ensures Apart(k, s, e)
  {
    if e < |s| {
      var r := Written(toks, gaps);
      assert s[e] == s[e..][0] == r[0];
      Classes(s[e]);
      if gaps[0] != "" {
        assert r[0] == gaps[0][0];
      } else {
        GoodLead(toks[0]);
        assert r[0] == TokText(toks[0])[0];
      }
    }
  }

  /** The white space before a written rest. */
  lemma GapSkipped(s: string, i: nat, toks: seq<Tok>, gaps: seq<string>)
    requires i <= |s| && GapsOk(toks, gaps) && s[i..] == Written(toks, gaps)
    ensures i + |gaps[0]| <= |s| && SkipSpace(s, i) == i + |gaps[0]|
    ensures s[i + |gaps[0]|..] == if toks == [] then "" else TokText(toks[0]) + Written(toks[1..], gaps[1..])
  {
    var r, j := Written(toks, gaps), i + |gaps[0]|;
    assert s[j..] == s[i..][|gaps[0]|..];
    forall k | i <= k < j ensures Space(s[k]) {
      assert s[k] == s[i..][k - i] == gaps[0][k - i];
      Classes(s[k]);
    }
    if toks != [] {
      GoodLead(toks[0]);
      assert s[j] == s[j..][0] == TokText(toks[0])[0];
    }
    SkipsGap(s, i, j);
  }

  lemma Slices(s: string, j: nat, a: string, b: string)
    requires j <= |s| && s[j..] == a + b
    ensures j + |a| <= |s| && s[j..j + |a|] == a && s[j + |a|..] == b
  {
    assert s[j..j + |a|] == s[j..][..|a|];
    assert s[j + |a|..] == s[j..][|a|..];
  }

  /** However tokens are spaced, the line has just those tokens. */
  lemma {:induction false} LexWritten(s: string, i: nat, toks: seq<Tok>, gaps: seq<string>)
    requires i <= |s| && GapsOk(toks, gaps) && s[i..] == Written(toks, gaps)
    ensures Toks(s, i) == toks
    decreases |toks|
  {
    hide GetToken, SkipSpace, TokGood, Apart, Touch, TokText, Written;
    GapSkipped(s, i, toks, gaps);
    var j := i + |gaps[0]|;
    if toks == [] {
      Ended(s, i);
    } else {
      var k := toks[0];
      var e := j + |TokText(k)|;
      Slices(s, j, TokText(k), Written(toks[1..], gaps[1..]));
      NextApart(s, e, k, toks[1..], gaps[1..]);
      TokenAt(s, i, j, e, k);
      LexWritten(s, e, toks[1..], gaps[1..]);
      Skipped(s, e);
    }
  }

  lemma GapCount(toks: seq<Tok>, gaps: seq<string>)
    requires GapsOk(toks, gaps)
    ensures |gaps| == |toks| + 1
  {}

  /** A line of the grammar, written with any spacing, parses to its tree. */
  lemma WrittenParses(l: Script, gaps: seq<string>)
    requires ScriptOk(l) && GapsOk(ScriptToks(l), gaps)
    ensures var s := Written(ScriptToks(l), gaps); Parse(s).Ok? && Words(s, Parse(s).cmd) == ScriptTree(l)
  {
    GapCount(ScriptToks(l), gaps);
    hide GapsOk, Written, Parse, ScriptToks, ScriptOk, ScriptTree;
    var s := Written(ScriptToks(l), gaps);
    assert s[0..] == s;
    LexWritten(s, 0, ScriptToks(l), gaps);
    LineParses(s, l);
  }

  /** White space is of no account: other spacing of the same tokens, the same outcome. */
  lemma AnySpacing(toks: seq<Tok>, gaps: seq<string>, gaps': seq<string>)
    requires GapsOk(toks, gaps) && GapsOk(toks, gaps')
    ensures var s, s' := Written(toks, gaps), Written(toks, gaps');
            && (Parse(s).Ok? <==> Parse(s').Ok?)
            && (Parse(s).Ok? ==> Words(s, Parse(s).cmd) == Words(s', Parse(s').cmd))
  {
    GapCount(toks, gaps);
    GapCount(toks, gaps');
    hide GapsOk, Written, Parse, ScriptToks, ScriptOk, ScriptTree, Words;
    var s, s' := Written(toks, gaps), Written(toks, gaps');
    assert s[0..] == s && s'[0..] == s';
    LexWritten(s, 0, toks, gaps);
    LexWritten(s', 0, toks, gaps');
    AcceptsExactly(s);
    AcceptsExactly(s');
    if Parse(s).Ok? {
      var l :| ScriptOk(l) && Toks(s, 0) == ScriptToks(l) && Words(s, Parse(s).cmd) == ScriptTree(l);
      LineParses(s', l);
    }
  }

  // ---------------------------------------------------------------------------------
  // Every tree can be written
  // ---------------------------------------------------------------------------------

  /** At most nine arguments per command, and every name is a word. */
  predicate Writable(t: Tree) {
    match t
    case TExec(args) => |args| < MAXARGS && forall k :: 0 <= k < |args| ==> Word(args[k])
    case TRedir(u, f, _) => Writable(u) && Word(f)
    case TPipe(l, r) => Writable(l) && Writable(r)
    case TList(l, r) => Writable(l) && Writable(r)
    case TBack(u) => Writable(u)
  }

  function ArgItems(args: seq<string>): (r: seq<Item>) {
    if args == [] then [] else [Arg(args[0])] + ArgItems(args[1..])
  }

  /** t with each part in parentheses. */
  function Paren(t: Tree): (l: Script) {
    match t
    case TExec(args) => Final(Last(Simple(ArgItems(args))), 0)
    case TRedir(u, f, d) => Final(Last(Group(Paren(u), [Red(d, f)])), 0)
    case TPipe(l, r) => Final(Bar(Group(Paren(l), []), Last(Group(Paren(r), []))), 0)
    case TList(l, r) => Semi(Last(Group(Paren(l), [])), 0, Final(Last(Group(Paren(r), [])), 0))
    case TBack(u) => Final(Last(Group(Paren(u), [])), 1)
  }

  lemma {:induction false} ArgsTree(t: Tree, args: seq<string>)
    ensures WordsOf(ArgItems(args)) == args && Wrap(t, ArgItems(args)) == t
    decreases |args|
  {
    if args != [] {
      assert ArgItems(args)[1..] == ArgItems(args[1..]);
      ArgsTree(t, args[1..]);
    }
  }

  lemma OneRed(t: Tree, d: Dir, f: string)
    ensures Wrap(t, [Red(d, f)]) == TRedir(t, f, d)
  {
    WrapNil(TRedir(t, f, d));
    assert [Red(d, f)][1..] == [];
  }

  lemma GroupTree(l: Script, reds: seq<Item>)
    requires ScriptOk(l) && AllReds(reds)
    ensures StageOk(Group(l, reds)) && StageTree(Group(l, reds)) == Wrap(ScriptTree(l), reds)
    ensures Wrap(ScriptTree(l), []) == ScriptTree(l)
  {
    WrapNil(ScriptTree(l));
  }

  lemma OneChain(p: Chain, n: nat)
    requires ChainOk(p)
    ensures ScriptOk(Final(p, n)) && ScriptTree(Final(p, n)) == BackN(ChainTree(p), n)
    ensures BackN(ChainTree(p), 0) == ChainTree(p) && BackN(ChainTree(p), 1) == TBack(ChainTree(p))
  {
    assert BackN(ChainTree(p), 1) == TBack(BackN(ChainTree(p), 0));
  }

  lemma OneStage(k: Stage)
    requires StageOk(k)
    ensures ChainOk(Last(k)) && ChainTree(Last(k)) == StageTree(k)
  {}

  lemma {:induction false} ParenTree(t: Tree)
    requires Writable(t)
    ensures ScriptOk(Paren(t)) && ScriptTree(Paren(t)) == t
  {
    hide Wrap, BackN, StageTree, Word;
    match t
    case TExec(args) =>
      ArgsTree(TExec(args), args);
      SimpleTree(ArgItems(args));
      OneStage(Simple(ArgItems(args)));
      OneChain(Last(Simple(ArgItems(args))), 0);
    case TRedir(u, f, d) =>
      ParenTree(u);
      GroupTree(Paren(u), [Red(d, f)]);
      OneRed(u, d, f);
      OneStage(Group(Paren(u), [Red(d, f)]));
      OneChain(Last(Group(Paren(u), [Red(d, f)])), 0);
    case TPipe(l, r) =>
      ParenTree(l);
      ParenTree(r);
      GroupTree(Paren(l), []);
      GroupTree(Paren(r), []);
      OneStage(Group(Paren(r), []));
      OneChain(Bar(Group(Paren(l), []), Last(Group(Paren(r), []))), 0);
    case TList(l, r) =>
      ParenTree(l);
      ParenTree(r);
      GroupTree(Paren(l), []);
      GroupTree(Paren(r), []);
      OneStage(Group(Paren(l), []));
      OneStage(Group(Paren(r), []));
      OneChain(Last(Group(Paren(l), [])), 0);
      OneChain(Last(Group(Paren(r), [])), 0);
    case TBack(u) =>
      ParenTree(u);
      GroupTree(Paren(u), []);
      OneStage(Group(Paren(u), []));
      OneChain(Last(Group(Paren(u), [])), 1);
  }

  lemma SimpleTree(items: seq<Item>)
    requires |WordsOf(items)| < MAXARGS
    ensures StageOk(Simple(items)) && StageTree(Simple(items)) == Wrap(TExec(WordsOf(items)), items)
  {}

  predicate AllGood(toks: seq<Tok>) { forall k :: 0 <= k < |toks| ==> TokGood(toks[k]) }

  lemma {:induction false} ItemsGood(items: seq<Item>)
    requires forall k :: 0 <= k < |items| ==> match items[k] case Arg(w) => Word(w) case Red(_, f) => Word(f)
    ensures AllGood(ItemToks(items))
    decreases |items|
  {
    hide Word;
    if items != [] { ItemsGood(items[1..]); }
  }

  lemma {:induction false} ArgsAreWords(args: seq<string>)
    requires forall k :: 0 <= k < |args| ==> Word(args[k])
    ensures |ArgItems(args)| == |args| && forall k :: 0 <= k < |args| ==> ArgItems(args)[k] == Arg(args[k])
    decreases |args|
  {
    hide Word;
    if args != [] { ArgsAreWords(args[1..]); }
  }

  lemma SimpleToks(items: seq<Item>)
    ensures StageToks(Simple(items)) == ItemToks(items)
  {}

  lemma GroupGood(l: Script, reds: seq<Item>)
    requires AllGood(ScriptToks(l)) && AllGood(ItemToks(reds))
    ensures AllGood(StageToks(Group(l, reds)))
  {
    hide Word, ScriptToks, ItemToks;
  }

  lemma BarGood(a: Stage, b: Stage)
    requires AllGood(StageToks(a)) && AllGood(StageToks(b))
    ensures AllGood(ScriptToks(Final(Bar(a, Last(b)), 0)))
  {
    hide TokGood, StageToks;
    assert TokGood(S('|')) by { SymbolGood('|'); }
    assert ChainToks(Last(b)) == StageToks(b);
    assert ScriptToks(Final(Bar(a, Last(b)), 0)) == ChainToks(Bar(a, Last(b))) + Amps(0);
  }

  lemma OneGood(a: Stage, n: nat)
    requires AllGood(StageToks(a))
    ensures AllGood(ScriptToks(Final(Last(a), n)))
  {
    hide TokGood, StageToks;
    assert TokGood(S('&')) by { SymbolGood('&'); }
    assert ScriptToks(Final(Last(a), n)) == ChainToks(Last(a)) + Amps(n);
  }

  lemma SemiGood(a: Stage, l: Script)
    requires AllGood(StageToks(a)) && AllGood(ScriptToks(l))
    ensures AllGood(ScriptToks(Semi(Last(a), 0, l)))
  {
    hide TokGood, StageToks;
    assert TokGood(S(';')) by { SymbolGood(';'); }
    assert ScriptToks(Semi(Last(a), 0, l)) == ChainToks(Last(a)) + Amps(0) + [S(';')] + ScriptToks(l);
  }

  lemma SymbolGood(c: char)
    requires c in SYMBOLS
    ensures TokGood(S(c))
  {}

  lemma {:induction false} ParenGood(t: Tree)
    requires Writable(t)
    ensures AllGood(ScriptToks(Paren(t)))
  {
    hide Word, StageToks, ScriptToks, TokGood, ItemToks;
    match t
    case TExec(args) =>
      SimpleToks(ArgItems(args));
      ArgsAreWords(args);
      ItemsGood(ArgItems(args));
      OneGood(Simple(ArgItems(args)), 0);
    case TRedir(u, f, d) =>
      ParenGood(u);
      ItemsGood([Red(d, f)]);
      GroupGood(Paren(u), [Red(d, f)]);
      OneGood(Group(Paren(u), [Red(d, f)]), 0);
    case TPipe(l, r) =>
      ParenGood(l);
      ParenGood(r);
      ItemsGood([]);
      GroupGood(Paren(l), []);
      GroupGood(Paren(r), []);
      BarGood(Group(Paren(l), []), Group(Paren(r), []));
    case TList(l, r) =>
      ParenGood(l);
      ParenGood(r);
      ItemsGood([]);
      GroupGood(Paren(l), []);
      GroupGood(Paren(r), []);
      OneGood(Group(Paren(r), []), 0);
      SemiGood(Group(Paren(l), []), Final(Last(Group(Paren(r), [])), 0));
    case TBack(u) =>
      ParenGood(u);
      ItemsGood([]);
      GroupGood(Paren(u), []);
      OneGood(Group(Paren(u), []), 1);
  }

  /** One space in front of each token and at the end. */
  function Spaces(n: nat): (gaps: seq<string>) { seq(n + 1, _ => " ") }

  lemma {:induction false} SpacesOk(toks: seq<Tok>)
    requires AllGood(toks)
    ensures GapsOk(toks, Spaces(|toks|))
    decreases |toks|
  {
    hide TokGood;
    if toks != [] {
      SpacesOk(toks[1..]);
      assert Spaces(|toks|)[1..] == Spaces(|toks| - 1);
    }
  }

  function Render(t: Tree): (r: string) { Written(ScriptToks(Paren(t)), Spaces(|ScriptToks(Paren(t))|)) }

  /** Parsing undoes rendering. */
  lemma RoundTrip(t: Tree)
    requires Writable(t)
    ensures Parse(Render(t)).Ok? && Words(Render(t), Parse(Render(t)).cmd) == t
  {
    hide Parse, Words, Written, GapsOk, AllGood, ScriptToks, ScriptOk, ScriptTree, Paren, Writable, Spaces;
    ParenTree(t);
    ParenGood(t);
    SpacesOk(ScriptToks(Paren(t)));
    WrittenParses(Paren(t), Spaces(|ScriptToks(Paren(t))|));
  }

  // ---------------------------------------------------------------------------------
  // nulterminate
  // ---------------------------------------------------------------------------------

  /** The tokens of a tree. */
  function Tokens(c: Cmd): (r: set<Range>) {
    match c
    case Exec(argv) => set k | 0 <= k < |argv| :: argv[k]
    case Redir(d, f, _) => Tokens(d) + {f}
    case Pipe(l, r) => Tokens(l) + Tokens(r)
    case List(l, r) => Tokens(l) + Tokens(r)
    case Back(d) => Tokens(d)
  }

  ghost predicate EndsAt(c: Cmd, i: int) { exists r :: r in Tokens(c) && r.eq == i }

  /** The C string at q. */
  function CString(b: seq<char>, q: nat): (r: string)
    decreases |b| - q
  {
    if q >= |b| || b[q] == '\0' then "" else [b[q]] + CString(b, q + 1)
  }

  lemma {:induction false} SoundTokens(s: string, c: Cmd, r: Range)
    requires Sound(s, c) && r in Tokens(c)
    ensures RangeOk(s, r)
  {
    match c
    case Exec(argv) =>
    case Redir(d, f, _) => if r in Tokens(d) { SoundTokens(s, d, r); }
    case Pipe(x, y) => if r in Tokens(x) { SoundTokens(s, x, r); } else { SoundTokens(s, y, r); }
    case List(x, y) => if r in Tokens(x) { SoundTokens(s, x, r); } else { SoundTokens(s, y, r); }
    case Back(d) => SoundTokens(s, d, r);
  }

  /** nulterminate(): a terminator behind every token, and no other change. */
  method NulTerminate(buf: array<char>, c: Cmd, ghost s: string)
    requires buf.Length == |s| + 1 && Sound(s, c)
    modifies buf
    ensures forall i :: 0 <= i < buf.Length ==> buf[i] == if EndsAt(c, i) then '\0' else old(buf[i])
    decreases c
  {
    match c
    case Exec(argv) =>
      for k := 0 to |argv|
        invariant forall i :: 0 <= i < buf.Length ==>
          buf[i] == if EndsAt(Exec(argv[..k]), i) then '\0' else old(buf[i])
      {
        assert argv[k] in Tokens(c);
        EndsSnoc(argv[..k], argv[k]);
        assert argv[..k] + [argv[k]] == argv[..k + 1];
        buf[argv[k].eq] := '\0';
      }
      assert argv[..|argv|] == argv;
    case Redir(d, f, _) =>
      NulTerminate(buf, d, s);
      buf[f.eq] := '\0';
      EndsRedir(c);
    case Pipe(l, r) =>
      NulTerminate(buf, l, s);
      NulTerminate(buf, r, s);
      EndsPair(c);
    case List(l, r) =>
      NulTerminate(buf, l, s);
      NulTerminate(buf, r, s);
      EndsPair(c);
    case Back(d) =>
      NulTerminate(buf, d, s);
  }

  lemma EndsSnoc(argv: seq<Range>, r: Range)
    ensures forall i :: EndsAt(Exec(argv + [r]), i) <==> EndsAt(Exec(argv), i) || i == r.eq
  {
    var a, b := Exec(argv), Exec(argv + [r]);
    assert b.argv[|argv|] == r;
    assert Tokens(b) == Tokens(a) + {r} by {
      forall x ensures x in Tokens(b) <==> x in Tokens(a) + {r} {
        if x in Tokens(a) {
          var k :| 0 <= k < |argv| && argv[k] == x;
          assert b.argv[k] == x;
        }
      }
    }
    EndsUnion(Tokens(a), {r}, a, b);
  }

  lemma EndsUnion(x: set<Range>, y: set<Range>, a: Cmd, b: Cmd)
    requires Tokens(a) == x && Tokens(b) == x + y
    ensures forall i :: EndsAt(b, i) <==> EndsAt(a, i) || exists r :: r in y && r.eq == i
  {
    forall i ensures EndsAt(b, i) <==> EndsAt(a, i) || exists r :: r in y && r.eq == i {
      if EndsAt(b, i) {
        var r :| r in Tokens(b) && r.eq == i;
        assert r in x || r in y;
      }
      if r :| r in y && r.eq == i { assert r in Tokens(b); }
      if EndsAt(a, i) {
        var r :| r in Tokens(a) && r.eq == i;
        assert r in Tokens(b);
      }
    }
  }

  lemma EndsRedir(c: Cmd)
    requires c.Redir?
    ensures forall i :: EndsAt(c, i) <==> EndsAt(c.cmd, i) || i == c.file.eq
  {
    EndsUnion(Tokens(c.cmd), {c.file}, c.cmd, c);
    assert c.file in {c.file};
  }

  lemma EndsPair(c: Cmd)
    requires c.Pipe? || c.List?
    ensures forall i :: EndsAt(c, i) <==> EndsAt(c.left, i) || EndsAt(c.right, i)
  {
    EndsUnion(Tokens(c.left), Tokens(c.right), c.left, c);
  }

  /** A terminator stands where a word ends, never inside one. */
  lemma EndsOutside(s: string, c: Cmd, r: Range, i: int)
    requires Sound(s, c) && RangeOk(s, r) && r.q <= i < r.eq
    ensures !EndsAt(c, i)
  {
    hide Sound;
    if EndsAt(c, i) {
      var e :| e in Tokens(c) && e.eq == i;
      SoundTokens(s, c, e);
      assert false;
    }
  }

  /** No terminator lands inside a token: every token reads back as its own text. */
  lemma TokenReadsBack(s: string, c: Cmd, b: seq<char>, r: Range)
    requires Sound(s, c) && '\0' !in s && |b| == |s| + 1 && r in Tokens(c)
    requires forall i :: 0 <= i < |b| ==> b[i] == if EndsAt(c, i) then '\0' else (s + ['\0'])[i]
    ensures RangeOk(s, r) && CString(b, r.q) == s[r.q..r.eq]
  {
    hide Sound, Tokens, CString;
    SoundTokens(s, c, r);
    forall i | r.q <= i < r.eq ensures b[i] == s[i] && s[i] != '\0' { EndsOutside(s, c, r, i); }
    assert EndsAt(c, r.eq);
    CStringIs(b, r.q, s[r.q..r.eq]);
  }

  lemma {:induction false} CStringIs(b: seq<char>, q: nat, w: string)
    requires q + |w| < |b| && b[q + |w|] == '\0' && forall k :: 0 <= k < |w| ==> b[q + k] == w[k] && w[k] != '\0'
    ensures CString(b, q) == w
    decreases |w|
  {
    if w != "" {
      assert b[q + 0] == w[0];
      forall k | 0 <= k < |w[1..]| ensures b[q + 1 + k] == w[1..][k] && w[1..][k] != '\0' {
        assert b[q + (k + 1)] == w[k + 1];
      }
      CStringIs(b, q + 1, w[1..]);
    }
  }

  /** parsecmd() on a NUL-terminated line: the tree, and every token of it a C string in the buffer. */
  method ParseCommand(buf: array<char>, line: string) returns (r: Result)
    requires buf.Length == |line| + 1 && buf[..] == line + ['\0'] && '\0' !in line
    modifies buf
    ensures r == Parse(line)
    ensures r.Ok? ==> forall t :: t in Tokens(r.cmd) ==> RangeOk(line, t) && CString(buf[..], t.q) == line[t.q..t.eq]
  {
    hide Parse, Sound, CString;
    var p := new Parser(line);
    r := p.ParseCmd();
    if r.Ok? {
      NulTerminate(buf, r.cmd, line);
      forall t | t in Tokens(r.cmd) ensures RangeOk(line, t) && CString(buf[..], t.q) == line[t.q..t.eq] {
        TokenReadsBack(line, r.cmd, buf[..], t);
      }
    }
  }
}
