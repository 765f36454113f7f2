/**
  The matcher of user/grep.c (^ . * $), against a declarative meaning of patterns. A C string
  is the sequence of its characters before the terminator; a pointer into it is a suffix or an
  index.
 */
module Grep {

  // ---------------------------------------------------------------------------------
  // What a pattern means
  // ---------------------------------------------------------------------------------

  datatype Atom = Any | Lit(c: char)
  datatype Item = One(atom: Atom) | Star(atom: Atom) | End

  predicate Accepts(a: Atom, c: char) { a.Any? || a.c == c }

  /** The item accounts for text[i..j]. */
  ghost predicate Covers(item: Item, text: string, i: int, j: int) {
    && 0 <= i <= j <= |text|
    && match item
       case One(a) => j == i + 1 && Accepts(a, text[i])
       case Star(a) => forall m :: i <= m < j ==> Accepts(a, text[m])
       case End => i == j == |text|
  }

  /** `cuts` divides some text[t..] into consecutive parts, one for each item. */
  ghost predicate Divides(items: seq<Item>, text: string, t: int, cuts: seq<int>) {
    && |cuts| == |items| + 1 && cuts[0] == t
    && (forall k :: 0 <= k < |items| ==> Covers(items[k], text, cuts[k], cuts[k + 1]))
  }

  /** The items match at position t of the text. */
  ghost predicate Holds(items: seq<Item>, text: string, t: int) {
    0 <= t <= |text| && exists cuts :: Divides(items, text, t, cuts)
  }

  function AtomOf(c: char): (a: Atom) { if c == '.' then Any else Lit(c) }

  /** Star binds to the character before it; `$` is special only as the last character. */
  function Items(re: string): (items: seq<Item>) {
    if re == [] then []
    else if |re| > 1 && re[1] == '*' then [Star(AtomOf(re[0]))] + Items(re[2..])
    else if re == "$" then [End]
    else [One(AtomOf(re[0]))] + Items(re[1..])
  }

  /** A leading `^` ties the match to the start; otherwise it may be anywhere, the end included. */
  ghost predicate Meaning(re: string, text: string) {
    if |re| > 0 && re[0] == '^' then Holds(Items(re[1..]), text, 0)
    else exists t :: Holds(Items(re), text, t)
  }

  lemma HoldsNil(text: string, t: int)
    requires 0 <= t <= |text|
    ensures Holds([], text, t)
  {
    assert Divides([], text, t, [t]);
  }

  /** The first item covers some part, and the others match where it ends. */
  lemma HoldsCons(item: Item, rest: seq<Item>, text: string, t: int)
    requires 0 <= t <= |text|
    ensures Holds([item] + rest, text, t) <==> exists j :: Covers(item, text, t, j) && Holds(rest, text, j)
  {
    var items := [item] + rest;
    if Holds(items, text, t) {
      var cuts :| Divides(items, text, t, cuts);
      assert Covers(items[0], text, cuts[0], cuts[1]);
      forall k | 0 <= k < |rest| ensures Covers(rest[k], text, cuts[1..][k], cuts[1..][k + 1]) {
        assert items[k + 1] == rest[k] && Covers(items[k + 1], text, cuts[k + 1], cuts[k + 2]);
      }
      assert Divides(rest, text, cuts[1], cuts[1..]);
    }
    if j :| Covers(item, text, t, j) && Holds(rest, text, j) {
      var cuts :| Divides(rest, text, j, cuts);
      var all := [t] + cuts;
      forall k | 0 <= k < |items| ensures Covers(items[k], text, all[k], all[k + 1]) {
        if k > 0 { assert Covers(rest[k - 1], text, cuts[k - 1], cuts[k]); }
      }
      assert Divides(items, text, t, all);
    }
  }

  // ---------------------------------------------------------------------------------
  // The matcher
  // ---------------------------------------------------------------------------------

  method Match(re: string, text: string) returns (r: bool)
    ensures r <==> Meaning(re, text)
  {
    if |re| > 0 && re[0] == '^' {
      r := MatchHere(re[1..], text, 0);
      return;
    }
    var t := 0;
    while true
      invariant 0 <= t <= |text| && forall u :: 0 <= u < t ==> !Holds(Items(re), text, u)
      decreases |text| - t
    {
      var here := MatchHere(re, text, t);
      if here {
        return true;
      }
      if t == |text| {
        return false;
      }
      t := t + 1;
    }
  }

  /** matchhere(): the pattern suffix re at text + t. */
  method MatchHere(re: string, text: string, t: nat) returns (r: bool)
    requires t <= |text|
    ensures r <==> Holds(Items(re), text, t)
    decreases |re|, 0
  {
    hide Holds;
    if re == [] {
      HoldsNil(text, t);
      return true;
    }
    if |re| > 1 && re[1] == '*' {
      r := MatchStar(re[0], re[2..], text, t);
      return;
    }
    if re == "$" {
      HoldsCons(End, [], text, t);
      HoldsNil(text, |text|);
      assert [End] + [] == [End];
      assert t == |text| ==> Covers(End, text, t, |text|);
      return t == |text|;
    }
    HoldsCons(One(AtomOf(re[0])), Items(re[1..]), text, t);
    if t < |text| && (re[0] == '.' || re[0] == text[t]) {
      assert Covers(One(AtomOf(re[0])), text, t, t + 1);
      r := MatchHere(re[1..], text, t + 1);
      return;
    }
    r := false;
  }

  /** matchstar(): c*re at text + t. */
  method MatchStar(c: char, re: string, text: string, t: nat) returns (r: bool)
    requires t <= |text|
    ensures r <==> Holds([Star(AtomOf(c))] + Items(re), text, t)
    decreases |re|, 1
  {
    hide Holds;
    HoldsCons(Star(AtomOf(c)), Items(re), text, t);
    var u := t;
    while true
      invariant t <= u <= |text| && Covers(Star(AtomOf(c)), text, t, u)
      invariant forall j :: t <= j < u ==> !Holds(Items(re), text, j)
      decreases |text| - u
    {
      var here := MatchHere(re, text, u);
      if here {
        return true;
      }
      if u == |text| || (text[u] != c && c != '.') {
        return false;
      }
      u := u + 1;
    }
  }

  // ---------------------------------------------------------------------------------
  // grep: the lines of a stream
  // ---------------------------------------------------------------------------------

  /** The first newline of s, or |s|. */
  function Newline(s: string): (i: nat)
    ensures i <= |s| && (i < |s| ==> s[i] == '\n') && forall j :: 0 <= j < i ==> s[j] != '\n'
  {
    if s == [] || s[0] == '\n' then 0 else 1 + Newline(s[1..])
  }

  /** The line with its newline, if it matches. */
  ghost function Kept(re: string, line: string): (r: string) { if Meaning(re, line) then line + "\n" else "" }

  /** The matching complete lines of s, with their newlines. */
  ghost function Selected(re: string, s: string): (r: string)
    decreases |s|
  {
    var i := Newline(s);
    if i == |s| then "" else Kept(re, s[..i]) + Selected(re, s[i + 1..])
  }

  /** What follows the last newline. */
  function Remainder(s: string): (r: string)
    ensures |r| <= |s|
    decreases |s|
  {
    var i := Newline(s);
    if i == |s| then s else Remainder(s[i + 1..])
  }

  lemma NewlineAppend(a: string, b: string)
    requires Newline(a) < |a|
    ensures Newline(a + b) == Newline(a)
  {
    var i, j := Newline(a), Newline(a + b);
    assert (a + b)[i] == '\n';
    if j < i { assert (a + b)[j] == a[j]; }
  }

  /** The first line, then the others. */
  lemma SelectedStep(re: string, s: string, i: nat)
    requires i == Newline(s) && i < |s|
    ensures Selected(re, s) == Kept(re, s[..i]) + Selected(re, s[i + 1..])
    ensures Remainder(s) == Remainder(s[i + 1..])
  {
    hide Kept;
  }

  lemma SelectedLast(re: string, s: string)
    requires Newline(s) == |s|
    ensures Selected(re, s) == "" && Remainder(s) == s
  {}

  /** Reading on only needs the unfinished line. */
  lemma {:induction false} ReadOn(re: string, a: string, b: string)
    ensures Selected(re, a + b) == Selected(re, a) + Selected(re, Remainder(a) + b)
    ensures Remainder(a + b) == Remainder(Remainder(a) + b)
    decreases |a|
  {
    hide Selected, Remainder, Kept;
    var i := Newline(a);
    if i < |a| {
      NewlineAppend(a, b);
      SelectedStep(re, a, i);
      SelectedStep(re, a + b, i);
      assert (a + b)[..i] == a[..i] && (a + b)[i + 1..] == a[i + 1..] + b;
      ReadOn(re, a[i + 1..], b);
    } else {
      SelectedLast(re, a);
    }
  }

  /** n characters from i on without a newline. */
  predicate Unbroken(s: string, i: int, n: int) {
    0 <= i && 0 <= n && i + n <= |s| && forall k :: i <= k < i + n ==> s[k] != '\n'
  }

  lemma {:induction false} RemainderUnbroken(s: string)
    ensures Unbroken(s, |s| - |Remainder(s)|, |Remainder(s)|)
    decreases |s|
  {
    var i := Newline(s);
    if i < |s| {
      var r := s[i + 1..];
      RemainderUnbroken(r);
      forall k | |s| - |Remainder(r)| <= k < |s| ensures s[k] != '\n' { assert r[k - i - 1] != '\n'; }
    }
  }

  const BUFSIZE: nat := 1024
  const LIMIT: nat := 1023

  method Strchr(buf: array<char>, p: nat, m: nat) returns (q: nat)
    requires p <= m <= buf.Length
    ensures q == p + Newline(buf[p..m])
  {
    q := p;
    while q < m && buf[q] != '\n'
      invariant p <= q <= m && forall k :: p <= k < q ==> buf[k] != '\n'
    {
      q := q + 1;
    }
    var s := buf[p..m];
    assert forall k :: 0 <= k < q - p ==> s[k] == buf[p + k];
    assert Newline(s) >= q - p;
    assert q < m ==> s[q - p] == '\n';
  }

  lemma SplitAt(b: string, p: nat, q: nat, m: nat)
    requires p <= q < m <= |b|
    ensures b[p..m][..q - p] == b[p..q] && b[p..m][q - p + 1..] == b[q + 1..m]
  {}

  lemma SameTail(b: string, b': string, k: nat, m: nat)
    requires k <= m <= |b| == |b'| && forall i :: k <= i < |b| ==> b'[i] == b[i]
    ensures b'[k..m] == b[k..m]
  {}

  /** One line, from p to the newline at q. */
  method PrintLine(re: string, buf: array<char>, p: nat, q: nat) returns (out: string)
    requires p <= q < buf.Length && buf[q] == '\n'
    modifies buf
    ensures out == Kept(re, old(buf[p..q])) && forall k :: q < k < buf.Length ==> buf[k] == old(buf[k])
  {
    hide Meaning;
    out := "";
    buf[q] := '\0';
    assert buf[p..q] == old(buf[p..q]);
    var hit := Match(re, buf[p..q]);
    if hit {
      buf[q] := '\n';
      out := buf[p..q + 1];
      assert out == buf[p..q] + "\n";
    }
  }

  /** The inner loop of grep on buf[..m]; p is where the unfinished line starts. */
  method PrintLines(re: string, buf: array<char>, m: nat) returns (out: string, p: nat)
    requires m < buf.Length
    modifies buf
    ensures out == Selected(re, old(buf[..m]))
    ensures p <= m && buf[p..m] == Remainder(old(buf[..m]))
  {
    hide Kept, Selected, Remainder;
    out, p := "", 0;
    ghost var w := buf[..m];
    ghost var rest := w;
    assert buf[0..m] == w;
    while true
      invariant 0 <= p <= m && buf[p..m] == rest
      invariant out + Selected(re, rest) == Selected(re, w) && Remainder(rest) == Remainder(w)
      decreases m - p
    {
      var q := Strchr(buf, p, m);
      if q == m {
        SelectedLast(re, rest);
        return;
      }
      SelectedStep(re, rest, q - p);
      SplitAt(buf[..], p, q, m);
      ghost var before := buf[..];
      var line := PrintLine(re, buf, p, q);
      SameTail(before, buf[..], q + 1, m);
      out := out + line;
      rest := rest[q - p + 1..];
      p := q + 1;
    }
  }

  method Memmove(buf: array<char>, p: nat, n: nat)
    requires p + n <= buf.Length
    modifies buf
    ensures buf[..n] == old(buf[p..p + n])
  {
    for i := 0 to n
      invariant forall k :: 0 <= k < i ==> buf[k] == old(buf[p + k])
      invariant forall k :: i <= k < buf.Length ==> buf[k] == old(buf[k])
    {
      buf[i] := buf[p + i];
    }
  }

  method Read(buf: array<char>, m: nat, chunk: string)
    requires m + |chunk| <= buf.Length
    modifies buf
    ensures buf[..m + |chunk|] == old(buf[..m]) + chunk
  {
    for i := 0 to |chunk|
      invariant forall k :: 0 <= k < m ==> buf[k] == old(buf[k])
      invariant forall k :: 0 <= k < i ==> buf[m + k] == chunk[k]
    {
      buf[m + i] := chunk[i];
    }
    assert forall k {:trigger buf[k]} :: m <= k < m + |chunk| ==> buf[k] == chunk[k - m] by {
      forall k | m <= k < m + |chunk| ensures buf[k] == chunk[k - m] { assert buf[m + (k - m)] == chunk[k - m]; }
    }
  }

  function Min(a: nat, b: nat): (r: nat) { if a < b then a else b }

  /**
    grep(): reads `input`, the i-th read delivering at most want[i] > 0 characters, until the
    end or until a line fills the buffer. However the reads fall, the output is the matching
    complete lines of what was read; that is everything, unless one line has 1023 characters
    or more.
   */
  method GrepStream(re: string, input: string, want: seq<nat>) returns (out: string, pos: nat)
    requires '\0' !in input // a NUL would end the C strings early
    requires |want| >= |input| && forall i :: 0 <= i < |want| ==> want[i] > 0
    ensures pos <= |input| && out == Selected(re, input[..pos])
    ensures pos < |input| ==> exists i :: Unbroken(input, i, LIMIT)
  {
    hide Meaning, Selected, Remainder;
    var buf := new char[BUFSIZE](_ => '\0');
    var m, i := 0, 0;
    out, pos := "", 0;
    EmptyStream(re, input);
    while pos < |input| && m < BUFSIZE - 1
      invariant 0 <= i <= pos <= |input| && 0 <= m <= BUFSIZE - 1 && fresh(buf)
      invariant out == Selected(re, input[..pos]) && buf[..m] == Remainder(input[..pos])
      decreases |input| - pos
    {
      var n := Min(want[i], Min(BUFSIZE - m - 1, |input| - pos));
      ghost var line, chunk := buf[..m], input[pos..pos + n];
      ReadOn(re, input[..pos], chunk);
      assert input[..pos] + chunk == input[..pos + n];
      Read(buf, m, input[pos..pos + n]);
      m := m + n;
      var more, p := PrintLines(re, buf, m);
      out := out + more;
      Memmove(buf, p, m - p);
      m := m - p;
      pos := pos + n;
      i := i + 1;
    }
    RemainderUnbroken(input[..pos]);
    if pos < |input| {
      assert Unbroken(input, pos - m, m);
    }
  }

  lemma EmptyStream(re: string, input: string)
    ensures Selected(re, input[..0]) == "" && Remainder(input[..0]) == ""
  {}
}
