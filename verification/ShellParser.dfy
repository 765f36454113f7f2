/**
  The parser of user/sh.c as it is written: a cursor moved along the line by loops, against
  the functions of ShellGrammar.
 */
module ShellParser {
  import opened ShellGrammar

  lemma SkipTwice(s: string, i: nat)
    requires i <= |s|
    ensures SkipSpace(s, SkipSpace(s, i)) == SkipSpace(s, i)
    ensures GetToken(s, SkipSpace(s, i)) == GetToken(s, i)
    ensures forall toks :: Peek(s, SkipSpace(s, i), toks) == Peek(s, i, toks)
  {}

  lemma SkipEnd(s: string)
    ensures SkipSpace(s, |s|) == |s|
  {}

  class Parser {
    const s: string
    var pos: nat

    ghost predicate Valid()
      reads this
    {
      pos <= |s|
    }

    constructor (line: string)
      ensures Valid() && s == line && pos == 0
    {
      s := line;
      pos := 0;
    }

    /** gettoken(). */
    method Next() returns (t: Token)
      requires Valid()
      modifies this
      ensures Valid() && t == GetToken(s, old(pos)) && pos == t.next
    {
      hide SkipWord, Space;
      Skip();
      SkipTwice(s, old(pos));
      SkipEnd(s);
      hide SkipSpace;
      var q := pos;
      var i := pos;
      var kind := Char(s, i);
      if i == |s| {
      } else if s[i] == '>' {
        i := i + 1;
        if i < |s| && s[i] == '>' {
          kind := '+';
          i := i + 1;
        }
      } else if Symbol(s[i]) {
        i := i + 1;
      } else {
        kind := 'a';
        i := EndOfWord(q);
      }
      pos := i;
      Skip();
      t := Token(kind, Range(q, i), pos);
    }

    /** The character loop of gettoken. */
    method EndOfWord(q: nat) returns (i: nat)
      requires q < |s| && WordChar(s[q])
      ensures i == SkipWord(s, q + 1)
    {
      i := q;
      while i < |s| && WordChar(s[i])
        invariant q <= i <= |s| && SkipWord(s, q) == SkipWord(s, i)
      {
        i := i + 1;
      }
    }

    method Skip()
      requires Valid()
      modifies this
      ensures Valid() && pos == SkipSpace(s, old(pos))
    {
      while pos < |s| && Space(s[pos])
        invariant pos <= |s| && SkipSpace(s, old(pos)) == SkipSpace(s, pos)
        decreases |s| - pos
      {
        pos := pos + 1;
      }
    }

    /** peek(): also moves past white space. */
    method Sees(toks: set<char>) returns (r: bool)
      requires Valid()
      modifies this
      ensures Valid() && r == Peek(s, old(pos), toks) && pos == SkipSpace(s, old(pos))
    {
      Skip();
      r := pos < |s| && s[pos] in toks;
    }

    method ParseRedirs(c: Cmd) returns (r: Result)
      requires Valid() && Sound(s, c)
      modifies this
      ensures Valid() && r == Redirs(s, c, old(pos)) && (r.Ok? ==> pos == r.pos)
    {
      hide GetToken, Peek;
      var cmd := c;
      while true
        invariant Valid() && Sound(s, cmd) && Redirs(s, c, old(pos)) == Redirs(s, cmd, pos)
        decreases |s| - pos
      {
        ghost var p := pos;
        SkipTwice(s, p);
        PeekNext(s, p, {'<', '>'});
        var more := Sees({'<', '>'});
        if !more {
          return Ok(cmd, pos);
        }
        var t := Next();
        var f := Next();
        if f.kind != 'a' {
          return Panic;
        }
        cmd := Redir(cmd, f.range, DirOf(t.kind));
      }
    }

    method ParseLine() returns (r: Result)
      requires Valid()
      modifies this
      ensures Valid() && r == Line(s, old(pos)) && (r.Ok? ==> pos == r.pos)
      decreases |s| - pos, 3
    {
      hide GetToken, Peek, Pipeline, Background;
      r := ParsePipe();
      if r.Panic? {
        return;
      }
      ghost var c0, p0 := r.cmd, pos;
      var cmd := r.cmd;
      while true
        invariant Valid() && old(pos) <= pos && Sound(s, cmd) && Background(s, c0, p0) == Background(s, cmd, pos)
        decreases |s| - pos
      {
        ghost var p := pos;
        SkipTwice(s, p);
        PeekNext(s, p, {'&'});
        BackgroundStep(s, cmd, p);
        var more := Sees({'&'});
        if !more {
          break;
        }
        var t := Next();
        cmd := Back(cmd);
      }
      ghost var p := pos;
      SkipTwice(s, p);
      PeekNext(s, p, {';'});
      var list := Sees({';'});
      if list {
        var t := Next();
        r := ParseLine();
        if r.Ok? {
          r := Ok(List(cmd, r.cmd), r.pos);
        }
        return;
      }
      r := Ok(cmd, pos);
    }

    method ParsePipe() returns (r: Result)
      requires Valid()
      modifies this
      ensures Valid() && r == Pipeline(s, old(pos)) && (r.Ok? ==> pos == r.pos)
      decreases |s| - pos, 2
    {
      hide GetToken, Peek, Command;
      r := ParseExec();
      if r.Panic? {
        return;
      }
      var cmd := r.cmd;
      ghost var p := pos;
      SkipTwice(s, p);
      PeekNext(s, p, {'|'});
      var more := Sees({'|'});
      if more {
        var t := Next();
        r := ParsePipe();
        if r.Ok? {
          r := Ok(Pipe(cmd, r.cmd), r.pos);
        }
        return;
      }
      r := Ok(cmd, pos);
    }

    method ParseExec() returns (r: Result)
      requires Valid()
      modifies this
      ensures Valid() && r == Command(s, old(pos)) && (r.Ok? ==> pos == r.pos)
      decreases |s| - pos, 1
    {
      hide GetToken, Peek, Block, Redirs, Arguments;
      SkipTwice(s, pos);
      CommandSkip(s, pos);
      var block := Sees({'('});
      if block {
        r := ParseBlock();
        return;
      }
      RedirsArgs(s, Exec([]), pos);
      r := ParseRedirs(Exec([]));
      if r.Panic? {
        return;
      }
      r := ParseArgs(r.cmd);
    }

    method ParseArgs(c: Cmd) returns (r: Result)
      requires Valid() && Sound(s, c) && OverExec(c)
      modifies this
      ensures Valid() && r == Arguments(s, c, old(pos)) && (r.Ok? ==> pos == r.pos)
    {
      hide GetToken, Peek, Redirs;
      var cmd := c;
      var argc := Args(c);
      while true
        invariant Valid() && Sound(s, cmd) && OverExec(cmd) && argc == Args(cmd)
        invariant Arguments(s, c, old(pos)) == Arguments(s, cmd, pos)
        decreases |s| - pos
      {
        ghost var p := pos;
        SkipTwice(s, p);
        var stop := Sees({'|', ')', '&', ';'});
        if stop {
          return Ok(cmd, pos);
        }
        var t := Next();
        TokenMoves(s, p);
        if t.kind == '\0' {
          return Ok(cmd, pos);
        }
        if t.kind != 'a' {
          return Panic;
        }
        argc := argc + 1;
        if argc >= MAXARGS {
          return Panic;
        }
        AddArgSound(s, cmd, t.range);
        RedirsArgs(s, AddArg(cmd, t.range), t.next);
        var d := ParseRedirs(AddArg(cmd, t.range));
        if d.Panic? {
          return Panic;
        }
        cmd := d.cmd;
      }
    }

    method ParseBlock() returns (r: Result)
      requires Valid() && Peek(s, pos, {'('})
      modifies this
      ensures Valid() && r == Block(s, old(pos)) && (r.Ok? ==> pos == r.pos)
      decreases |s| - pos, 0
    {
      hide GetToken, Peek, Line, Redirs;
      PeekNext(s, pos, {'('});
      var t := Next();
      r := ParseLine();
      if r.Panic? {
        return;
      }
      var cmd := r.cmd;
      SkipTwice(s, pos);
      var close := Sees({')'});
      if !close {
        return Panic;
      }
      t := Next();
      r := ParseRedirs(cmd);
    }

    /** parsecmd() up to nulterminate. */
    method ParseCmd() returns (r: Result)
      requires pos == 0
      modifies this
      ensures r == Parse(s)
    {
      hide Line, Peek;
      r := ParseLine();
      if r.Panic? {
        return;
      }
      var none := Sees({});
      if pos != |s| {
        return Panic;
      }
      r := Ok(r.cmd, pos);
    }
  }

  /** A token that peek has seen is consumed. */
  lemma PeekNext(s: string, i: nat, toks: set<char>)
    requires i <= |s|
    ensures Peek(s, i, toks) ==> i < GetToken(s, i).next && SkipSpace(s, i) < GetToken(s, i).next
  {}

  lemma TokenMoves(s: string, i: nat)
    requires i <= |s|
    ensures GetToken(s, i).kind != '\0' ==> i < GetToken(s, i).next
  {}

  lemma BackgroundStep(s: string, c: Cmd, i: nat)
    requires i <= |s| && Sound(s, c)
    ensures Background(s, c, i) ==
            if Peek(s, i, {'&'}) then Background(s, Back(c), GetToken(s, i).next) else Ok(c, SkipSpace(s, i))
  {}

  /** Leading white space makes no difference to a command. */
  lemma CommandSkip(s: string, i: nat)
    requires i <= |s|
    ensures Command(s, SkipSpace(s, i)) == Command(s, i)
  {
    SkipTwice(s, i);
    hide Peek, GetToken;
  }
}
