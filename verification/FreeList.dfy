/**
  The free list of the user-level allocator (user/umalloc.c) as a value: an address-ordered
  list of blocks, in units of one Header, starting with the size-0 `base` block.
 */
module FreeList {

  datatype Block = Block(addr: int, size: int) {
    function End(): (r: int) { addr + size }

    predicate Has(u: int) { addr <= u < addr + size }

    function Units(): (r: set<int>) { set u | addr <= u < addr + size && Has(u) }
  }

  /** In address order, disjoint, and with a gap after every block: nothing left to merge. */
  ghost predicate Separated(fl: seq<Block>) {
    && (forall i :: 0 <= i < |fl| ==> 0 <= fl[i].size && (0 < i ==> 0 < fl[i].size))
    && (forall i, j :: 0 <= i < j < |fl| ==> fl[i].End() < fl[j].addr)
  }

  function FreeUnits(fl: seq<Block>): (r: set<int>)
  {
    if fl == [] then {} else fl[0].Units() + FreeUnits(fl[1..])
  }

  lemma {:induction false} FreeUnitsConcat(f: seq<Block>, g: seq<Block>)
    ensures FreeUnits(f + g) == FreeUnits(f) + FreeUnits(g)
  {
    if f == [] {
      assert f + g == g;
    } else {
      FreeUnitsConcat(f[1..], g);
      assert (f + g)[1..] == f[1..] + g;
    }
  }

  lemma {:induction false} InFreeUnits(fl: seq<Block>, u: int)
    ensures u in FreeUnits(fl) <==> exists i :: 0 <= i < |fl| && fl[i].addr <= u < fl[i].End()
  {
    if fl != [] {
      InFreeUnits(fl[1..], u);
      if u in FreeUnits(fl[1..]) {
        var i :| 0 <= i < |fl[1..]| && fl[1..][i].addr <= u < fl[1..][i].End();
        assert fl[i + 1].addr <= u < fl[i + 1].End();
      }
      if i :| 0 < i < |fl| && fl[i].addr <= u < fl[i].End() {
        assert fl[1..][i - 1].addr <= u < fl[1..][i - 1].End();
      }
    }
  }

  /** Index t is where a block at address a belongs: the last block below it. */
  ghost predicate Place(fl: seq<Block>, t: nat, a: int) {
    t < |fl| && fl[t].addr < a && (t + 1 < |fl| ==> a < fl[t + 1].addr)
  }

  /** What free() makes of the list: b inserted after t, merged with neighbours it touches. */
  function Coalesce(fl: seq<Block>, t: nat, b: Block): (r: seq<Block>)
    requires t < |fl|
  {
    var up := t + 1 < |fl| && b.End() == fl[t + 1].addr;
    var b' := if up then Block(b.addr, b.size + fl[t + 1].size) else b;
    var rest := if up then fl[t + 2..] else fl[t + 1..];
    if fl[t].End() == b.addr
    then fl[..t] + [Block(fl[t].addr, fl[t].size + b'.size)] + rest
    else fl[..t + 1] + [b'] + rest
  }

  /** b touches no unit of the list. */
  ghost predicate Fits(fl: seq<Block>, t: nat, b: Block) {
    && Place(fl, t, b.addr) && 0 < b.size
    && fl[t].End() <= b.addr
    && (t + 1 < |fl| ==> b.End() <= fl[t + 1].addr)
  }

  ghost predicate AllBelow(f: seq<Block>, a: int) {
    forall i :: 0 <= i < |f| ==> f[i].End() < a
  }

  /** A separated list of non-empty blocks, all above a. */
  ghost predicate AllAbove(g: seq<Block>, a: int) {
    && (forall i :: 0 <= i < |g| ==> a < g[i].addr && 0 < g[i].size)
    && (forall i, j :: 0 <= i < j < |g| ==> g[i].End() < g[j].addr)
  }

  lemma Sandwich(f: seq<Block>, m: Block, g: seq<Block>)
    requires Separated(f) && f != [] && 0 < m.size
    requires AllBelow(f, m.addr) && AllAbove(g, m.End())
    ensures Separated(f + [m] + g)
  {
    var r := f + [m] + g;
    forall i, j | 0 <= i < j < |r| ensures r[i].End() < r[j].addr {
      if j > |f| {
        assert r[j] == g[j - |f| - 1];
        if i > |f| { assert r[i] == g[i - |f| - 1]; }
      }
    }
    forall i | 0 <= i < |r| ensures 0 <= r[i].size && (0 < i ==> 0 < r[i].size) {
      if i > |f| { assert r[i] == g[i - |f| - 1]; }
    }
  }

  lemma Lower(fl: seq<Block>, t: nat, a: int)
    requires Separated(fl) && t <= |fl| && (0 < t ==> fl[t - 1].End() < a)
    ensures Separated(fl[..t]) && AllBelow(fl[..t], a)
  {}

  lemma Upper(fl: seq<Block>, k: nat, a: int)
    requires Separated(fl) && 0 < k <= |fl| && (k < |fl| ==> a < fl[k].addr)
    ensures AllAbove(fl[k..], a)
  {}

  lemma Neighbours(fl: seq<Block>, t: nat)
    requires Separated(fl) && t < |fl|
    ensures 0 <= fl[t].size && (0 < t ==> 0 < fl[t].size && fl[t - 1].End() < fl[t].addr)
    ensures t + 1 < |fl| ==> 0 < fl[t + 1].size && fl[t].End() < fl[t + 1].addr
    ensures t + 2 < |fl| ==> fl[t + 1].End() < fl[t + 2].addr
  {}

  lemma CoalesceSeparated(fl: seq<Block>, t: nat, b: Block)
    requires Separated(fl) && Fits(fl, t, b) && fl[0].End() < b.addr
    ensures Separated(Coalesce(fl, t, b)) && Coalesce(fl, t, b)[0] == fl[0]
  {
    hide Separated, AllBelow, AllAbove;
    var up := t + 1 < |fl| && b.End() == fl[t + 1].addr;
    var b' := if up then Block(b.addr, b.size + fl[t + 1].size) else b;
    var k := if up then t + 2 else t + 1;
    Neighbours(fl, t);
    Upper(fl, k, b'.End());
    if fl[t].End() == b.addr {
      Lower(fl, t, fl[t].addr);
      Sandwich(fl[..t], Block(fl[t].addr, fl[t].size + b'.size), fl[k..]);
    } else {
      Lower(fl, t + 1, b.addr);
      Sandwich(fl[..t + 1], b', fl[k..]);
    }
  }

  lemma SplitUnits(f: seq<Block>, m: Block, g: seq<Block>)
    ensures FreeUnits(f + [m] + g) == FreeUnits(f) + m.Units() + FreeUnits(g)
  {
    FreeUnitsConcat(f + [m], g);
    FreeUnitsConcat(f, [m]);
    assert FreeUnits([m]) == m.Units();
  }

  lemma JoinUnits(a: Block, b: Block)
    requires a.End() == b.addr && 0 <= a.size && 0 <= b.size
    ensures Block(a.addr, a.size + b.size).Units() == a.Units() + b.Units()
  {}

  lemma CoalesceUnits(fl: seq<Block>, t: nat, b: Block)
    requires Separated(fl) && Fits(fl, t, b)
    ensures FreeUnits(Coalesce(fl, t, b)) == FreeUnits(fl) + b.Units()
  {
    hide Separated, FreeUnits, Block.Units;
    assert 0 <= fl[t].size && (t + 1 < |fl| ==> 0 <= fl[t + 1].size) by { SizesNonNegative(fl); }
    var up := t + 1 < |fl| && b.End() == fl[t + 1].addr;
    var b' := if up then Block(b.addr, b.size + fl[t + 1].size) else b;
    var rest := if up then fl[t + 2..] else fl[t + 1..];
    assert b'.Units() + FreeUnits(rest) == b.Units() + FreeUnits(fl[t + 1..]) by {
      if up {
        JoinUnits(b, fl[t + 1]);
        assert fl[t + 1..] == [] + [fl[t + 1]] + rest;
        SplitUnits([], fl[t + 1], rest);
        EmptyUnits();
      }
    }
    assert fl == fl[..t] + [fl[t]] + fl[t + 1..];
    SplitUnits(fl[..t], fl[t], fl[t + 1..]);
    if fl[t].End() == b.addr {
      JoinUnits(fl[t], b');
      SplitUnits(fl[..t], Block(fl[t].addr, fl[t].size + b'.size), rest);
    } else {
      SplitUnits(fl[..t + 1], b', rest);
      assert fl[..t + 1] == fl[..t] + [fl[t]] + [];
      SplitUnits(fl[..t], fl[t], []);
      EmptyUnits();
    }
  }

  lemma EmptyUnits()
    ensures FreeUnits([]) == {}
  {}

  lemma SizesNonNegative(fl: seq<Block>)
    requires Separated(fl)
    ensures forall i :: 0 <= i < |fl| ==> 0 <= fl[i].size
  {}

  /** What malloc() makes of the list when it takes n units from block i: the tail end. */
  function Carve(fl: seq<Block>, i: nat, n: int): (r: seq<Block>)
    requires i < |fl|
  {
    if fl[i].size == n then fl[..i] + fl[i + 1..]
    else fl[i := Block(fl[i].addr, fl[i].size - n)]
  }

  function Carved(fl: seq<Block>, i: nat, n: int): (r: Block)
    requires i < |fl|
  {
    Block(fl[i].End() - n, n)
  }

  lemma CarveSeparated(fl: seq<Block>, i: nat, n: int)
    requires Separated(fl) && 0 < i < |fl| && 0 < n <= fl[i].size
    ensures Separated(Carve(fl, i, n)) && Carve(fl, i, n)[0] == fl[0]
  {}

  /** Where the carved block goes back. */
  function CarvePlace(fl: seq<Block>, i: nat, n: int): (t: int)
    requires i < |fl|
  {
    if fl[i].size == n then i - 1 else i
  }

  lemma CarveFits(fl: seq<Block>, i: nat, n: int)
    requires Separated(fl) && 0 < i < |fl| && 0 < n <= fl[i].size
    ensures CarvePlace(fl, i, n) < |Carve(fl, i, n)|
    ensures Fits(Carve(fl, i, n), CarvePlace(fl, i, n), Carved(fl, i, n))
    ensures Carve(fl, i, n)[0].End() < Carved(fl, i, n).addr
  {}

  lemma CarveAllCoalesce(fl: seq<Block>, i: nat)
    requires Separated(fl) && 0 < i < |fl|
    ensures Coalesce(fl[..i] + fl[i + 1..], i - 1, fl[i]) == fl
  {
    Neighbours(fl, i);
    hide Separated;
    var r := fl[..i] + fl[i + 1..];
    assert r[..i] == fl[..i] && r[i..] == fl[i + 1..] && r[i - 1] == fl[i - 1];
    assert fl == fl[..i] + [fl[i]] + fl[i + 1..];
  }

  lemma CarveTailCoalesce(fl: seq<Block>, i: nat, n: int)
    requires Separated(fl) && 0 < i < |fl| && 0 < n < fl[i].size
    ensures Coalesce(fl[i := Block(fl[i].addr, fl[i].size - n)], i, Carved(fl, i, n)) == fl
  {
    Neighbours(fl, i);
    hide Separated;
    var r := fl[i := Block(fl[i].addr, fl[i].size - n)];
    assert r[..i] == fl[..i] && r[i + 1..] == fl[i + 1..];
    assert fl == fl[..i] + [fl[i]] + fl[i + 1..];
  }

  /** Giving back what was just carved restores the list: free undoes malloc. */
  lemma CarveCoalesce(fl: seq<Block>, i: nat, n: int)
    requires Separated(fl) && 0 < i < |fl| && 0 < n <= fl[i].size
    ensures CarvePlace(fl, i, n) < |Carve(fl, i, n)|
    ensures Coalesce(Carve(fl, i, n), CarvePlace(fl, i, n), Carved(fl, i, n)) == fl
  {
    hide Separated, Coalesce;
    if fl[i].size == n { CarveAllCoalesce(fl, i); } else { CarveTailCoalesce(fl, i, n); }
  }

  lemma CarveUnits(fl: seq<Block>, i: nat, n: int)
    requires Separated(fl) && 0 < i < |fl| && 0 < n <= fl[i].size
    ensures var r, b := Carve(fl, i, n), Carved(fl, i, n);
            FreeUnits(fl) == FreeUnits(r) + b.Units() && FreeUnits(r) !! b.Units()
  {
    var r, b := Carve(fl, i, n), Carved(fl, i, n);
    var t := CarvePlace(fl, i, n);
    CarveSeparated(fl, i, n);
    CarveFits(fl, i, n);
    CarveCoalesce(fl, i, n);
    hide Carve, Separated, Fits, Coalesce;
    CoalesceUnits(r, t, b);
    forall u | u in FreeUnits(r) ensures u !in b.Units() {
      InFreeUnits(r, u);
      var j :| 0 <= j < |r| && r[j].addr <= u < r[j].End();
      ApartFromFree(r, t, b, j);
    }
  }

  lemma ApartFromFree(fl: seq<Block>, t: nat, b: Block, j: nat)
    requires Separated(fl) && Fits(fl, t, b) && j < |fl|
    ensures fl[j].End() <= b.addr || b.End() <= fl[j].addr
  {
  }

  // ---------------------------------------------------------------------------------
  // The list is determined by the set of free units
  // ---------------------------------------------------------------------------------

  lemma SameHead(f: seq<Block>, g: seq<Block>)
    requires Separated(f) && Separated(g) && f != [] && g != []
    requires f[0].size > 0 && g[0].size > 0
    requires FreeUnits(f) == FreeUnits(g)
    ensures f[0].addr >= g[0].addr
    ensures f[0].addr == g[0].addr ==> f[0].size <= g[0].size
  {
    InFreeUnits(g, f[0].addr);
    assert f[0].addr in f[0].Units();
    if f[0].addr == g[0].addr && f[0].size > g[0].size {
      assert g[0].End() in f[0].Units();
      InFreeUnits(g, g[0].End());
      assert false;
    }
  }

  /**
    Two separated lists of non-empty blocks with the same free units are the same list:
    no order of calls to free can leave a different one.
   */
  lemma {:induction false} Canonical(f: seq<Block>, g: seq<Block>)
    requires Separated(f) && Separated(g)
    requires f != [] ==> f[0].size > 0
    requires g != [] ==> g[0].size > 0
    requires FreeUnits(f) == FreeUnits(g)
    ensures f == g
  {
    if f == [] {
      if g != [] { HeadIsFree(g); }
    } else if g == [] {
      HeadIsFree(f);
    } else {
      SameHead(f, g);
      SameHead(g, f);
      TailUnits(f);
      TailUnits(g);
      Canonical(f[1..], g[1..]);
    }
  }

  lemma HeadIsFree(f: seq<Block>)
    requires f != [] && f[0].size > 0
    ensures f[0].addr in FreeUnits(f)
  {
    assert f[0].Has(f[0].addr);
  }

  lemma TailUnits(f: seq<Block>)
    requires Separated(f) && f != []
    ensures FreeUnits(f[1..]) == FreeUnits(f) - f[0].Units()
  {
    forall u | u in FreeUnits(f[1..]) ensures u !in f[0].Units() {
      InFreeUnits(f[1..], u);
    }
  }
}
