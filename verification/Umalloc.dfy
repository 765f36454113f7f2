/**
  The Kernighan and Ritchie allocator of user/umalloc.c, on a memory of headers. Addresses
  count headers; address 0 is the null pointer. The ghost `fl` is the free list as a value,
  `live` the allocations handed out and `heap` every unit obtained from sbrk.
 */
module Umalloc {
  import opened Basics
  import opened FreeList

  datatype Header = Header(ptr: int, size: int)

  const HEADER_BYTES: nat := 16

  function Units(nbytes: nat): (n: int)
    ensures n * HEADER_BYTES >= nbytes + HEADER_BYTES
    ensures (n - 1) * HEADER_BYTES < nbytes + HEADER_BYTES
  {
    (nbytes + HEADER_BYTES - 1) / HEADER_BYTES + 1
  }

  // ---------------------------------------------------------------------------------
  // The list as it lies in memory
  // ---------------------------------------------------------------------------------

  /** The address block i of f links to; the last one links to `last`. */
  function NextAddr(f: seq<Block>, i: nat, last: int): (a: int) {
    if i + 1 < |f| then f[i + 1].addr else last
  }

  /** The blocks of f are linked in order. */
  ghost predicate Chain(mem: map<int, Header>, f: seq<Block>, last: int) {
    forall i :: 0 <= i < |f| ==>
      && f[i].addr in mem
      && mem[f[i].addr] == Header(NextAddr(f, i, last), f[i].size)
  }

  function FirstOr(g: seq<Block>, last: int): int { if g == [] then last else g[0].addr }

  lemma ChainJoin(mem: map<int, Header>, f: seq<Block>, g: seq<Block>, last: int)
    requires Chain(mem, f, FirstOr(g, last)) && Chain(mem, g, last)
    ensures Chain(mem, f + g, last)
  {
    var r := f + g;
    forall i | 0 <= i < |r| ensures r[i].addr in mem
      && mem[r[i].addr] == Header(NextAddr(r, i, last), r[i].size)
    {
      if i >= |f| { assert r[i] == g[i - |f|]; }
    }
  }

  lemma ChainSplit(mem: map<int, Header>, f: seq<Block>, g: seq<Block>, last: int)
    requires Chain(mem, f + g, last)
    ensures Chain(mem, f, FirstOr(g, last)) && Chain(mem, g, last)
  {
    var r := f + g;
    forall i | 0 <= i < |g| ensures g[i].addr in mem
      && mem[g[i].addr] == Header(NextAddr(g, i, last), g[i].size)
    {
      assert r[i + |f|] == g[i];
    }
    forall i | 0 <= i < |f| ensures f[i].addr in mem
      && mem[f[i].addr] == Header(NextAddr(f, i, FirstOr(g, last)), f[i].size)
    {
      assert r[i] == f[i];
    }
  }

  /** No block of f lies at address a. */
  ghost predicate Avoids(f: seq<Block>, a: int) { forall i :: 0 <= i < |f| ==> f[i].addr != a }

  lemma ChainUpdate(mem: map<int, Header>, f: seq<Block>, last: int, a: int, h: Header)
    requires Chain(mem, f, last) && Avoids(f, a)
    ensures Chain(mem[a := h], f, last)
  {}

  lemma SliceAvoids(fl: seq<Block>, lo: nat, hi: nat, k: nat)
    requires Separated(fl) && lo <= hi <= |fl| && k < |fl| && !(lo <= k < hi)
    ensures Avoids(fl[lo..hi], fl[k].addr)
  {}

  lemma GapAvoids(fl: seq<Block>, t: nat, b: Block, lo: nat, hi: nat)
    requires Separated(fl) && Fits(fl, t, b) && lo <= hi <= |fl|
    ensures Avoids(fl[lo..hi], b.addr)
  {}

  lemma ChainSlice(mem: map<int, Header>, fl: seq<Block>, last: int, lo: nat, hi: nat)
    requires Chain(mem, fl, last) && lo <= hi <= |fl|
    ensures Chain(mem, fl[lo..hi], if hi < |fl| then fl[hi].addr else last)
  {
    assert fl == fl[..lo] + fl[lo..];
    ChainSplit(mem, fl[..lo], fl[lo..], last);
    assert fl[lo..] == fl[lo..hi] + fl[hi..];
    ChainSplit(mem, fl[lo..hi], fl[hi..], last);
  }

  lemma ChainOne(mem: map<int, Header>, b: Block, last: int)
    requires b.addr in mem && mem[b.addr] == Header(last, b.size)
    ensures Chain(mem, [b], last)
  {}

  /** The circular list starting at base. */
  ghost predicate Ring(mem: map<int, Header>, base: int, fl: seq<Block>) {
    && fl != [] && fl[0] == Block(base, 0) && Separated(fl) && Chain(mem, fl, base)
  }

  lemma RingAt(mem: map<int, Header>, base: int, fl: seq<Block>, i: nat)
    requires Ring(mem, base, fl) && i < |fl|
    ensures fl[i].addr in mem && mem[fl[i].addr].size == fl[i].size
    ensures mem[fl[i].addr].ptr == if i + 1 < |fl| then fl[i + 1].addr else base
    ensures base <= fl[i].addr && (0 < i ==> base < fl[i].addr && 0 < fl[i].size)
  {}

  // ---------------------------------------------------------------------------------
  // What free() writes
  // ---------------------------------------------------------------------------------

  /** Linking block b in after p, with the merge of b into its successor. */
  function LinkUp(mem: map<int, Header>, p: int, bp: int): (r: map<int, Header>)
    requires p in mem && bp in mem && mem[p].ptr in mem
  {
    var next := mem[p].ptr;
    if bp + mem[bp].size == next
    then mem[bp := Header(mem[next].ptr, mem[bp].size + mem[next].size)]
    else mem[bp := Header(next, mem[bp].size)]
  }

  function LinkDown(mem: map<int, Header>, p: int, bp: int): (r: map<int, Header>)
    requires p in mem && bp in mem
  {
    if p + mem[p].size == bp
    then mem[p := Header(mem[bp].ptr, mem[p].size + mem[bp].size)]
    else mem[p := Header(bp, mem[p].size)]
  }

  /** b, or b merged with the block above it. */
  function Raised(fl: seq<Block>, t: nat, b: Block): (r: Block) {
    if t + 1 < |fl| && b.End() == fl[t + 1].addr then Block(b.addr, b.size + fl[t + 1].size) else b
  }

  /** First block that stays above the raised block. */
  function RestFrom(fl: seq<Block>, t: nat, b: Block): (k: nat)
    requires t < |fl|
    ensures k <= |fl|
  {
    if t + 1 < |fl| && b.End() == fl[t + 1].addr then t + 2 else t + 1
  }

  lemma LinkUpChain(mem: map<int, Header>, base: int, fl: seq<Block>, t: nat, b: Block)
    requires Ring(mem, base, fl) && Fits(fl, t, b) && base < b.addr
    requires b.addr in mem && mem[b.addr].size == b.size
    requires mem[fl[t].addr].ptr in mem
    ensures var k := RestFrom(fl, t, b);
            var mem' := LinkUp(mem, fl[t].addr, b.addr);
            && b.addr in mem' && fl[t].addr in mem' && mem'[fl[t].addr] == mem[fl[t].addr]
            && mem'[b.addr] == Header(FirstOr(fl[k..], base), Raised(fl, t, b).size)
            && Chain(mem', fl[k..|fl|], base) && Chain(mem', fl[0..t], fl[t].addr)
  {
    hide Separated, Chain, Avoids;
    var k := RestFrom(fl, t, b);
    RingAt(mem, base, fl, t);
    if k == t + 2 { RingAt(mem, base, fl, t + 1); }
    ChainSlice(mem, fl, base, k, |fl|);
    ChainSlice(mem, fl, base, 0, t);
    GapAvoids(fl, t, b, k, |fl|);
    GapAvoids(fl, t, b, 0, t);
    var h := LinkUp(mem, fl[t].addr, b.addr)[b.addr];
    ChainUpdate(mem, fl[k..|fl|], base, b.addr, h);
    ChainUpdate(mem, fl[0..t], fl[t].addr, b.addr, h);
  }

  lemma LinkDownChain(mem: map<int, Header>, base: int, fl: seq<Block>, t: nat, b': Block, k: nat)
    requires Separated(fl) && t < k <= |fl| && b'.addr in mem && fl[t].addr in mem
    requires mem[b'.addr] == Header(FirstOr(fl[k..], base), b'.size) && b'.addr != fl[t].addr
    requires mem[fl[t].addr].size == fl[t].size
    requires Chain(mem, fl[k..|fl|], base) && Chain(mem, fl[0..t], fl[t].addr)
    ensures Chain(LinkDown(mem, fl[t].addr, b'.addr),
                  if fl[t].End() == b'.addr
                  then fl[0..t] + [Block(fl[t].addr, fl[t].size + b'.size)] + fl[k..|fl|]
                  else fl[0..t + 1] + [b'] + fl[k..|fl|], base)
  {
    hide Separated, Chain, Avoids;
    SliceAvoids(fl, 0, t, t);
    SliceAvoids(fl, k, |fl|, t);
    var mem' := LinkDown(mem, fl[t].addr, b'.addr);
    var f, rest := fl[0..t], fl[k..|fl|];
    ChainUpdate(mem, rest, base, fl[t].addr, mem'[fl[t].addr]);
    ChainUpdate(mem, f, fl[t].addr, fl[t].addr, mem'[fl[t].addr]);
    if fl[t].End() == b'.addr {
      var m := Block(fl[t].addr, fl[t].size + b'.size);
      ChainOne(mem', m, FirstOr(rest, base));
      ChainJoin(mem', [m], rest, base);
      ChainJoin(mem', f, [m] + rest, base);
      assert f + ([m] + rest) == f + [m] + rest;
    } else {
      ChainOne(mem', b', FirstOr(rest, base));
      ChainJoin(mem', [b'], rest, base);
      ChainOne(mem', fl[t], b'.addr);
      ChainJoin(mem', [fl[t]], [b'] + rest, base);
      ChainJoin(mem', f, [fl[t]] + ([b'] + rest), base);
      assert f + ([fl[t]] + ([b'] + rest)) == fl[0..t + 1] + [b'] + rest;
    }
  }

  lemma CoalesceShape(fl: seq<Block>, t: nat, b: Block)
    requires t < |fl|
    ensures var b', k := Raised(fl, t, b), RestFrom(fl, t, b);
            Coalesce(fl, t, b) ==
            if fl[t].End() == b'.addr
            then fl[0..t] + [Block(fl[t].addr, fl[t].size + b'.size)] + fl[k..|fl|]
            else fl[0..t + 1] + [b'] + fl[k..|fl|]
  {}

  /** free() turns the list in memory into the coalesced list. */
  lemma FreeChain(mem: map<int, Header>, base: int, fl: seq<Block>, t: nat, b: Block)
    requires Ring(mem, base, fl) && Fits(fl, t, b) && base < b.addr
    requires b.addr in mem && mem[b.addr].size == b.size
    ensures fl[t].addr in mem && mem[fl[t].addr].ptr in mem
    ensures Ring(LinkDown(LinkUp(mem, fl[t].addr, b.addr), fl[t].addr, b.addr), base,
                 Coalesce(fl, t, b))
  {
    hide Separated, Chain, Coalesce, LinkDown, LinkUp;
    RingAt(mem, base, fl, t);
    if t + 1 < |fl| { RingAt(mem, base, fl, t + 1); } else { RingAt(mem, base, fl, 0); }
    LinkUpChain(mem, base, fl, t, b);
    CoalesceSeparated(fl, t, b);
    CoalesceShape(fl, t, b);
    var mem' := LinkUp(mem, fl[t].addr, b.addr);
    LinkDownChain(mem', base, fl, t, Raised(fl, t, b), RestFrom(fl, t, b));
  }

  // ---------------------------------------------------------------------------------
  // What malloc() writes
  // ---------------------------------------------------------------------------------

  lemma UnlinkChain(mem: map<int, Header>, base: int, fl: seq<Block>, i: nat)
    requires Ring(mem, base, fl) && 0 < i < |fl|
    ensures fl[i - 1].addr in mem && fl[i].addr in mem
    ensures Ring(mem[fl[i - 1].addr := Header(mem[fl[i].addr].ptr, mem[fl[i - 1].addr].size)], base,
                 fl[..i] + fl[i + 1..])
  {
    hide Separated, Chain, Avoids;
    RingAt(mem, base, fl, i - 1);
    RingAt(mem, base, fl, i);
    var a, h := fl[i - 1].addr, Header(mem[fl[i].addr].ptr, mem[fl[i - 1].addr].size);
    var mem' := mem[a := h];
    var f, g := fl[0..i - 1], fl[i + 1..|fl|];
    ChainSlice(mem, fl, base, 0, i - 1);
    ChainSlice(mem, fl, base, i + 1, |fl|);
    SliceAvoids(fl, 0, i - 1, i - 1);
    SliceAvoids(fl, i + 1, |fl|, i - 1);
    CarveSeparated(fl, i, fl[i].size);
    ChainUpdate(mem, f, a, a, h);
    ChainUpdate(mem, g, base, a, h);
    ChainOne(mem', fl[i - 1], FirstOr(g, base));
    ChainJoin(mem', [fl[i - 1]], g, base);
    ChainJoin(mem', f, [fl[i - 1]] + g, base);
    assert f + ([fl[i - 1]] + g) == fl[..i] + fl[i + 1..];
  }

  lemma ShrinkChain(mem: map<int, Header>, base: int, fl: seq<Block>, i: nat, n: int, h: Header)
    requires Ring(mem, base, fl) && 0 < i < |fl| && 0 < n < fl[i].size
    requires fl[i].addr in mem
    ensures var mem' := mem[fl[i].addr := Header(mem[fl[i].addr].ptr, fl[i].size - n)];
            Ring(mem'[Carved(fl, i, n).addr := h], base, Carve(fl, i, n))
  {
    RingAt(mem, base, fl, i);
    var mem' := mem[fl[i].addr := Header(mem[fl[i].addr].ptr, fl[i].size - n)];
    var mem'' := mem'[Carved(fl, i, n).addr := h];
    var r := Carve(fl, i, n);
    forall j | 0 <= j < |r| ensures r[j].addr in mem''
      && mem''[r[j].addr] == Header(NextAddr(r, j, base), r[j].size)
    {
      RingAt(mem, base, fl, j);
      assert r[j].addr == fl[j].addr;
    }
    CarveSeparated(fl, i, n);
  }

  // ---------------------------------------------------------------------------------
  // Free and live units partition the heap
  // ---------------------------------------------------------------------------------

  ghost predicate LiveAt(live: map<int, int>, u: int) {
    exists a :: a in live && a <= u < a + live[a]
  }

  /** Every heap unit is free or belongs to one live block, never both. */
  ghost predicate Partition(fl: seq<Block>, live: map<int, int>, heap: set<int>) {
    && (forall u :: u in heap <==> u in FreeUnits(fl) || LiveAt(live, u))
    && (forall u :: u in FreeUnits(fl) ==> !LiveAt(live, u))
    && (forall a :: a in live ==> 0 < live[a])
    && (forall a, b :: a in live && b in live && a != b ==> a + live[a] <= b || b + live[b] <= a)
  }

  /** Every unit of every live block keeps its contents. */
  ghost predicate LiveKept(mem: map<int, Header>, mem': map<int, Header>, live: map<int, int>) {
    forall u :: u in mem && LiveAt(live, u) ==> u in mem' && mem'[u] == mem[u]
  }

  lemma LiveKeptTrans(m: map<int, Header>, m': map<int, Header>, m'': map<int, Header>, live: map<int, int>)
    requires LiveKept(m, m', live) && LiveKept(m', m'', live)
    ensures LiveKept(m, m'', live)
  {
    hide LiveAt;
  }

  /** Units of the other live blocks are neither in the list nor the freed header. */
  lemma OthersAvoid(mem: map<int, Header>, base: int, fl: seq<Block>, live: map<int, int>, heap: set<int>, bp: int)
    requires Ring(mem, base, fl) && Partition(fl, live, heap) && bp in live
    requires forall x :: x in heap ==> base < x
    ensures forall u :: LiveAt(live - {bp}, u) ==> u != bp && Avoids(fl, u)
  {
    hide Ring, FreeUnits, Avoids;
    forall u | LiveAt(live - {bp}, u) ensures u != bp && Avoids(fl, u) {
      var a :| a in live - {bp} && a <= u < a + (live - {bp})[a];
      assert a in live && LiveAt(live, u);
      LiveUnitsAvoid(mem, base, fl, live, heap, u);
    }
  }

  /** A list block does not start inside a live one: base lies below them all, the others are free. */
  lemma LiveUnitsAvoid(mem: map<int, Header>, base: int, fl: seq<Block>, live: map<int, int>, heap: set<int>, u: int)
    requires Ring(mem, base, fl) && Partition(fl, live, heap) && LiveAt(live, u)
    requires forall x :: x in heap ==> base < x
    ensures Avoids(fl, u)
  {
    hide Chain;
    forall i | 0 <= i < |fl| ensures fl[i].addr != u {
      if i > 0 { InFreeUnits(fl, fl[i].addr); }
    }
  }

  /** Fresh memory from sbrk lies above every live unit. */
  lemma LiveAvoidGrant(mem: map<int, Header>, base: int, fl: seq<Block>, live: map<int, int>, heap: set<int>, hp: int)
    requires Ring(mem, base, fl) && Partition(fl, live, heap) && hp !in heap
    requires forall x :: x in heap ==> base < x
    ensures forall u :: LiveAt(live, u) ==> u != hp && Avoids(fl, u)
  {
    hide Ring, FreeUnits, Avoids, LiveAt;
    forall u | LiveAt(live, u) ensures u != hp && Avoids(fl, u) {
      LiveUnitsAvoid(mem, base, fl, live, heap, u);
    }
  }

  /** Neither header of the list nor the header of the carved block lies in a live one. */
  lemma LiveAvoidCarve(mem: map<int, Header>, base: int, fl: seq<Block>, live: map<int, int>, heap: set<int>,
                       i: nat, n: int)
    requires Ring(mem, base, fl) && Partition(fl, live, heap) && 0 < i < |fl| && 0 < n <= fl[i].size
    requires forall x :: x in heap ==> base < x
    ensures forall u :: LiveAt(live, u) ==> u != fl[i].addr && u != fl[i - 1].addr && u != Carved(fl, i, n).addr
  {
    hide Ring, FreeUnits, LiveAt;
    InFreeUnits(fl, Carved(fl, i, n).addr);
    forall u | LiveAt(live, u) ensures u != fl[i].addr && u != fl[i - 1].addr && u != Carved(fl, i, n).addr {
      LiveUnitsAvoid(mem, base, fl, live, heap, u);
    }
  }

  lemma FreePartition(fl: seq<Block>, fl': seq<Block>, live: map<int, int>, heap: set<int>, b: Block)
    requires Partition(fl, live, heap) && b.addr in live && live[b.addr] == b.size
    requires FreeUnits(fl') == FreeUnits(fl) + b.Units()
    ensures Partition(fl', live - {b.addr}, heap)
  {
    hide FreeUnits;
    var live' := live - {b.addr};
    forall u ensures LiveAt(live, u) <==> LiveAt(live', u) || b.Has(u) {
      if LiveAt(live, u) && !b.Has(u) {
        var a :| a in live && a <= u < a + live[a];
        assert a in live';
      }
    }
    forall u | b.Has(u) ensures !LiveAt(live', u) {}
  }

  /** A block carved from free units overlaps no live one. */
  lemma CarvedApart(fl: seq<Block>, live: map<int, int>, heap: set<int>, b: Block, a: int)
    requires Partition(fl, live, heap) && 0 < b.size && b.Units() <= FreeUnits(fl) && a in live
    ensures a != b.addr && (a + live[a] <= b.addr || b.End() <= a)
  {
    hide FreeUnits;
    assert b.addr in b.Units();
    assert LiveAt(live, a);
    assert a <= b.addr < a + live[a] ==> LiveAt(live, b.addr);
    assert b.addr <= a < b.End() ==> a in b.Units();
  }

  lemma LiveWith(live: map<int, int>, b: Block, u: int)
    requires b.addr !in live
    ensures LiveAt(live[b.addr := b.size], u) <==> LiveAt(live, u) || b.Has(u)
  {
    var live' := live[b.addr := b.size];
    if LiveAt(live, u) {
      var a :| a in live && a <= u < a + live[a];
      assert a in live' && live'[a] == live[a];
    }
    if b.Has(u) { assert b.addr in live'; }
  }

  lemma MallocPartition(fl: seq<Block>, fl': seq<Block>, live: map<int, int>, heap: set<int>, b: Block)
    requires Partition(fl, live, heap) && 0 < b.size
    requires FreeUnits(fl) == FreeUnits(fl') + b.Units() && FreeUnits(fl') !! b.Units()
    ensures b.addr !in live && Partition(fl', live[b.addr := b.size], heap)
  {
    hide FreeUnits, LiveAt;
    var live' := live[b.addr := b.size];
    forall a | a in live ensures a != b.addr && (a + live[a] <= b.addr || b.End() <= a) {
      CarvedApart(fl, live, heap, b, a);
    }
    forall u ensures LiveAt(live', u) <==> LiveAt(live, u) || b.Has(u) { LiveWith(live, b, u); }
  }

  lemma GrowPartition(fl: seq<Block>, fl': seq<Block>, live: map<int, int>, heap: set<int>, b: Block)
    requires Partition(fl, live, heap) && b.Units() !! heap
    requires FreeUnits(fl') == FreeUnits(fl) + b.Units()
    ensures Partition(fl', live, heap + b.Units())
  {
    hide FreeUnits;
  }

  lemma {:induction false} FindPlace(fl: seq<Block>, a: int, k: nat) returns (t: nat)
    requires Separated(fl) && k < |fl| && fl[0].addr < a
    requires Avoids(fl, a) && (k + 1 < |fl| ==> a < fl[k + 1].addr)
    ensures Place(fl, t, a)
  {
    if fl[k].addr < a { t := k; } else { t := FindPlace(fl, a, k - 1); }
  }

  lemma FitsFromUnits(fl: seq<Block>, t: nat, b: Block)
    requires Separated(fl) && Place(fl, t, b.addr) && 0 < b.size
    requires FreeUnits(fl) !! b.Units()
    ensures Fits(fl, t, b)
  {
    hide FreeUnits, Separated;
    assert b.Has(b.addr);
    InFreeUnits(fl, b.addr);
    if t + 1 < |fl| {
      Neighbours(fl, t);
      InFreeUnits(fl, fl[t + 1].addr);
      assert fl[t + 1].addr < b.End() ==> b.Has(fl[t + 1].addr);
    }
  }

  lemma UnitsAvoid(fl: seq<Block>, base: int, b: Block)
    requires fl != [] && fl[0] == Block(base, 0) && Separated(fl) && base < b.addr && 0 < b.size
    requires FreeUnits(fl) !! b.Units()
    ensures Avoids(fl, b.addr)
  {
    hide FreeUnits;
    assert b.Has(b.addr);
    InFreeUnits(fl, b.addr);
  }

  // ---------------------------------------------------------------------------------
  // The allocator
  // ---------------------------------------------------------------------------------

  /** Steps from index k round a ring of n to index t. */
  function Around(n: nat, k: nat, t: nat): (d: int) { if k <= t then t - k else n - k + t }

  /** j lies strictly between f and i, going up and round: already looked at. */
  predicate Visited(f: nat, i: nat, j: nat) { if f < i then f < j < i else f < j || j < i }

  ghost predicate NoFit(fl: seq<Block>, n: int) {
    forall j :: 0 <= j < |fl| ==> fl[j].size < n
  }

  /** The units sbrk hands out for a request of n units. */
  function Granted(p: int, n: int): (b: Block) { Block(p, if n < 4096 then 4096 else n) }

  /** Nothing between f and i is large enough. */
  ghost predicate Searched(fl: seq<Block>, f: nat, i: nat, n: int) {
    forall j :: 0 <= j < |fl| && Visited(f, i, j) ==> fl[j].size < n
  }

  lemma SearchedNext(fl: seq<Block>, f: nat, i: nat, n: int)
    requires f < |fl| && i < |fl| && f != i && Searched(fl, f, i, n) && fl[i].size < n
    ensures Searched(fl, f, if i + 1 < |fl| then i + 1 else 0, n)
  {}

  lemma SearchedAll(fl: seq<Block>, f: nat, n: int)
    requires f < |fl| && Searched(fl, f, f, n) && fl[f].size < n
    ensures NoFit(fl, n)
  {}

  lemma SearchedNone(fl: seq<Block>, f: nat, n: int)
    requires f < |fl|
    ensures Searched(fl, f, if f + 1 < |fl| then f + 1 else 0, n)
  {}

  class Allocator {
    const base: int
    var mem: map<int, Header>
    var freep: int
    ghost var fl: seq<Block>
    ghost var live: map<int, int>
    ghost var heap: set<int>

    constructor (base: int)
      requires 0 < base
      ensures Valid() && this.base == base && live == map[] && heap == {}
    {
      this.base, this.mem, this.freep := base, map[], 0;
      this.fl, this.live, this.heap := [], map[], {};
    }

    /** freep points into a well-formed ring. */
    ghost predicate Linked()
      reads this
    {
      && 0 < base && Ring(mem, base, fl)
      && (exists f :: 0 <= f < |fl| && freep == fl[f].addr)
    }

    /** Live blocks lie above base and still carry their size. */
    ghost predicate LiveHeaders()
      reads this
    {
      forall a :: a in live ==> base < a && a in mem && mem[a].size == live[a]
    }

    ghost predicate Valid()
      reads this
    {
      && 0 < base
      && (freep != 0 ==> Linked())
      && (freep == 0 ==> fl == [] && live == map[])
      && LiveHeaders()
      && Partition(fl, live, heap)
      && (forall u :: u in heap ==> base < u)
    }

    /** free()'s search: the free block below bp, wherever freep starts. */
    method FindSlot(bp: int, ghost t: nat) returns (p: int)
      requires Linked() && base < bp && Place(fl, t, bp)
      ensures p == fl[t].addr
    {
      hide Separated, Chain, Ring;
      p := freep;
      ghost var k :| 0 <= k < |fl| && freep == fl[k].addr;
      RingAt(mem, base, fl, k);
      while !(bp > p && bp < mem[p].ptr)
        invariant 0 <= k < |fl| && p == fl[k].addr && p in mem
        invariant mem[p].ptr == NextAddr(fl, k, base)
        decreases Around(|fl|, k, t)
      {
        SearchFacts(mem, base, fl, t, bp, k);
        if p >= mem[p].ptr && (bp > p || bp < mem[p].ptr) {
          break;
        }
        p := mem[p].ptr;
        k := if k + 1 < |fl| then k + 1 else 0;
        RingAt(mem, base, fl, k);
      }
      SearchFacts(mem, base, fl, t, bp, k);
    }

    /** The body of free(), for a block that is neither free nor in use by anyone else. */
    method FreeBlock(bp: int, ghost t: nat) returns (ghost f: nat)
      requires Linked() && bp in mem && base < bp
      requires Fits(fl, t, Block(bp, mem[bp].size))
      modifies this`mem, this`freep, this`fl
      ensures Linked() && fl == Coalesce(old(fl), t, Block(bp, old(mem)[bp].size))
      ensures f < |fl| && freep == fl[f].addr && freep != 0
      ensures forall a :: a in old(mem) && a != bp && Avoids(old(fl), a) ==>
                a in mem && mem[a] == old(mem)[a]
    {
      hide Separated, Chain, Fits, Coalesce, Ring, Place;
      ghost var b := Block(bp, mem[bp].size);
      PlaceFacts(fl, t, b);
      var p := FindSlot(bp, t);
      FreeChain(mem, base, fl, t, b);
      var next := mem[p].ptr;
      if bp + mem[bp].size == next {
        mem := mem[bp := Header(mem[next].ptr, mem[bp].size + mem[next].size)];
      } else {
        mem := mem[bp := Header(next, mem[bp].size)];
      }
      assert mem == LinkUp(old(mem), p, bp);
      if p + mem[p].size == bp {
        mem := mem[p := Header(mem[bp].ptr, mem[p].size + mem[bp].size)];
      } else {
        mem := mem[p := Header(bp, mem[p].size)];
      }
      assert mem == LinkDown(LinkUp(old(mem), p, bp), p, bp);
      freep := p;
      fl := Coalesce(fl, t, b);
      f := FreedIndex(old(fl), t, b);
      RingAt(mem, base, fl, f);
    }

    /** free(): gives a live block back. */
    method Free(ap: int)
      requires Valid() && ap - 1 in live
      modifies this`mem, this`freep, this`fl, this`live
      ensures Valid() && live == old(live) - {ap - 1}
      ensures FreeUnits(fl) == FreeUnits(old(fl)) + Block(ap - 1, old(live)[ap - 1]).Units()
      ensures LiveKept(old(mem), mem, live)
    {
      hide Ring, Separated, FreeUnits, Partition, Coalesce, Avoids, Fits;
      var bp := ap - 1;
      ghost var b := Block(bp, mem[bp].size);
      ghost var t := LivePlace(mem, base, fl, live, heap, b);
      ghost var live' := live - {bp};
      FreeEffect(mem, base, fl, live, heap, t, b);
      OthersAvoid(mem, base, fl, live, heap, bp);
      ghost var f := FreeBlock(bp, t);
      live := live';
    }

    /** morecore(); `grant` is what sbrk returns, None for (char*)-1. */
    method MoreCore(nunits: int, grant: Option<int>) returns (ok: bool, ghost f: nat)
      requires Valid() && freep != 0 && 0 < nunits
      requires grant.Some? ==> base < grant.value && forall u :: u in heap ==> u < grant.value
      modifies this`mem, this`freep, this`fl, this`heap
      ensures Valid() && ok == grant.Some?
      ensures !ok ==> mem == old(mem) && fl == old(fl) && heap == old(heap) && freep == old(freep)
      ensures ok ==> f < |fl| && freep == fl[f].addr && freep != 0
      ensures ok ==> !NoFit(fl, nunits)
      ensures ok ==> heap == old(heap) + Granted(grant.value, nunits).Units()
      ensures LiveKept(old(mem), mem, live)
    {
      hide Ring, Separated, FreeUnits, Partition, Coalesce, Avoids, Fits, Block.Units;
      var nu := if nunits < 4096 then 4096 else nunits;
      if grant.None? {
        return false, 0;
      }
      var hp := grant.value;
      ghost var b := Block(hp, nu);
      GrantApart(mem, base, fl, live, heap, b, Header(0, nu));
      mem := mem[hp := Header(0, nu)];
      ghost var t := GrantPlace(old(mem), base, fl, live, heap, b);
      GrantEffect(old(mem), base, fl, live, heap, t, b);
      LiveAvoidGrant(old(mem), base, fl, live, heap, hp);
      f := FreeBlock(hp, t);
      heap := heap + b.Units();
      ok := true;
    }

    /** malloc()'s success branch: takes nunits from free block i and moves freep. */
    method Take(prevp: int, p: int, nunits: int, ghost i: nat) returns (a: int)
      requires Valid() && freep != 0 && 0 < i < |fl|
      requires prevp == fl[i - 1].addr && p == fl[i].addr && 0 < nunits <= fl[i].size
      modifies this`mem, this`freep, this`fl, this`live
      ensures Valid() && a !in old(live) && live == old(live)[a := nunits]
      ensures a == Carved(old(fl), i, nunits).addr && fl == Carve(old(fl), i, nunits)
      ensures LiveKept(old(mem), mem, old(live))
    {
      hide Ring, Separated, Chain, FreeUnits, Partition, Avoids, Carve, LiveAt;
      ghost var b := Carved(fl, i, nunits);
      RingAt(mem, base, fl, i);
      RingAt(mem, base, fl, i - 1);
      CarveEffect(mem, base, fl, live, heap, i, nunits);
      LiveAvoidCarve(mem, base, fl, live, heap, i, nunits);
      if mem[p].size == nunits {
        UnlinkChain(mem, base, fl, i);
        mem := mem[prevp := Header(mem[p].ptr, mem[prevp].size)];
        a := p;
      } else {
        ghost var h := Header(if b.addr in mem then mem[b.addr].ptr else 0, nunits);
        ShrinkChain(mem, base, fl, i, nunits, h);
        mem := mem[p := Header(mem[p].ptr, mem[p].size - nunits)];
        a := p + mem[p].size;
        mem := mem[a := Header(if a in mem then mem[a].ptr else 0, nunits)];
      }
      freep := prevp;
      fl := Carve(fl, i, nunits);
      live := live[a := nunits];
    }

    /** The lazy set-up of the empty list on the first call. */
    method InitList()
      requires Valid()
      modifies this`mem, this`freep, this`fl
      ensures Valid() && freep != 0
      ensures old(freep) != 0 ==> fl == old(fl) && mem == old(mem) && freep == old(freep)
      ensures old(freep) == 0 ==> old(fl) == [] && fl == [Block(base, 0)]
      ensures LiveKept(old(mem), mem, live)
    {
      if freep == 0 {
        mem := mem[base := Header(base, 0)];
        freep := base;
        fl := [Block(base, 0)];
        assert freep == fl[0].addr;
        assert FreeUnits(fl) == {};
      }
    }

    /** One round of malloc()'s loop from freep: the first block that fits, or back at freep. */
    method Search(nunits: int) returns (found: bool, prevp: int, p: int, ghost i: nat)
      requires Valid() && freep != 0 && 0 < nunits
      ensures !found ==> NoFit(fl, nunits)
      ensures found ==> 0 < i < |fl| && prevp == fl[i - 1].addr && p == fl[i].addr && nunits <= fl[i].size
    {
      hide Ring, Separated, FreeUnits, Partition, Block.Units, NoFit, Searched, LiveHeaders;
      prevp := freep;
      ghost var f :| 0 <= f < |fl| && freep == fl[f].addr;
      RingAt(mem, base, fl, f);
      i := if f + 1 < |fl| then f + 1 else 0;
      BaseFirst(mem, base, fl);
      SearchedNone(fl, f, nunits);
      p := mem[prevp].ptr;
      while true
        invariant 0 <= f < |fl| && 0 <= i < |fl| && freep == fl[f].addr && p == fl[i].addr
        invariant prevp == fl[if i == 0 then |fl| - 1 else i - 1].addr
        invariant Searched(fl, f, i, nunits)
        decreases if f < i then |fl| - i + f else f - i
      {
        RingAt(mem, base, fl, i);
        if mem[p].size >= nunits {
          return true, prevp, p, i;
        }
        if p == freep {
          SameIndex(mem, base, fl, f, i);
          SearchedAll(fl, f, nunits);
          return false, prevp, p, i;
        }
        SearchedNext(fl, f, i, nunits);
        prevp := p;
        p := mem[p].ptr;
        i := if i + 1 < |fl| then i + 1 else 0;
      }
    }

    /**
      malloc(); `grant` is what sbrk returns if it comes to that. After morecore the loop goes
      round once more, and then finds a block.
     */
    method Malloc(nbytes: nat, grant: Option<int>) returns (r: Option<int>)
      requires Valid()
      requires grant.Some? ==> base < grant.value && forall u :: u in heap ==> u < grant.value
      modifies this
      ensures Valid()
      ensures r.Some? ==>
                r.value - 1 !in old(live) && live == old(live)[r.value - 1 := Units(nbytes)]
      ensures r.None? ==> grant.None? && live == old(live) && heap == old(heap)
      ensures heap == old(heap) ||
              (grant.Some? && NoFit(old(fl), Units(nbytes))
               && heap == old(heap) + Granted(grant.value, Units(nbytes)).Units())
      ensures r.None? ==> NoFit(old(fl), Units(nbytes))
      ensures LiveKept(old(mem), mem, old(live))
    {
      hide LiveKept;
      hide Valid, Linked, Block.Units, Carve, Carved, NoFit, Units;
      var nunits := Units(nbytes);
      UnitsPositive(nbytes);
      InitList();
      InitFit(old(fl), fl, nunits);
      ghost var m1 := mem;
      ghost var i;
      var found, prevp, p;
      found, prevp, p, i := Search(nunits);
      if !found {
        var ok;
        ghost var f;
        ok, f := MoreCore(nunits, grant);
        LiveKeptTrans(old(mem), m1, mem, live);
        if !ok {
          return None;
        }
        found, prevp, p, i := Search(nunits);
        assert found;
      }
      m1 := mem;
      p := Take(prevp, p, nunits, i);
      LiveKeptTrans(old(mem), m1, mem, old(live));
      r := Some(p + 1);
    }
  }

  lemma UnitsPositive(nbytes: nat)
    ensures Units(nbytes) > 0
  {}

  lemma PlaceFacts(fl: seq<Block>, t: nat, b: Block)
    requires Fits(fl, t, b)
    ensures t < |fl| && Place(fl, t, b.addr)
  {}

  /** Block k is the one the search is after exactly when the loop stops at it. */
  lemma SearchFacts(mem: map<int, Header>, base: int, fl: seq<Block>, t: nat, a: int, k: nat)
    requires Ring(mem, base, fl) && Place(fl, t, a) && k < |fl| && base < a
    ensures var p, next := fl[k].addr, NextAddr(fl, k, base);
            (p < a < next || (p >= next && (a > p || a < next))) <==> k == t
    ensures k != t ==> Around(|fl|, if k + 1 < |fl| then k + 1 else 0, t) < Around(|fl|, k, t)
    ensures k + 1 == |fl| ==> NextAddr(fl, k, base) == fl[0].addr
  {
    RingAt(mem, base, fl, k);
  }

  /** free() leaves freep on the block just below, or merged with, the freed one. */
  lemma FreedIndex(fl: seq<Block>, t: nat, b: Block) returns (f: nat)
    requires t < |fl|
    ensures f < |Coalesce(fl, t, b)| && Coalesce(fl, t, b)[f].addr == fl[t].addr
  {
    f := t;
  }

  // ---------------------------------------------------------------------------------
  // Facts the methods above need, on values
  // ---------------------------------------------------------------------------------

  lemma LivePlace(mem: map<int, Header>, base: int, fl: seq<Block>, live: map<int, int>,
                  heap: set<int>, b: Block) returns (t: nat)
    requires Ring(mem, base, fl) && Partition(fl, live, heap) && base < b.addr
    requires b.addr in live && live[b.addr] == b.size
    ensures Fits(fl, t, b)
  {
    hide FreeUnits, Separated;
    forall u | u in b.Units() ensures u !in FreeUnits(fl) {
      assert LiveAt(live, u);
    }
    UnitsAvoid(fl, base, b);
    t := FindPlace(fl, b.addr, |fl| - 1);
    FitsFromUnits(fl, t, b);
  }

  lemma FreeEffect(mem: map<int, Header>, base: int, fl: seq<Block>, live: map<int, int>,
                   heap: set<int>, t: nat, b: Block)
    requires Ring(mem, base, fl) && Partition(fl, live, heap) && Fits(fl, t, b) && base < b.addr
    requires b.addr in live && live[b.addr] == b.size
    ensures FreeUnits(Coalesce(fl, t, b)) == FreeUnits(fl) + b.Units()
    ensures Partition(Coalesce(fl, t, b), live - {b.addr}, heap)
    ensures forall a :: a in live && base < a ==> Avoids(fl, a)
  {
    hide FreeUnits, Separated, Coalesce, Avoids;
    CoalesceUnits(fl, t, b);
    FreePartition(fl, Coalesce(fl, t, b), live, heap, b);
    LiveAvoids(mem, base, fl, live, heap);
  }

  lemma LiveAvoids(mem: map<int, Header>, base: int, fl: seq<Block>, live: map<int, int>, heap: set<int>)
    requires Ring(mem, base, fl) && Partition(fl, live, heap)
    ensures forall a :: a in live && base < a ==> Avoids(fl, a)
  {
    forall a | a in live && base < a ensures Avoids(fl, a) {
      hide FreeUnits;
      forall i | 0 <= i < |fl| ensures fl[i].addr != a {
        assert LiveAt(live, a);
        InFreeUnits(fl, fl[i].addr);
      }
    }
  }

  lemma GrantApart(mem: map<int, Header>, base: int, fl: seq<Block>, live: map<int, int>,
                   heap: set<int>, b: Block, h: Header)
    requires Ring(mem, base, fl) && Partition(fl, live, heap)
    requires base < b.addr && 0 < b.size && forall u :: u in heap ==> u < b.addr
    ensures b.Units() !! heap && b.addr !in live && Avoids(fl, b.addr)
    ensures Ring(mem[b.addr := h], base, fl)
    ensures forall u :: u in b.Units() ==> base < u
  {
    hide FreeUnits;
    assert b.Units() !! FreeUnits(fl);
    UnitsAvoid(fl, base, b);
    assert b.addr in live ==> LiveAt(live, b.addr);
    ChainUpdate(mem, fl, base, b.addr, h);
  }

  lemma GrantPlace(mem: map<int, Header>, base: int, fl: seq<Block>, live: map<int, int>,
                   heap: set<int>, b: Block) returns (t: nat)
    requires Ring(mem, base, fl) && Partition(fl, live, heap)
    requires base < b.addr && 0 < b.size && b.Units() !! heap
    ensures Fits(fl, t, b)
  {
    hide FreeUnits, Separated;
    assert b.Units() !! FreeUnits(fl);
    UnitsAvoid(fl, base, b);
    t := FindPlace(fl, b.addr, |fl| - 1);
    FitsFromUnits(fl, t, b);
  }

  lemma GrantEffect(mem: map<int, Header>, base: int, fl: seq<Block>, live: map<int, int>,
                    heap: set<int>, t: nat, b: Block)
    requires Ring(mem, base, fl) && Partition(fl, live, heap) && Fits(fl, t, b) && b.Units() !! heap
    ensures Partition(Coalesce(fl, t, b), live, heap + b.Units())
    ensures exists j :: 0 <= j < |Coalesce(fl, t, b)| && Coalesce(fl, t, b)[j].size >= b.size
    ensures forall a :: a in live && base < a ==> Avoids(fl, a)
  {
    hide FreeUnits, Avoids;
    CoalesceUnits(fl, t, b);
    GrowPartition(fl, Coalesce(fl, t, b), live, heap, b);
    LiveAvoids(mem, base, fl, live, heap);
    CoalesceHolds(fl, t, b);
  }

  lemma CoalesceHolds(fl: seq<Block>, t: nat, b: Block)
    requires Separated(fl) && t < |fl|
    ensures exists j :: 0 <= j < |Coalesce(fl, t, b)| && Coalesce(fl, t, b)[j].size >= b.size
  {
    SizesNonNegative(fl);
    var j := if fl[t].End() == b.addr then t else t + 1;
    assert Coalesce(fl, t, b)[j].size >= b.size;
  }

  lemma CarveEffect(mem: map<int, Header>, base: int, fl: seq<Block>, live: map<int, int>,
                    heap: set<int>, i: nat, n: int)
    requires Ring(mem, base, fl) && Partition(fl, live, heap)
    requires 0 < i < |fl| && 0 < n <= fl[i].size
    ensures var b, r := Carved(fl, i, n), Carve(fl, i, n);
            && b.addr !in live && base < b.addr
            && Partition(r, live[b.addr := n], heap)
            && i - 1 < |r| && r[i - 1].addr == fl[i - 1].addr
    ensures fl[i].size == n ==> Carve(fl, i, n) == fl[..i] + fl[i + 1..]
    ensures forall a :: a in live && base < a ==> a != fl[i].addr && a != fl[i - 1].addr
  {
    RingAt(mem, base, fl, i);
    LiveAvoids(mem, base, fl, live, heap);
    CarveUnits(fl, i, n);
    hide FreeUnits, Separated;
    MallocPartition(fl, Carve(fl, i, n), live, heap, Carved(fl, i, n));
  }

  lemma InitFit(fl: seq<Block>, fl': seq<Block>, n: int)
    requires fl' == fl || fl == []
    ensures NoFit(fl', n) ==> NoFit(fl, n)
  {}

  lemma BaseFirst(mem: map<int, Header>, base: int, fl: seq<Block>)
    requires Ring(mem, base, fl)
    ensures fl != [] && fl[0] == Block(base, 0)
  {}

  lemma SameIndex(mem: map<int, Header>, base: int, fl: seq<Block>, f: nat, i: nat)
    requires Ring(mem, base, fl) && f < |fl| && i < |fl| && fl[f].addr == fl[i].addr
    ensures f == i
  {}

  /**
    Whatever sequence of malloc and free calls led here, the free list is a function of the
    heap and the live blocks: it is their complement cut into maximal runs.
   */
  lemma FreeListDetermined(f: seq<Block>, g: seq<Block>, base: int, live: map<int, int>, heap: set<int>)
    requires f != [] && g != [] && f[0] == g[0] == Block(base, 0)
    requires Separated(f) && Separated(g)
    requires Partition(f, live, heap) && Partition(g, live, heap)
    ensures f == g
  {
    forall u ensures u in FreeUnits(f) <==> u in FreeUnits(g) {
      assert u in heap <==> u in FreeUnits(f) || LiveAt(live, u);
      assert u in heap <==> u in FreeUnits(g) || LiveAt(live, u);
    }
    TailUnits(f);
    TailUnits(g);
    Canonical(f[1..], g[1..]);
    assert f == [f[0]] + f[1..] && g == [g[0]] + g[1..];
  }
}
