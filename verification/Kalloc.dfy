/**
  kernel/kalloc.c: the free list kept in the first word of the free pages themselves. `free`
  is the list it stands for.
 */
module Kalloc {
  import opened Basics

  const PGSIZE: nat := 4096
  const WORDS: nat := 512

  /** A page of memory, in 64-bit words. */
  type Page = p: seq<int> | |p| == 512 witness seq(512, _ => 0)

  /** A page filled by memset with one byte value. */
  function Filled(byte: int): (p: Page) { seq(512, _ => byte * 0x0101_0101_0101_0101) }

  /** Following the first words from `head` visits exactly `free`, and ends in null. */
  ghost predicate Chain(mem: map<int, Page>, head: int, free: seq<int>)
    decreases |free|
  {
    if free == [] then head == 0
    else head == free[0] && head != 0 && head in mem && Chain(mem, mem[head][0], free[1..])
  }

  /** Whatever is done to other pages leaves the list alone. */
  lemma {:induction false} ChainKept(mem: map<int, Page>, mem': map<int, Page>, head: int, free: seq<int>)
    requires Chain(mem, head, free) && forall p :: p in free ==> p in mem' && (p in mem ==> mem'[p] == mem[p])
    ensures Chain(mem', head, free)
    decreases |free|
  {
    if free != [] {
      assert free[0] in free;
      assert forall p :: p in free[1..] ==> p in free;
      ChainKept(mem, mem', mem[head][0], free[1..]);
    }
  }

  /** One memory and one head stand for one list only. */
  lemma {:induction false} ChainDetermined(mem: map<int, Page>, head: int, f: seq<int>, g: seq<int>)
    requires Chain(mem, head, f) && Chain(mem, head, g)
    ensures f == g
    decreases |f|
  {
    if f != [] {
      ChainDetermined(mem, mem[head][0], f[1..], g[1..]);
      assert f == [f[0]] + f[1..] && g == [g[0]] + g[1..];
    }
  }

  function PageRoundUp(a: nat): (r: nat)
    ensures r % PGSIZE == 0 && a <= r < a + PGSIZE
  {
    (a + PGSIZE - 1) / PGSIZE * PGSIZE
  }

  /** A whole page of [start, stop). */
  predicate PageIn(a: int, start: nat, stop: nat) { a % PGSIZE == 0 && PageRoundUp(start) <= a && a + PGSIZE <= stop }

  /** The whole pages below p + PGSIZE are those below p, and p. */
  lemma NextPage(start: nat, stop: nat, p: int)
    requires p % PGSIZE == 0
    ensures forall a :: PageIn(a, start, stop) && a < p + PGSIZE ==> a < p || a == p
    ensures (p + PGSIZE) % PGSIZE == 0
  {
    hide PageRoundUp;
  }

  lemma OneMore(f: seq<int>, f': seq<int>, p: int)
    requires f' == [p] + f
    ensures forall a :: a in f' <==> a == p || a in f
  {}

  class Kmem {
    const end: nat
    const phystop: nat
    var mem: map<int, Page>
    var freelist: int
    ghost var free: seq<int>

    ghost predicate Valid()
      reads this
    {
      && 0 < end && NoDup(free) && Chain(mem, freelist, free)
      && (forall p :: p in free ==> p % PGSIZE == 0 && end <= p < phystop)
      && (forall p :: p % PGSIZE == 0 && end <= p < phystop ==> p in mem)
    }

    /** kinit(): every whole page from end to PHYSTOP is free. */
    constructor (end: nat, phystop: nat, mem: map<int, Page>)
      requires 0 < end && forall p :: p % PGSIZE == 0 && end <= p < phystop ==> p in mem
      ensures Valid() && this.end == end && this.phystop == phystop
      ensures forall a :: a in free <==> PageIn(a, end, phystop)
    {
      this.end, this.phystop, this.mem, this.freelist, this.free := end, phystop, mem, 0, [];
      new;
      Freerange(end, phystop);
    }

    /** kfree(): false where it panics. Freeing a page twice is the caller's error. */
    method Kfree(pa: int) returns (ok: bool)
      requires Valid() && pa !in free
      modifies this`mem, this`freelist, this`free
      ensures Valid() && (ok <==> pa % PGSIZE == 0 && end <= pa < phystop)
      ensures free == if ok then [pa] + old(free) else old(free)
      ensures forall p :: p in old(mem) && p != pa ==> p in mem && mem[p] == old(mem)[p]
    {
      if pa % PGSIZE != 0 || pa < end || pa >= phystop {
        return false;
      }
      ghost var mem0 := mem;
      mem := mem[pa := Filled(1)];
      mem := mem[pa := mem[pa][0 := freelist]];
      ChainKept(mem0, mem, freelist, free);
      freelist := pa;
      free := [pa] + free;
      assert free[1..] == old(free);
      ok := true;
    }

    /** kalloc(): 0 exactly when the list is empty. */
    method Kalloc() returns (r: int)
      requires Valid()
      modifies this`mem, this`freelist, this`free
      ensures Valid() && (r == 0 <==> old(free) == [])
      ensures r == 0 ==> free == [] && mem == old(mem)
      ensures r != 0 ==> r == old(free)[0] && free == old(free)[1..] && r !in free && r in mem && mem[r] == Filled(5)
      ensures forall p :: p in old(mem) && p != r ==> p in mem && mem[p] == old(mem)[p]
    {
      r := freelist;
      if r != 0 {
        assert free != [] && free[0] == r;
        assert free == [r] + free[1..];
        assert forall p :: p in free <==> p == r || p in free[1..];
        freelist := mem[r][0];
        free := free[1..];
        ghost var mem0 := mem;
        mem := mem[r := Filled(5)];
        ChainKept(mem0, mem, freelist, free);
      }
    }

    /** The owner of an allocated page may write anything into it. */
    method Store(pa: int, i: nat, w: int)
      requires Valid() && pa in mem && pa !in free && i < WORDS
      modifies this`mem
      ensures Valid() && mem == old(mem)[pa := old(mem)[pa][i := w]]
    {
      ghost var mem0 := mem;
      mem := mem[pa := mem[pa][i := w]];
      ChainKept(mem0, mem, freelist, free);
    }

    /** freerange(): each whole page of the range goes on the list once, and nothing else does. */
    method Freerange(start: nat, stop: nat)
      requires Valid() && end <= start && stop <= phystop && forall p :: p in free ==> !PageIn(p, start, stop)
      modifies this`mem, this`freelist, this`free
      ensures Valid() && forall a :: a in free <==> a in old(free) || PageIn(a, start, stop)
    {
      hide Chain, NoDup, PageRoundUp;
      var p := PageRoundUp(start);
      while p + PGSIZE <= stop
        invariant Valid() && p % PGSIZE == 0 && PageRoundUp(start) <= p
        invariant forall a :: a in free <==> a in old(free) || (PageIn(a, start, stop) && a < p)
        decreases stop - p
      {
        assert PageIn(p, start, stop);
        ghost var f := free;
        var ok := Kfree(p);
        NextPage(start, stop, p);
        OneMore(f, free, p);
        p := p + PGSIZE;
      }
    }
  }
}
