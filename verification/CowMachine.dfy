/**
  Copy-on-write fork (kernel/cow.c) against eager copying. `State` has shared physical
  pages behind per-process page tables; `Eager` gives every process private pages.
 */
module CowMachine {

  const PGSIZE: nat := 4096

  type Page = p: seq<int> | |p| == PGSIZE witness seq(PGSIZE, _ => 0)

  /** A leaf entry: page address, write bit, remaining flag bits. */
  datatype Pte = Pte(pa: int, w: bool, rest: int)

  type Table = map<int, Pte>

  /** `sz` in pages; `cow` the processes with cow_enabled set. */
  datatype State = State(phys: map<int, Page>, pt: map<int, Table>, sz: map<int, nat>, cow: set<int>)

  datatype Event =
    | Fork(p: int, child: int)
    | Load(p: int, page: int, off: nat)
    | Store(p: int, page: int, off: nat, v: int, spare: int)
    | KernelStore(p: int, page: int, off: nat, v: int) // one byte of a copyout

  // ---------------------------------------------------------------------------------
  // Copy on write
  // ---------------------------------------------------------------------------------

  ghost predicate Mapped(s: State, p: int, i: int) { p in s.pt && i in s.pt[p] }

  /** `pa` is free: kalloc only returns pages no page table refers to. */
  ghost predicate Unmapped(s: State, pa: int) {
    forall p, i :: Mapped(s, p, i) ==> s.pt[p][i].pa != pa
  }

  ghost predicate Enabled(s: State, e: Event) {
    match e
    case Fork(p, child) =>
      && p in s.pt && p in s.sz && child !in s.pt && child !in s.sz
      && (forall i :: 0 <= i < s.sz[p] ==> i in s.pt[p]) // otherwise uvmcopy_cow panics
    case Load(p, page, off) => Mapped(s, p, page) && s.pt[p][page].pa in s.phys && off < PGSIZE
    case KernelStore(p, page, off, _) => Mapped(s, p, page) && s.pt[p][page].pa in s.phys && off < PGSIZE
    case Store(p, page, off, _, spare) =>
      && Mapped(s, p, page) && s.pt[p][page].pa in s.phys && off < PGSIZE
      && (!s.pt[p][page].w ==> p in s.cow && Unmapped(s, spare))
  }

  /** uvmcopy_cow's two tables: the write bit goes, the pages stay. */
  function ReadOnly(t: Table, sz: nat): (r: Table) {
    map i | i in t :: if 0 <= i < sz then t[i].(w := false) else t[i]
  }

  function Shared(t: Table, sz: nat): (r: Table) {
    map i | i in t && 0 <= i < sz :: t[i].(w := false)
  }

  function ForkState(s: State, p: int, child: int): (r: State)
    requires p in s.pt && p in s.sz
  {
    var n := s.sz[p];
    s.(pt := s.pt[p := ReadOnly(s.pt[p], n)][child := Shared(s.pt[p], n)],
       sz := s.sz[child := n],
       cow := s.cow + {p, child})
  }

  /** copy_on_write: the faulting page moves to a private, writable copy. */
  function Fault(s: State, p: int, page: int, spare: int): (r: State)
    requires p in s.pt && page in s.pt[p] && s.pt[p][page].pa in s.phys
  {
    var e := s.pt[p][page];
    s.(phys := s.phys[spare := s.phys[e.pa]],
       pt := s.pt[p := s.pt[p][page := Pte(spare, true, e.rest)]])
  }

  function Poke(s: State, p: int, page: int, off: nat, v: int): (r: State)
    requires p in s.pt && page in s.pt[p] && s.pt[p][page].pa in s.phys && off < PGSIZE
  {
    var pa := s.pt[p][page].pa;
    s.(phys := s.phys[pa := s.phys[pa][off := v]])
  }

  /** A store faults first when the page is read-only, and is then retried; the kernel's own store never faults. */
  ghost function Apply(s: State, e: Event): (s': State)
    requires Enabled(s, e)
  {
    match e
    case Fork(p, child) => ForkState(s, p, child)
    case Load(_, _, _) => s
    case KernelStore(p, page, off, v) => Poke(s, p, page, off, v)
    case Store(p, page, off, v, spare) =>
      if s.pt[p][page].w then Poke(s, p, page, off, v)
      else Poke(Fault(s, p, page, spare), p, page, off, v)
  }

  // ---------------------------------------------------------------------------------
  // Eager copying
  // ---------------------------------------------------------------------------------

  /** A page of one process alone: its bytes, and its flag bits apart from the write bit. */
  datatype Private = Private(bytes: Page, flags: int)

  /** Private memories, and which pages the program may write. */
  datatype Eager = Eager(mem: map<int, map<int, Private>>, writable: map<int, set<int>>, sz: map<int, nat>)

  ghost predicate EagerHas(g: Eager, p: int, i: int) {
    p in g.mem && p in g.writable && p in g.sz && i in g.mem[p]
  }

  function Written(m: Private, off: nat, v: int): (r: Private)
    requires off < PGSIZE
  {
    m.(bytes := m.bytes[off := v])
  }

  ghost function EagerApply(g: Eager, e: Event): Eager {
    match e
    case Fork(p, child) =>
      if p in g.mem && p in g.writable && p in g.sz then
        var n := g.sz[p];
        Eager(g.mem[child := map i | i in g.mem[p] && 0 <= i < n :: g.mem[p][i]],
              g.writable[child := set i | i in g.writable[p] && 0 <= i < n],
              g.sz[child := n])
      else g
    case Load(_, _, _) => g
    case KernelStore(p, page, off, v) =>
      if EagerHas(g, p, page) && off < PGSIZE
      then g.(mem := g.mem[p := g.mem[p][page := Written(g.mem[p][page], off, v)]])
      else g
    case Store(p, page, off, v, _) =>
      if EagerHas(g, p, page) && page in g.writable[p] && off < PGSIZE
      then g.(mem := g.mem[p := g.mem[p][page := Written(g.mem[p][page], off, v)]])
      else g // protection fault
  }

  // ---------------------------------------------------------------------------------
  // Simulation
  // ---------------------------------------------------------------------------------

  /** What process p reads at page i. */
  ghost function Sees(s: State, p: int, i: int): (r: Page)
    requires Mapped(s, p, i) && s.pt[p][i].pa in s.phys
  {
    s.phys[s.pt[p][i].pa]
  }

  /** Every mapped page exists. */
  ghost predicate Backed(s: State) {
    forall p, i :: Mapped(s, p, i) ==> s.pt[p][i].pa in s.phys
  }

  /** A page writable through one entry is mapped by no other. */
  ghost predicate Exclusive(s: State) {
    forall p, i, q, j ::
      Mapped(s, p, i) && Mapped(s, q, j) && s.pt[p][i].w && s.pt[p][i].pa == s.pt[q][j].pa
      ==> p == q && i == j
  }

  ghost predicate Inv(s: State) { s.pt.Keys == s.sz.Keys && Backed(s) && Exclusive(s) }

  /** The same processes, pages, bytes and permissions other than W. */
  ghost predicate Sim(s: State, g: Eager) {
    && Backed(s)
    && g.mem.Keys == g.writable.Keys == g.sz.Keys == s.pt.Keys && g.sz == s.sz
    && (forall p, i :: Mapped(s, p, i) <==> EagerHas(g, p, i))
    && (forall p, i :: Mapped(s, p, i) ==> Private(Sees(s, p, i), s.pt[p][i].rest) == g.mem[p][i])
  }

  lemma ForkInv(s: State, p: int, child: int)
    requires Inv(s) && Enabled(s, Fork(p, child))
    ensures Inv(ForkState(s, p, child))
  {
    hide ForkState;
    var s' := ForkState(s, p, child);
    assert s'.pt.Keys == s'.sz.Keys && s'.phys == s.phys by { ForkKeys(s, p, child); }
    forall q, i | Mapped(s', q, i) ensures s'.pt[q][i].pa in s'.phys { ForkEntry(s, p, child, s', q, i); }
    assert Exclusive(s') by {
      forall q, i, r, j | Mapped(s', q, i) && Mapped(s', r, j) && s'.pt[q][i].w && s'.pt[q][i].pa == s'.pt[r][j].pa
        ensures q == r && i == j
      {
        ForkEntry(s, p, child, s', q, i);
        ForkEntry(s, p, child, s', r, j);
      }
    }
  }

  /** An entry after the fork is an entry before it, of p where the process is new, perhaps without W. */
  lemma ForkEntry(s: State, p: int, child: int, s': State, q: int, i: int)
    requires Enabled(s, Fork(p, child)) && s' == ForkState(s, p, child) && Mapped(s', q, i)
    ensures var was := if q == child then p else q;
            && Mapped(s, was, i) && s'.pt[q][i].pa == s.pt[was][i].pa
            && (s'.pt[q][i].w ==> q != child && s.pt[q][i].w && !(q == p && 0 <= i < s.sz[p]))
            && (q == child ==> 0 <= i < s.sz[p])
  {}

  lemma ForkKeys(s: State, p: int, child: int)
    requires s.pt.Keys == s.sz.Keys && p in s.pt
    ensures var s' := ForkState(s, p, child); s'.pt.Keys == s'.sz.Keys && s'.phys == s.phys
  {}

  /** After fork, each entry is an old entry, the parent's ones below sz without W. */
  lemma ForkMapped(s: State, p: int, child: int)
    requires Enabled(s, Fork(p, child))
    ensures var s' := ForkState(s, p, child); var n := s.sz[p];
            forall q, i :: Mapped(s', q, i) <==>
              if q == child then Mapped(s, p, i) && 0 <= i < n else Mapped(s, q, i)
    ensures var s' := ForkState(s, p, child); var n := s.sz[p];
            forall q, i :: Mapped(s', q, i) ==>
              s'.pt[q][i] == if q == child then s.pt[p][i].(w := false)
                             else if q == p && 0 <= i < n then s.pt[p][i].(w := false)
                             else s.pt[q][i]
  {}

  lemma FaultInv(s: State, p: int, page: int, spare: int)
    requires Inv(s) && Mapped(s, p, page) && Unmapped(s, spare)
    ensures Inv(Fault(s, p, page, spare))
    ensures var s' := Fault(s, p, page, spare);
            && (forall q, i :: Mapped(s', q, i) <==> Mapped(s, q, i))
            && (forall q, i :: Mapped(s, q, i) ==> Sees(s', q, i) == Sees(s, q, i))
            && (forall q, i :: Mapped(s, q, i) ==> s'.pt[q][i].rest == s.pt[q][i].rest)
            && (forall q, i :: Mapped(s, q, i) && !(q == p && i == page) ==> s'.pt[q][i] == s.pt[q][i])
            && s'.pt[p][page].w && s'.pt[p][page].pa == spare
  {
    var s' := Fault(s, p, page, spare);
    assert forall q, i :: Mapped(s', q, i) <==> Mapped(s, q, i);
    assert forall q, i :: Mapped(s, q, i) && !(q == p && i == page) ==> s'.pt[q][i] == s.pt[q][i];
  }

  /** Writing through an exclusive entry changes what that entry shows, and nothing else. */
  lemma PokeInv(s: State, p: int, page: int, off: nat, v: int)
    requires Inv(s) && Mapped(s, p, page) && s.pt[p][page].w && off < PGSIZE
    ensures Inv(Poke(s, p, page, off, v))
    ensures var s' := Poke(s, p, page, off, v);
            && (forall q, i :: Mapped(s', q, i) <==> Mapped(s, q, i))
            && (forall q, i :: Mapped(s, q, i) ==>
                  Sees(s', q, i) == if q == p && i == page then Sees(s, p, page)[off := v]
                                    else Sees(s, q, i))
            && s'.pt == s.pt
  {
    var s' := Poke(s, p, page, off, v);
    assert s'.pt == s.pt;
  }

  // ---------------------------------------------------------------------------------
  // Stores by the kernel
  // ---------------------------------------------------------------------------------

  /** No other entry, of this process or another, refers to the frame. */
  ghost predicate Alone(s: State, p: int, page: int)
    requires Mapped(s, p, page)
  {
    forall q, j :: Mapped(s, q, j) && s.pt[q][j].pa == s.pt[p][page].pa ==> q == p && j == page
  }

  /** The byte appears in every page that shares the frame. */
  lemma KernelEffect(s: State, e: Event)
    requires Inv(s) && Enabled(s, e) && e.KernelStore?
    ensures Inv(Apply(s, e)) && Apply(s, e).sz == s.sz && Apply(s, e).pt == s.pt
    ensures forall q, i :: Mapped(s, q, i) ==>
              Sees(Apply(s, e), q, i) == if s.pt[q][i].pa == s.pt[e.p][e.page].pa
                                         then Sees(s, q, i)[e.off := e.v] else Sees(s, q, i)
  {
    var s' := Apply(s, e);
    assert s'.pt == s.pt && s'.sz == s.sz;
    forall q, i | Mapped(s', q, i) ensures s'.pt[q][i].pa in s'.phys { assert Mapped(s, q, i); }
    forall p, i, q, j | Mapped(s', p, i) && Mapped(s', q, j) && s'.pt[p][i].w && s'.pt[p][i].pa == s'.pt[q][j].pa
      ensures p == q && i == j
    {
      assert Mapped(s, p, i) && Mapped(s, q, j);
    }
  }

  /**
    copyout leaves every other page of every process alone if and only if the frame is
    mapped once, or nothing changes.
   */
  lemma KernelIsolatedIff(s: State, e: Event)
    requires Inv(s) && Enabled(s, e) && e.KernelStore?
    ensures Inv(Apply(s, e)) && Apply(s, e).pt == s.pt
    ensures (forall q, i :: Mapped(s, q, i) && (q != e.p || i != e.page) ==> Sees(Apply(s, e), q, i) == Sees(s, q, i))
            <==> Alone(s, e.p, e.page) || Sees(s, e.p, e.page)[e.off] == e.v
  {
    hide Apply, Exclusive;
    KernelEffect(s, e);
    var s' := Apply(s, e);
    var was := Sees(s, e.p, e.page);
    if was[e.off] == e.v {
      assert was[e.off := e.v] == was;
    } else if !Alone(s, e.p, e.page) {
      var q, j :| Mapped(s, q, j) && s.pt[q][j].pa == s.pt[e.p][e.page].pa && !(q == e.p && j == e.page);
      assert Sees(s, q, j) == was && Sees(s', q, j)[e.off] == e.v;
    }
  }

  lemma EagerKernel(s: State, g: Eager, e: Event)
    requires Sim(s, g) && Enabled(s, e) && e.KernelStore?
    ensures EagerHas(g, e.p, e.page) && Sees(s, e.p, e.page) == g.mem[e.p][e.page].bytes
    ensures var g' := EagerApply(g, e);
            && g'.mem.Keys == g.mem.Keys && g'.writable == g.writable && g'.sz == g.sz
            && (forall q, i :: EagerHas(g', q, i) <==> EagerHas(g, q, i))
            && (forall q, i :: EagerHas(g, q, i) ==>
                  g'.mem[q][i] == if q == e.p && i == e.page then Written(g.mem[q][i], e.off, e.v) else g.mem[q][i])
  {}

  /** Against eager copying: the two stay in step exactly under the same condition. */
  lemma KernelSimIff(s: State, g: Eager, e: Event)
    requires Inv(s) && Sim(s, g) && Enabled(s, e) && e.KernelStore?
    ensures Sim(Apply(s, e), EagerApply(g, e)) <==> Alone(s, e.p, e.page) || Sees(s, e.p, e.page)[e.off] == e.v
  {
    hide Apply, EagerApply, Enabled, Exclusive;
    KernelMapped(s, e);
    KernelEffect(s, e);
    KernelIsolatedIff(s, e);
    EagerKernel(s, g, e);
    var s', g' := Apply(s, e), EagerApply(g, e);
    assert forall q, i :: Mapped(s', q, i) <==> Mapped(s, q, i);
    if Sim(s', g') {
      forall q, i | Mapped(s, q, i) && (q != e.p || i != e.page) ensures Sees(s', q, i) == Sees(s, q, i) {
        assert Mapped(s', q, i) && EagerHas(g, q, i);
      }
    }
  }

  lemma KernelMapped(s: State, e: Event)
    requires Enabled(s, e) && e.KernelStore?
    ensures Mapped(s, e.p, e.page) && s.pt[e.p][e.page].pa in s.phys && e.off < PGSIZE
  {}

  lemma StepInv(s: State, e: Event)
    requires Inv(s) && Enabled(s, e)
    ensures Inv(Apply(s, e))
  {
    match e
    case Fork(p, child) => ForkInv(s, p, child);
    case Load(_, _, _) =>
    case KernelStore(_, _, _, _) => KernelEffect(s, e);
    case Store(p, page, off, v, spare) =>
      if s.pt[p][page].w { PokeInv(s, p, page, off, v); }
      else {
        FaultInv(s, p, page, spare);
        PokeInv(Fault(s, p, page, spare), p, page, off, v);
      }
  }

  /**
    A store, faulting or not, puts one byte in one page of one process. No entry loses a
    permission; only the stored-to entry may change, to a writable one of a fresh page.
   */
  lemma StoreEffect(s: State, e: Event)
    requires Inv(s) && Enabled(s, e) && e.Store?
    ensures Backed(Apply(s, e)) && Apply(s, e).sz == s.sz && Apply(s, e).pt.Keys == s.pt.Keys
    ensures forall q, i :: Mapped(Apply(s, e), q, i) <==> Mapped(s, q, i)
    ensures forall q, i :: Mapped(s, q, i) ==>
              Sees(Apply(s, e), q, i) == if q == e.p && i == e.page
                                         then Sees(s, q, i)[e.off := e.v] else Sees(s, q, i)
    ensures forall q, i :: Mapped(s, q, i) ==>
              && Apply(s, e).pt[q][i].rest == s.pt[q][i].rest
              && (q != e.p || i != e.page || s.pt[q][i].w ==> Apply(s, e).pt[q][i] == s.pt[q][i])
    ensures Mapped(s, e.p, e.page) && Apply(s, e).pt[e.p][e.page].w
    ensures !s.pt[e.p][e.page].w ==> Apply(s, e).pt[e.p][e.page].pa == e.spare
  {
    var Store(p, page, off, v, spare) := e;
    if s.pt[p][page].w { PokeInv(s, p, page, off, v); }
    else {
      FaultInv(s, p, page, spare);
      PokeInv(Fault(s, p, page, spare), p, page, off, v);
    }
  }

  lemma ForkSim(s: State, g: Eager, p: int, child: int)
    requires Inv(s) && Sim(s, g) && Enabled(s, Fork(p, child))
    ensures Sim(ForkState(s, p, child), EagerApply(g, Fork(p, child)))
  {
    var s', g' := ForkState(s, p, child), EagerApply(g, Fork(p, child));
    ForkInv(s, p, child);
    ForkMapped(s, p, child);
    forall q, i ensures Mapped(s', q, i) <==> EagerHas(g', q, i) {
      assert Mapped(s, q, i) <==> EagerHas(g, q, i);
      assert Mapped(s, p, i) <==> EagerHas(g, p, i);
    }
    forall q, i | Mapped(s', q, i) ensures Private(Sees(s', q, i), s'.pt[q][i].rest) == g'.mem[q][i] {
      if q == child {
        assert Sees(s', q, i) == Sees(s, p, i);
        assert EagerHas(g', q, i);
      } else {
        assert Sees(s', q, i) == Sees(s, q, i);
      }
    }
  }

  /** A store to a page the program may write keeps the simulation. */
  lemma StoreSim(s: State, g: Eager, e: Event)
    requires Inv(s) && Sim(s, g) && Enabled(s, e) && e.Store?
    requires e.p in g.writable && e.page in g.writable[e.p]
    ensures Sim(Apply(s, e), EagerApply(g, e))
  {
    hide Enabled, Apply, Inv;
    StoreEffect(s, e);
    var s', g' := Apply(s, e), EagerApply(g, e);
    assert Mapped(s, e.p, e.page) by { StoreMapped(s, e); }
    assert EagerHas(g, e.p, e.page) && e.off < PGSIZE by { StoreMapped(s, e); }
    assert g' == g.(mem := g.mem[e.p := g.mem[e.p][e.page := Written(g.mem[e.p][e.page], e.off, e.v)]]);
    assert g'.mem.Keys == g.mem.Keys;
    forall q, i ensures EagerHas(g', q, i) <==> EagerHas(g, q, i) {}
  }

  lemma StoreMapped(s: State, e: Event)
    requires Enabled(s, e) && e.Store?
    ensures Mapped(s, e.p, e.page) && e.off < PGSIZE
  {}

  /**
    What becomes of a store to a page the program may not write. Eager copying refuses it.
    After fork(1) the write bit of every page is gone, so the fault handler cannot tell, and
    the store goes through, to a private copy. The two therefore agree exactly when the
    byte was there already.
   */
  lemma ForbiddenStore(s: State, g: Eager, e: Event)
    requires Inv(s) && Sim(s, g) && Enabled(s, e) && e.Store?
    requires e.p in g.writable && e.page !in g.writable[e.p]
    ensures EagerApply(g, e) == g
    ensures Mapped(s, e.p, e.page) && e.off < PGSIZE
    ensures Sim(Apply(s, e), g) <==> Sees(s, e.p, e.page)[e.off] == e.v
    ensures forall q, i :: Mapped(s, q, i) && (q != e.p || i != e.page) ==>
              Mapped(Apply(s, e), q, i) && Apply(s, e).pt[q][i].pa in Apply(s, e).phys
              && Sees(Apply(s, e), q, i) == Sees(s, q, i)
  {
    StoreMapped(s, e);
    StoreEffect(s, e);
    hide Enabled, Apply;
    var s' := Apply(s, e);
    var before := Sees(s, e.p, e.page);
    assert before == g.mem[e.p][e.page].bytes;
    assert Sees(s', e.p, e.page) == before[e.off := e.v];
    if before[e.off] == e.v {
      assert before[e.off := e.v] == before;
      assert Sim(s', g);
    } else {
      assert Sees(s', e.p, e.page)[e.off] != before[e.off];
      assert Mapped(s', e.p, e.page);
    }
  }
}
