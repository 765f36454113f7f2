/**
  Whole runs of fork(1), loads, stores and write faults, and the code of kernel/cow.c that
  rewrites page tables entry by entry.
 */
module Cow {
  import opened CowMachine

  ghost predicate IsRun(run: seq<State>, ev: seq<Event>) {
    && |run| == |ev| + 1
    && Inv(run[0])
    && (forall i :: 0 <= i < |ev| ==> Enabled(run[i], ev[i]) && run[i + 1] == Apply(run[i], ev[i]))
  }

  ghost function EagerAfter(g: Eager, ev: seq<Event>): Eager {
    if ev == [] then g else EagerApply(EagerAfter(g, ev[..|ev| - 1]), ev[|ev| - 1])
  }

  /**
    A user store to a page the program may write, a kernel store to a frame mapped once, or
    one of either kind that changes nothing.
   */
  ghost predicate Agreeable(s: State, g: Eager, e: Event) {
    && (e.KernelStore? ==> KernelAgreeable(s, e))
    && (e.Store? ==>
      && e.p in g.writable
      && (e.page in g.writable[e.p]
          || (Mapped(s, e.p, e.page) && s.pt[e.p][e.page].pa in s.phys && e.off < PGSIZE
              && Sees(s, e.p, e.page)[e.off] == e.v)))
  }

  ghost predicate KernelAgreeable(s: State, e: Event)
    requires e.KernelStore?
  {
    && Mapped(s, e.p, e.page) && s.pt[e.p][e.page].pa in s.phys && e.off < PGSIZE
    && (Alone(s, e.p, e.page) || Sees(s, e.p, e.page)[e.off] == e.v)
  }

  ghost predicate AgreeableUpTo(run: seq<State>, ev: seq<Event>, g: Eager, n: nat)
    requires |run| == |ev| + 1
  {
    n <= |ev| && forall i :: 0 <= i < n ==> Agreeable(run[i], EagerAfter(g, ev[..i]), ev[i])
  }

  /** In every run, no page is writable in one address space while mapped in another. */
  lemma {:induction false} NeverSharedWritable(run: seq<State>, ev: seq<Event>, i: nat)
    requires IsRun(run, ev) && i <= |ev|
    ensures Inv(run[i]) && Exclusive(run[i])
  {
    hide Enabled, Apply, Exclusive;
    if i > 0 {
      NeverSharedWritable(run, ev, i - 1);
      StepInv(run[i - 1], ev[i - 1]);
    }
  }

  /** One access keeps copy-on-write and eager copying in step exactly when it is agreeable. */
  lemma StepSim(s: State, g: Eager, e: Event)
    requires Inv(s) && Sim(s, g) && Enabled(s, e)
    ensures Sim(Apply(s, e), EagerApply(g, e)) <==> Agreeable(s, g, e)
  {
    match e
    case Fork(p, child) => ForkSim(s, g, p, child);
    case Load(_, _, _) =>
    case KernelStore(_, _, _, _) =>
      KernelMapped(s, e);
      KernelSimIff(s, g, e);
    case Store(p, page, _, _, _) =>
      assert EagerHas(g, p, page) by { StoreMapped(s, e); }
      if page in g.writable[p] { StoreSim(s, g, e); } else { ForbiddenStore(s, g, e); }
  }

  lemma {:induction false} RunSim(run: seq<State>, ev: seq<Event>, g: Eager, n: nat)
    requires IsRun(run, ev) && Sim(run[0], g) && AgreeableUpTo(run, ev, g, n)
    ensures Sim(run[n], EagerAfter(g, ev[..n]))
  {
    hide Enabled, Apply, Inv, Sim, EagerApply, Agreeable;
    if n == 0 {
      assert ev[..0] == [];
    } else {
      RunSim(run, ev, g, n - 1);
      NeverSharedWritable(run, ev, n - 1);
      assert ev[..n][..n - 1] == ev[..n - 1];
      StepSim(run[n - 1], EagerAfter(g, ev[..n - 1]), ev[n - 1]);
    }
  }

  /**
    Over every run, copy-on-write shows each process what private copies would show it, at
    every moment, exactly when every store is agreeable.
   */
  lemma RunSimIff(run: seq<State>, ev: seq<Event>, g: Eager)
    requires IsRun(run, ev) && Sim(run[0], g)
    ensures AgreeableUpTo(run, ev, g, |ev|) <==>
            forall n :: 0 <= n <= |ev| ==> Sim(run[n], EagerAfter(g, ev[..n]))
  {
    hide Enabled, Apply, Inv, Sim, EagerApply, Agreeable;
    if AgreeableUpTo(run, ev, g, |ev|) {
      forall n | 0 <= n <= |ev| ensures Sim(run[n], EagerAfter(g, ev[..n])) {
        RunSim(run, ev, g, n);
      }
    }
    if forall n :: 0 <= n <= |ev| ==> Sim(run[n], EagerAfter(g, ev[..n])) {
      forall i | 0 <= i < |ev| ensures Agreeable(run[i], EagerAfter(g, ev[..i]), ev[i]) {
        NeverSharedWritable(run, ev, i);
        assert ev[..i + 1][..i] == ev[..i];
        assert Sim(run[i + 1], EagerAfter(g, ev[..i + 1]));
        StepSim(run[i], EagerAfter(g, ev[..i]), ev[i]);
      }
    }
  }

  /** In particular every load returns the byte a private copy would hold. */
  lemma LoadsAgree(run: seq<State>, ev: seq<Event>, g: Eager, n: nat)
    requires IsRun(run, ev) && Sim(run[0], g) && n < |ev| && AgreeableUpTo(run, ev, g, n)
    requires ev[n].Load?
    ensures var Load(p, page, off) := ev[n]; var h := EagerAfter(g, ev[..n]);
            && Mapped(run[n], p, page) && run[n].pt[p][page].pa in run[n].phys && off < PGSIZE
            && EagerHas(h, p, page)
            && Sees(run[n], p, page)[off] == h.mem[p][page].bytes[off]
  {
    RunSim(run, ev, g, n);
    hide AgreeableUpTo;
  }

  lemma RestStep(s: State, e: Event, q: int, i: int)
    requires Inv(s) && Enabled(s, e) && Mapped(s, q, i)
    ensures Mapped(Apply(s, e), q, i) && Apply(s, e).pt[q][i].rest == s.pt[q][i].rest
  {
    match e
    case Fork(p, child) => ForkMapped(s, p, child);
    case Load(_, _, _) =>
    case KernelStore(_, _, _, _) => KernelEffect(s, e);
    case Store(_, _, _, _, _) => StoreEffect(s, e);
  }

  /** No page of any process ever loses, or gains, a permission other than W. */
  lemma {:induction false} PermissionsKept(run: seq<State>, ev: seq<Event>, n: nat, m: nat, q: int, i: int)
    requires IsRun(run, ev) && n <= m <= |ev| && Mapped(run[n], q, i)
    ensures Mapped(run[m], q, i) && run[m].pt[q][i].rest == run[n].pt[q][i].rest
  {
    hide Enabled, Apply, Exclusive;
    if n < m {
      PermissionsKept(run, ev, n, m - 1, q, i);
      NeverSharedWritable(run, ev, m - 1);
      RestStep(run[m - 1], ev[m - 1], q, i);
    }
  }

  /**
    After fork(1) parent and child have the same pages with the same permissions, and each
    may store to every one of them: the fault handler takes the store.
   */
  lemma ForkedMayStore(s: State, p: int, child: int, page: int, off: nat, v: int, spare: int)
    requires Inv(s) && Enabled(s, Fork(p, child)) && 0 <= page < s.sz[p] && off < PGSIZE
    requires Unmapped(s, spare)
    ensures var s' := Apply(s, Fork(p, child));
            && Inv(s') && Mapped(s', p, page) && Mapped(s', child, page)
            && s'.pt[p][page] == s'.pt[child][page] == s.pt[p][page].(w := false)
            && Enabled(s', Store(p, page, off, v, spare)) && Enabled(s', Store(child, page, off, v, spare))
  {
    StepInv(s, Fork(p, child));
    ForkMapped(s, p, child);
    var s' := Apply(s, Fork(p, child));
    hide Exclusive;
    assert Mapped(s, p, page);
    forall q, i | Mapped(s', q, i) ensures s'.pt[q][i].pa != spare {
      ForkEntry(s, p, child, s', q, i);
    }
  }

  const ZEROS: Page := seq(PGSIZE, _ => 0)

  /** One process with one read-only page. */
  const START: State := State(map[0 := ZEROS], map[1 := map[0 := Pte(0, false, 0)]], map[1 := 1], {})

  const START_EAGER: Eager := Eager(map[1 := map[0 := Private(ZEROS, 0)]], map[1 := {}], map[1 := 1])

  lemma StartFacts()
    ensures Inv(START) && Sim(START, START_EAGER) && Enabled(START, Fork(1, 2))
  {
    assert Mapped(START, 1, 0) && EagerHas(START_EAGER, 1, 0);
  }

  lemma ForkedFacts(s: State, g: Eager)
    requires s == ForkState(START, 1, 2) && g == EagerApply(START_EAGER, Fork(1, 2))
    ensures Enabled(s, Store(1, 0, 0, 7, 5)) && !Agreeable(s, g, Store(1, 0, 0, 7, 5))
  {
    assert s.pt[1] == map[0 := Pte(0, false, 0)] && s.pt[2] == map[0 := Pte(0, false, 0)];
    assert Sees(s, 1, 0)[0] == 0;
  }

  /** fork(1), then a store to a read-only page: the fault handler grants what eager refuses. */
  lemma ReadOnlyPageDiverges()
    ensures Sim(START, START_EAGER) && Enabled(START, Fork(1, 2))
    ensures var s := Apply(START, Fork(1, 2)); var g := EagerApply(START_EAGER, Fork(1, 2));
            var e := Store(1, 0, 0, 7, 5);
            Sim(s, g) && Enabled(s, e) && !Sim(Apply(s, e), EagerApply(g, e))
  {
    hide Sim, Inv, Enabled, Agreeable, EagerApply, ForkState;
    StartFacts();
    var s := Apply(START, Fork(1, 2));
    var g := EagerApply(START_EAGER, Fork(1, 2));
    StepInv(START, Fork(1, 2));
    StepSim(START, START_EAGER, Fork(1, 2));
    assert Agreeable(START, START_EAGER, Fork(1, 2)) by { ForkAgreeable(START, START_EAGER, 1, 2); }
    ForkedFacts(s, g);
    StepSim(s, g, Store(1, 0, 0, 7, 5));
  }

  lemma ForkAgreeable(s: State, g: Eager, p: int, child: int)
    ensures Agreeable(s, g, Fork(p, child))
  {}

  /**
    After fork(1) every page is shared: a byte that a system call of the child copies out
    appears in the parent as well.
   */
  lemma ForkThenCopyout(s: State, p: int, child: int, page: int, off: nat, v: int)
    requires Inv(s) && Enabled(s, Fork(p, child)) && 0 <= page < s.sz[p] && off < PGSIZE
    ensures var s1 := Apply(s, Fork(p, child));
            && Enabled(s1, KernelStore(child, page, off, v))
            && var s2 := Apply(s1, KernelStore(child, page, off, v));
               Mapped(s2, p, page) && s2.pt[p][page].pa in s2.phys && Sees(s2, p, page)[off] == v
  {
    hide ForkState, Exclusive;
    var s1 := Apply(s, Fork(p, child));
    StepInv(s, Fork(p, child));
    ForkMapped(s, p, child);
    assert Mapped(s, p, page);
    assert Mapped(s1, child, page) && Mapped(s1, p, page);
    KernelEffect(s1, KernelStore(child, page, off, v));
  }

  // ---------------------------------------------------------------------------------
  // The page-table code
  // ---------------------------------------------------------------------------------

  class Kernel {
    var phys: map<int, Page>
    var pt: map<int, Table>
    var sz: map<int, nat>
    var cow: set<int>

    constructor (s: State)
      ensures Now() == s
    {
      phys, pt, sz, cow := s.phys, s.pt, s.sz, s.cow;
    }

    ghost function Now(): State
      reads this
    {
      State(phys, pt, sz, cow)
    }

    /** uvmcopy_cow: each page of p is mapped read-only in child and again in p. */
    method UvmcopyCow(p: int, child: int)
      requires p in pt && p in sz && child !in pt && child != p
      requires forall i :: 0 <= i < sz[p] ==> i in pt[p]
      modifies this`pt
      ensures pt == old(pt)[p := ReadOnly(old(pt)[p], sz[p])][child := Shared(old(pt)[p], sz[p])]
    {
      var parent, childTable: Table := pt[p], map[];
      var i := 0;
      while i < sz[p]
        invariant 0 <= i <= sz[p]
        invariant parent == ReadOnly(old(pt)[p], i)
        invariant childTable == Shared(old(pt)[p], i)
        invariant pt == old(pt)
      {
        var pte := parent[i];
        var flags := Pte(pte.pa, false, pte.rest);
        childTable := childTable[i := flags];   // mappages(new, ...)
        parent := parent - {i};               // uvmunmap(old, ...)
        parent := parent[i := flags];         // mappages(old, ...)
        i := i + 1;
      }
      pt := pt[p := parent][child := childTable];
    }

    /** fork(1), as far as memory goes. */
    method Fork(p: int, child: int)
      requires Inv(Now()) && Enabled(Now(), CowMachine.Fork(p, child))
      modifies this
      ensures Now() == Apply(old(Now()), CowMachine.Fork(p, child)) && Inv(Now())
    {
      StepInv(Now(), CowMachine.Fork(p, child));
      UvmcopyCow(p, child);
      sz := sz[child := sz[p]];
      cow := cow + {p, child};
    }

    /** copy_on_write, given the page kalloc returns. */
    method CopyOnWrite(p: int, page: int, m: int)
      requires Mapped(Now(), p, page) && pt[p][page].pa in phys
      modifies this`phys, this`pt
      ensures Now() == Fault(old(Now()), p, page, m)
      ensures Mapped(Now(), p, page) && pt[p][page].pa == m && pt[p][page].w
      ensures pt[p][page].rest == old(pt)[p][page].rest && m in phys && phys[m] == old(phys)[old(pt)[p][page].pa]
    {
      var pte := pt[p][page];
      phys := phys[m := phys[pte.pa]];
      pt := pt[p := pt[p] - {page}];
      pt := pt[p := pt[p][page := Pte(m, true, pte.rest)]];
      assert pt[p] == old(pt)[p][page := Pte(m, true, pte.rest)];
      assert pt == old(pt)[p := pt[p]];
    }

    /** One byte of copyout: through the frame, whatever the entry's write bit says. */
    method CopyoutByte(p: int, page: int, off: nat, v: int)
      requires Inv(Now()) && Enabled(Now(), KernelStore(p, page, off, v))
      modifies this`phys
      ensures Now() == Apply(old(Now()), KernelStore(p, page, off, v)) && Inv(Now())
    {
      KernelEffect(Now(), KernelStore(p, page, off, v));
      hide Inv;
      var pa := pt[p][page].pa;
      phys := phys[pa := phys[pa][off := v]];
    }

    /** A user store: the hardware retries the instruction after the fault handler. */
    method Store(p: int, page: int, off: nat, v: int, m: int)
      requires Inv(Now()) && Enabled(Now(), CowMachine.Store(p, page, off, v, m))
      modifies this
      ensures Now() == Apply(old(Now()), CowMachine.Store(p, page, off, v, m)) && Inv(Now())
      ensures Mapped(Now(), p, page) && Sees(Now(), p, page) == old(Sees(Now(), p, page))[off := v]
    {
      StepInv(Now(), CowMachine.Store(p, page, off, v, m));
      StoreEffect(Now(), CowMachine.Store(p, page, off, v, m));
      hide Inv;
      if !pt[p][page].w {
        CopyOnWrite(p, page, m);
      }
      var pa := pt[p][page].pa;
      phys := phys[pa := phys[pa][off := v]];
    }
  }
}
