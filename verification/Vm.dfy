/**
  kernel/vm.c and kernel/kalloc.c: page tables, physical page allocation, and the user
  memory calls built on them. `owner` records, for every managed page, its one use.
 */
module Vm {
  import opened Basics
  import opened Sv39
  import opened FreeWalk

  /** The bytes of a user page. */
  type Content = seq<int>

  // ---------------------------------------------------------------------------------
  // Flat views before and after a call
  // ---------------------------------------------------------------------------------

  /** No translation of any address space changes. */
  ghost predicate SameFlat(t: Tables, t': Tables, o: Owners) {
    forall r, v :: IsRoot(o, r) && 0 <= v < MAXVPN ==> Translate(t', r, v) == Translate(t, r, v)
  }

  /** Pages v0 .. v0+n-1 of root now map to consecutive pages from ppn; nothing else changes. */
  ghost predicate FlatWith(t: Tables, t': Tables, o: Owners, root: int, v0: int, n: int, ppn: int, flags: int) {
    forall r, v :: IsRoot(o, r) && 0 <= v < MAXVPN ==>
      Translate(t', r, v) ==
      if r == root && v0 <= v < v0 + n then Some(Pte(ppn + v - v0, flags)) else Translate(t, r, v)
  }

  /** Pages v0 .. v0+n-1 of root are no longer mapped; nothing else changes. */
  ghost predicate FlatWithout(t: Tables, t': Tables, o: Owners, root: int, v0: int, n: int) {
    forall r, v :: IsRoot(o, r) && 0 <= v < MAXVPN ==>
      Translate(t', r, v) == if r == root && v0 <= v < v0 + n then None else Translate(t, r, v)
  }

  /** The only pages that change use are free ones that became tables of `root`. */
  ghost predicate Grown(o: Owners, o': Owners, root: int) {
    && o.Keys == o'.Keys
    && (forall p :: p in o ==>
          (o'[p] == o[p] || (o[p].Free? && o'[p].Node? && o'[p].root == root && !o'[p].path.Root?)))
  }

  /** Pages that were in use keep their contents. */
  ghost predicate DataKept(d: map<int, Content>, d': map<int, Content>, o: Owners) {
    forall p :: p in d && (p in o ==> !o[p].Free?) ==> p in d' && d'[p] == d[p]
  }

  /** Only pages that have become free have changed their contents. */
  ghost predicate OnlyFreed(d: map<int, Content>, d': map<int, Content>, o: Owners, o': Owners) {
    forall p :: p in d && !NewlyFree(o, o', p) ==> p in d' && d'[p] == d[p]
  }

  ghost predicate NewlyFree(o: Owners, o': Owners, p: int) { p in o && !o[p].Free? && p in o' && o'[p].Free? }

  lemma OnlyFreedRefl(d: map<int, Content>, o: Owners)
    ensures OnlyFreed(d, d, o, o)
  {}

  /** Releasing ranges one after the other. */
  lemma OnlyFreedTrans(d: map<int, Content>, d': map<int, Content>, d'': map<int, Content>,
                       o: Owners, o': Owners, o'': Owners)
    requires OnlyFreed(d, d', o, o') && OnlyFreed(d', d'', o', o'')
    requires o.Keys == o'.Keys == o''.Keys && forall p :: p in o' && o'[p].Free? ==> o''[p].Free?
    requires forall p :: p in o && o[p].Free? ==> o'[p].Free?
    ensures OnlyFreed(d, d'', o, o'')
  {}

  /** A page in use from before the call to after it keeps its contents. */
  lemma UndoKeeps(d0: map<int, Content>, d1: map<int, Content>, d2: map<int, Content>,
                  o0: Owners, o1: Owners, o2: Owners, root: int)
    requires DataKept(d0, d1, o0) && OnlyFreed(d1, d2, o1, o2) && Grown(o0, o2, root)
    ensures DataKept(d0, d2, o0)
  {
    forall p | p in d0 && (p in o0 ==> !o0[p].Free?) ensures p in d2 && d2[p] == d0[p] {
      assert !NewlyFree(o1, o2, p);
    }
  }

  /** Every page of the range has a leaf slot, empty or holding an entry recognisably a leaf. */
  ghost predicate Unmappable(t: Tables, root: int, v0: int, n: int) {
    forall v :: v0 <= v < v0 + n ==> UnmappableAt(t, root, v)
  }

  ghost predicate UnmappableAt(t: Tables, root: int, v: int) {
    HasSlot(t, root, v) && (Translate(t, root, v).Some? ==> Translate(t, root, v).value.flags != PTE_V)
  }

  /** The same leaf slots exist. */
  ghost predicate SameSlots(t: Tables, t': Tables, o: Owners) {
    forall r, v :: IsRoot(o, r) && 0 <= v < MAXVPN ==> (HasSlot(t', r, v) <==> HasSlot(t, r, v))
  }

  lemma LeavesUnmappable(t: Tables, root: int, v0: int, n: int)
    requires AllLeaves(t, root, v0, n)
    ensures Unmappable(t, root, v0, n)
  {
    hide Translate, HasSlot;
    forall v | v0 <= v < v0 + n ensures UnmappableAt(t, root, v) { SomeHasSlot(t, root, v); }
  }

  lemma DataKeptTrans(d: map<int, Content>, d': map<int, Content>, d'': map<int, Content>,
                      o: Owners, o': Owners, root: int)
    requires DataKept(d, d', o) && DataKept(d', d'', o') && Grown(o, o', root)
    ensures DataKept(d, d'', o)
  {}

  lemma GrownRoots(o: Owners, o': Owners, root: int)
    requires Grown(o, o', root)
    ensures forall r :: IsRoot(o', r) <==> IsRoot(o, r)
  {}

  lemma SameFlatTrans(t: Tables, t': Tables, t'': Tables, o: Owners, o': Owners)
    requires SameFlat(t, t', o) && SameFlat(t', t'', o') && forall r :: IsRoot(o, r) ==> IsRoot(o', r)
    ensures SameFlat(t, t'', o)
  {}

  function WithV(perm: int): (flags: int)
    ensures flags % 2 == 1 && flags / 2 == perm / 2
  {
    if perm % 2 == 0 then perm + 1 else perm
  }

  /** Like Grown, and page q, free before, is now the leaf of (root, v). */
  ghost predicate OneMore(o: Owners, o': Owners, root: int, v: int, q: int) {
    && o.Keys == o'.Keys && q in o && o[q].Free? && o'[q] == Leaf(root, v)
    && (forall p :: p in o && p != q ==>
          (o'[p] == o[p] || (o[p].Free? && o'[p].Node? && o'[p].root == root && !o'[p].path.Root?)))
  }

  /** Contents change only in the tables of r at or below `path`, or below its first k entries. */
  ghost predicate DataOutside(d: map<int, Content>, d': map<int, Content>, o0: Owners, r: int, path: Path) {
    forall q :: q in d && !(q in o0 && Under(o0[q], r, path)) ==> q in d' && d'[q] == d[q]
  }

  ghost predicate DataFirst(d: map<int, Content>, d': map<int, Content>, o0: Owners, r: int, path: Path, k: int) {
    forall q :: q in d && !(q in o0 && UnderFirst(o0[q], r, path, k)) ==> q in d' && d'[q] == d[q]
  }

  /** Flags and contents asked for, page by page. */
  datatype Want = Want(flags: int, content: Content)

  ghost predicate LeafFlags(want: seq<Want>) {
    forall k :: 0 <= k < |want| ==> want[k].flags != PTE_V && want[k].flags % 2 == 1
  }

  function Zeros(): (c: Content)
    ensures |c| == 4096 && forall i :: 0 <= i < |c| ==> c[i] == 0
  {
    seq(4096, _ => 0)
  }

  /** n zeroed pages with PTE_R | PTE_U | xperm | PTE_V. */
  function ZeroPages(n: nat, xperm: int): (want: seq<Want>)
  {
    seq(n, _ => Want(WithV(2 + 16 + xperm), Zeros()))
  }

  /**
    Pages lo .. lo+n-1 of root have been mapped, each to a page of its own with the flags and
    contents asked for; no other translation changed; the pages came from the free list.
   */
  ghost predicate GrewTo(t0: Tables, o0: Owners, t: Tables, o: Owners, d: map<int, Content>,
                         root: int, lo: int, n: nat, want: seq<Want>) {
    && n <= |want| && o0.Keys == o.Keys
    && (forall r, v :: IsRoot(o0, r) && 0 <= v < MAXVPN && !(r == root && lo <= v < lo + n) ==>
          Translate(t, r, v) == Translate(t0, r, v))
    && (forall v :: lo <= v < lo + n ==>
          && Translate(t, root, v).Some? && Translate(t, root, v).value.flags == want[v - lo].flags
          && Translate(t, root, v).value.ppn in o && o[Translate(t, root, v).value.ppn] == Leaf(root, v)
          && Translate(t, root, v).value.ppn in d && d[Translate(t, root, v).value.ppn] == want[v - lo].content)
    && (forall p :: p in o0 ==>
          (o[p] == o0[p] || (o0[p].Free? && Taken(o[p], root, lo, n))))
  }

  ghost predicate NoLeafIn(o: Owners, root: int, lo: int, n: int) {
    forall p :: p in o ==> !(o[p].Leaf? && o[p].root == root && lo <= o[p].vpn < lo + n)
  }

  /** Uses a free page may have been put to. */
  predicate Taken(w: Owner, root: int, lo: int, n: int) {
    (w.Node? && w.root == root && !w.path.Root?) || (w.Leaf? && w.root == root && lo <= w.vpn < lo + n)
  }

  /** What uvmcopy reads: the first n pages of root, flags and contents. */
  ghost function Copied(t: Tables, d: map<int, Content>, root: int, n: nat): (want: seq<Want>)
    ensures |want| == n
  {
    seq(n, v requires 0 <= v < n =>
      var e := Translate(t, root, v);
      if e.Some? && e.value.ppn in d then Want(e.value.flags, d[e.value.ppn]) else Want(0, []))
  }

  /** The first n pages of root hold data and are nobody's to allocate. */
  ghost predicate InUse(t: Tables, o: Owners, d: map<int, Content>, root: int, n: nat) {
    forall v :: 0 <= v < n ==>
      && Translate(t, root, v).Some? && Translate(t, root, v).value.ppn in d
      && (Translate(t, root, v).value.ppn in o ==> !o[Translate(t, root, v).value.ppn].Free?)
  }

  /** The pages being copied from are still what they were. */
  ghost predicate CopySource(t0: Tables, d0: map<int, Content>, t: Tables, d: map<int, Content>, root: int, n: nat) {
    forall v :: 0 <= v < n ==>
      && Translate(t, root, v) == Translate(t0, root, v) && Translate(t0, root, v).Some?
      && Translate(t0, root, v).value.ppn in d0 && Translate(t0, root, v).value.ppn in d
      && d[Translate(t0, root, v).value.ppn] == d0[Translate(t0, root, v).value.ppn]
  }

  /** Every mapped page of the range belongs to this mapping. */
  ghost predicate OwnedRange(t: Tables, o: Owners, root: int, v0: int, n: int) {
    forall v :: v0 <= v < v0 + n && 0 <= v < MAXVPN && Translate(t, root, v).Some? ==>
      Translate(t, root, v).value.ppn in o && o[Translate(t, root, v).value.ppn] == Leaf(root, v)
  }

  /** Every page of the range is mapped by an entry that is recognisably a leaf. */
  ghost predicate AllLeaves(t: Tables, root: int, v0: int, n: int) {
    forall v :: v0 <= v < v0 + n ==>
      Translate(t, root, v).Some? && Translate(t, root, v).value.flags != PTE_V
  }

  /** The leaf pages of the range, and only they, change use: to free, or into the caller's hands. */
  ghost predicate Released(o: Owners, o': Owners, root: int, v0: int, n: int, doFree: bool) {
    && o.Keys == o'.Keys
    && (forall p :: p in o ==>
          o'[p] == if o[p].Leaf? && o[p].root == root && v0 <= o[p].vpn < v0 + n
                   then (if doFree then Free else Other) else o[p])
  }

  ghost function ReleasedOwner(o: Owners, q: int, root: int, v: int, doFree: bool): (o': Owners) {
    if q in o && o[q] == Leaf(root, v) then o[q := if doFree then Free else Other] else o
  }

  /** PGROUNDUP(sz) / PGSIZE. */
  function PageUp(sz: nat): (n: nat)
    ensures (n - 1) * 4096 < sz <= n * 4096
  {
    (sz + 4095) / 4096
  }

  lemma PageUpMono(a: nat, b: nat)
    requires a <= b
    ensures PageUp(a) <= PageUp(b)
  {}

  datatype MapResult = Mapped | OutOfMemory | Remap

  class Memory {
    var tables: Tables
    var freelist: seq<int>
    var data: map<int, Content>
    ghost var owner: Owners

    ghost predicate Valid()
      reads this
    {
      Inv(tables, freelist, owner)
    }

    /** After kinit: every managed page is free. */
    constructor (pages: seq<int>)
      requires NoDup(pages)
      ensures Valid() && freelist == pages && owner == map p | p in pages :: Free
    {
      tables, freelist, data := map[], pages, map[];
      owner := map p | p in pages :: Free;
    }

    /** Pops the free list; the page is then in the caller's hands. */
    method Kalloc() returns (p: Option<int>)
      requires Valid()
      modifies this`freelist, this`owner, this`data
      ensures Valid()
      ensures p.None? <==> old(freelist) == []
      ensures p.None? ==> freelist == old(freelist) && owner == old(owner) && data == old(data)
      ensures p.Some? ==> p.value in old(owner) && old(owner)[p.value].Free?
      ensures p.Some? ==> freelist == old(freelist)[1..] && owner == old(owner)[p.value := Other]
      ensures p.Some? ==> Unreferenced(tables, owner, p.value)
      ensures p.Some? ==> data == old(data)[p.value := seq(4096, _ => 5)]
    {
      hide Unreferenced;
      if freelist == [] {
        return None;
      }
      TakeFree(tables, freelist, owner);
      hide Inv;
      var r := freelist[0];
      freelist := freelist[1..];
      owner := owner[r := Other];
      data := data[r := seq(4096, _ => 5)];
      p := Some(r);
    }

    /** kfree's own statements: junk fill and push. */
    method PushFree(p: int)
      modifies this`freelist, this`data
      ensures freelist == [p] + old(freelist) && data == old(data)[p := seq(4096, _ => 1)]
    {
      data := data[p := seq(4096, _ => 1)];
      freelist := [p] + freelist;
    }

    /** kfree() of a page that nothing maps any more. */
    method Kfree(p: int)
      requires Valid() && p in owner && owner[p].Other? && Unreferenced(tables, owner, p)
      modifies this`freelist, this`owner, this`data
      ensures Valid() && freelist == [p] + old(freelist) && owner == old(owner)[p := Free]
      ensures data == old(data)[p := seq(4096, _ => 1)]
    {
      GiveFree(tables, freelist, owner, p);
      hide Inv;
      PushFree(p);
      owner := owner[p := Free];
    }

    /** One level of walk where the entry is missing: allocate the next table and link it. */
    method GrowTable(ghost root: int, p: int, i: int) returns (q: Option<int>)
      requires Valid() && p in owner && p in tables && |tables[p]| == ENTRIES
      requires owner[p].Node? && owner[p].root == root && !owner[p].path.Low?
      requires 0 <= i < ENTRIES && (owner[p].path.Root? ==> i < 256) && !Entry(tables, p, i).Valid()
      modifies this
      ensures Valid() && Grown(old(owner), owner, root) && SameFlat(old(tables), tables, old(owner))
      ensures DataKept(old(data), data, old(owner))
      ensures q.None? ==> freelist == [] && tables == old(tables) && owner == old(owner)
      ensures q.Some? ==> Entry(tables, p, i) == Pte(q.value, PTE_V)
      ensures q.Some? ==> q.value in owner && owner[q.value] == Node(root, ChildPath(old(owner)[p].path, i))
      ensures q.Some? ==> q.value != p && (forall j :: Entry(tables, q.value, j) == ZERO)
      ensures q.Some? ==> forall x, j :: (x != p || j != i) && x != q.value ==>
                Entry(tables, x, j) == Entry(old(tables), x, j)
      ensures p in owner && owner[p] == old(owner)[p]
    {
      q := Kalloc();
      if q.None? {
        return;
      }
      var n := q.value;
      GrowFacts(tables, freelist, owner, p, i, n);
      hide Inv, Unreferenced;
      data := data - {n};
      tables := LinkNode(tables, p, i, n);
      owner := owner[n := Node(owner[p].root, ChildPath(owner[p].path, i))];
    }

    /** walk(): the page of v's leaf entry, or None. */
    method Walk(root: int, v: int, alloc: bool) returns (slot: Option<int>)
      requires Valid() && IsRoot(owner, root) && 0 <= v < MAXVPN
      modifies this
      ensures Valid() && Grown(old(owner), owner, root) && SameFlat(old(tables), tables, old(owner))
      ensures DataKept(old(data), data, old(owner))
      ensures slot.Some? ==> HasSlot(tables, root, v) && slot.value == SlotPage(tables, root, v)
      ensures !alloc ==> tables == old(tables) && owner == old(owner) && freelist == old(freelist) && data == old(data)
      ensures slot.None? ==> if alloc then freelist == [] else !HasSlot(tables, root, v)
      ensures old(HasSlot(tables, root, v)) ==> slot.Some? && tables == old(tables) && owner == old(owner)
    {
      hide Inv, Translate, Px2, Px1;
      PxBounds(v);
      var p := root;
      var level := 2;
      while level > 0
        invariant 0 <= level <= 2 && Valid() && IsRoot(owner, root)
        invariant Grown(old(owner), owner, root) && SameFlat(old(tables), tables, old(owner))
        invariant DataKept(old(data), data, old(owner))
        invariant level == 2 ==> p == root
        invariant level == 1 ==> Level1(tables, root, v).Valid() && Level1(tables, root, v).ppn == p
        invariant level == 0 ==> HasSlot(tables, root, v) && SlotPage(tables, root, v) == p
        invariant !alloc || old(HasSlot(tables, root, v)) ==>
                    tables == old(tables) && owner == old(owner) && freelist == old(freelist) && data == old(data)
      {
        NodeFacts(tables, freelist, owner, root, v);
        var i := if level == 2 then Px2(v) else Px1(v);
        var pte := tables[p][i];
        if pte.Valid() {
          p := pte.ppn;
        } else {
          if !alloc {
            return None;
          }
          ghost var t0, o0, d0 := tables, owner, data;
          var q := GrowTable(root, p, i);
          DataKeptTrans(old(data), d0, data, old(owner), o0, root);
          SameFlatTrans(old(tables), t0, tables, old(owner), o0);
          if q.None? {
            return None;
          }
          p := q.value;
        }
        level := level - 1;
      }
      slot := Some(p);
    }

    /** One turn of mappages. */
    method MapOne(root: int, v: int, ppn: int, perm: int) returns (res: MapResult)
      requires Valid() && IsRoot(owner, root) && 0 <= v < MAXVPN
      requires ppn !in owner || owner[ppn].Other?
      modifies this
      ensures Valid() && Grown(old(owner), owner, root) && DataKept(old(data), data, old(owner))
      ensures FlatWith(old(tables), tables, old(owner), root, v, if res.Mapped? then 1 else 0, ppn, WithV(perm))
      ensures res.OutOfMemory? ==> freelist == []
      ensures res.Remap? <==> Translate(old(tables), root, v).Some?
    {
      hide Inv, Translate, Px0, HasSlot, SlotPage, WithV;
      var slot := Walk(root, v, true);
      if slot.None? {
        assert Translate(old(tables), root, v).None? by { NoSlotNone(old(tables), root, v); }
        return OutOfMemory;
      }
      SlotFacts(tables, freelist, owner, root, v);
      var e := tables[slot.value][Px0(v)];
      if e.Valid() {
        return Remap;
      }
      MapFacts(old(tables), old(owner), tables, freelist, owner, root, v, Pte(ppn, WithV(perm)));
      tables := tables[slot.value := tables[slot.value][Px0(v) := Pte(ppn, WithV(perm))]];
      res := Mapped;
    }

    /**
      mappages(): maps the pages that [va, va+size) touches to consecutive pages from ppn.
      It stops early when walk runs out of memory or a page is mapped already.
     */
    method Mappages(root: int, va: nat, size: nat, ppn: int, perm: int) returns (res: MapResult, ghost done: nat)
      requires Valid() && IsRoot(owner, root) && 0 < size && (va + size - 1) / 4096 < MAXVPN
      requires forall q :: ppn <= q <= ppn + (va + size - 1) / 4096 - va / 4096 ==>
                 q !in owner || owner[q].Other?
      modifies this
      ensures Valid() && Grown(old(owner), owner, root) && DataKept(old(data), data, old(owner))
      ensures FlatWith(old(tables), tables, old(owner), root, va / 4096, done, ppn, WithV(perm))
      ensures done <= (va + size - 1) / 4096 - va / 4096 + 1
      ensures forall v :: va / 4096 <= v < va / 4096 + done ==> Translate(old(tables), root, v).None?
      ensures res.Mapped? <==> done == (va + size - 1) / 4096 - va / 4096 + 1
      ensures res.OutOfMemory? ==> freelist == []
      ensures res.Remap? ==> va / 4096 + done < MAXVPN && Translate(old(tables), root, va / 4096 + done).Some?
    {
      hide Inv, Translate, WithV, Grown, DataKept;
      var a := va / 4096;
      var last := (va + size - 1) / 4096;
      var p := ppn;
      done := 0;
      FlatWithNone(tables, owner, root, a, ppn, WithV(perm));
      GrownRefl(owner, root);
      assert DataKept(old(data), data, old(owner)) by { DataKeptRefl(data, owner); }
      while true
        invariant a == va / 4096 + done && a <= last && p == ppn + done
        invariant Valid() && IsRoot(owner, root) && Grown(old(owner), owner, root)
        invariant DataKept(old(data), data, old(owner))
        invariant FlatWith(old(tables), tables, old(owner), root, va / 4096, done, ppn, WithV(perm))
        invariant forall v :: va / 4096 <= v < va / 4096 + done ==> Translate(old(tables), root, v).None?
        decreases last - a
      {
        ghost var t0, o0, d0 := tables, owner, data;
        GrownKeeps(old(owner), owner, root, p);
        res := MapOne(root, a, p, perm);
        DataKeptTrans(old(data), d0, data, old(owner), o0, root);
        GrownTrans(old(owner), o0, owner, root);
        FlatWithStep(old(tables), old(owner), t0, o0, tables, root, va / 4096, done, ppn, WithV(perm), res.Mapped?);
        if !res.Mapped? {
          return;
        }
        done := done + 1;
        if a == last {
          break;
        }
        a := a + 1;
        p := p + 1;
      }
    }

    /** One turn of uvmunmap; `ok` is false where it panics. */
    method UnmapOne(root: int, v: int, doFree: bool) returns (ok: bool)
      requires Valid() && IsRoot(owner, root) && 0 <= v < MAXVPN
      requires doFree ==> OwnedRange(tables, owner, root, v, 1)
      modifies this
      ensures Valid() && Released(old(owner), owner, root, v, if ok then 1 else 0, doFree)
      ensures FlatWithout(old(tables), tables, old(owner), root, v, if ok then 1 else 0)
      ensures ok <==> UnmappableAt(old(tables), root, v)
      ensures SameSlots(old(tables), tables, old(owner)) && OnlyFreed(old(data), data, old(owner), owner)
    {
      hide Inv, Translate, Px0, HasSlot, SlotPage, OwnedRange, Released;
      OnlyFreedRefl(data, owner);
      var slot := Walk(root, v, false);
      ReleasedNone(owner, root, v, doFree);
      FlatWithoutNone(tables, owner, root, v);
      if slot.None? {
        return false;
      }
      SlotFacts(tables, freelist, owner, root, v);
      var e := tables[slot.value][Px0(v)];
      UnmapFacts(tables, freelist, owner, root, v, doFree);
      if !e.Valid() {
        return true;
      }
      if e.flags == PTE_V {
        return false;
      }
      if doFree { OwnedAt(tables, owner, root, v); }
      ReleasedData(data, owner, root, v, e.ppn, doFree);
      if doFree {
        PushFree(e.ppn);
      }
      tables := tables[slot.value := tables[slot.value][Px0(v) := ZERO]];
      owner := ReleasedOwner(owner, e.ppn, root, v, doFree);
      ok := true;
    }

    /** uvmunmap(), from page number v0; `done` pages are gone when it stops. */
    method Uvmunmap(root: int, v0: nat, npages: nat, doFree: bool) returns (ok: bool, ghost done: nat)
      requires Valid() && IsRoot(owner, root) && v0 + npages <= MAXVPN
      requires doFree ==> OwnedRange(tables, owner, root, v0, npages)
      modifies this
      ensures Valid() && done <= npages && (ok <==> done == npages)
      ensures Released(old(owner), owner, root, v0, done, doFree)
      ensures FlatWithout(old(tables), tables, old(owner), root, v0, done)
      ensures ok <==> Unmappable(old(tables), root, v0, npages)
      ensures OnlyFreed(old(data), data, old(owner), owner)
    {
      hide Inv, Translate, OwnedRange, Released, FlatWithout, HasSlot, OnlyFreed, SameSlots;
      OnlyFreedRefl(data, owner);
      SameSlotsRefl(tables, owner);
      var a := v0;
      done := 0;
      ReleasedNone(owner, root, v0, doFree);
      FlatWithoutNone(tables, owner, root, v0);
      while a < v0 + npages
        invariant a == v0 + done && done <= npages && Valid() && IsRoot(owner, root)
        invariant Released(old(owner), owner, root, v0, done, doFree)
        invariant FlatWithout(old(tables), tables, old(owner), root, v0, done)
        invariant SameSlots(old(tables), tables, old(owner)) && OnlyFreed(old(data), data, old(owner), owner)
        invariant Unmappable(old(tables), root, v0, done)
      {
        ghost var t0, o0, d0 := tables, owner, data;
        UnmapAhead(old(tables), old(owner), tables, owner, root, v0, done, npages, doFree);
        SlotAhead(old(tables), old(owner), tables, root, a);
        ok := UnmapOne(root, a, doFree);
        UnmapStep(old(tables), old(owner), t0, o0, tables, owner, root, v0, done, doFree, ok);
        UnmapData(old(data), d0, data, old(tables), old(owner), t0, o0, tables, owner, root, v0, done, doFree, ok);
        if !ok {
          return;
        }
        a := a + 1;
        done := done + 1;
      }
      ok := true;
    }

    /** uvmdealloc(): returns the new size; `ok` is false where uvmunmap panics. */
    method Uvmdealloc(root: int, oldsz: nat, newsz: nat) returns (sz: nat, ok: bool)
      requires Valid() && IsRoot(owner, root) && PageUp(oldsz) <= MAXVPN
      requires newsz < oldsz ==>
                 OwnedRange(tables, owner, root, PageUp(newsz), PageUp(oldsz) - PageUp(newsz))
      modifies this
      ensures Valid() && sz == if newsz >= oldsz then oldsz else newsz
      ensures ok && newsz < oldsz ==>
                && Released(old(owner), owner, root, PageUp(newsz), PageUp(oldsz) - PageUp(newsz), true)
                && FlatWithout(old(tables), tables, old(owner), root, PageUp(newsz), PageUp(oldsz) - PageUp(newsz))
      ensures newsz >= oldsz ==> ok && tables == old(tables) && owner == old(owner) && freelist == old(freelist)
      ensures newsz < oldsz ==> (ok <==> Unmappable(old(tables), root, PageUp(newsz), PageUp(oldsz) - PageUp(newsz)))
      ensures OnlyFreed(old(data), data, old(owner), owner)
    {
      hide Inv, Translate, OwnedRange, Released, FlatWithout, HasSlot;
      if newsz >= oldsz {
        return oldsz, true;
      }
      ok := true;
      PageUpMono(newsz, oldsz);
      if PageUp(newsz) < PageUp(oldsz) {
        ghost var done;
        ok, done := Uvmunmap(root, PageUp(newsz), PageUp(oldsz) - PageUp(newsz), true);
      } else {
        ReleasedNone(owner, root, PageUp(newsz), true);
        FlatWithoutNone(tables, owner, root, PageUp(newsz));
      }
      sz := newsz;
    }

    /**
      The common body of uvmalloc and uvmcopy: allocate a page, fill it, map it at v. On
      failure the page goes back.
     */
    method AllocPage(root: int, v: nat, perm: int, content: Content) returns (ok: bool, ghost q: int)
      requires Valid() && IsRoot(owner, root) && v < MAXVPN && Translate(tables, root, v).None?
      modifies this
      ensures Valid() && DataKept(old(data), data, old(owner))
      ensures !ok ==> SameFlat(old(tables), tables, old(owner)) && Grown(old(owner), owner, root)
      ensures ok ==> FlatWith(old(tables), tables, old(owner), root, v, 1, q, WithV(perm))
      ensures ok ==> OneMore(old(owner), owner, root, v, q)
      ensures ok ==> q in data && data[q] == content
    {
      hide Inv, Translate, WithV, Unreferenced, DataKept, Grown, FlatWith, SameFlat, OneMore;
      DataKeptRefl(data, owner);
      GrownRefl(owner, root);
      SameFlatRefl(tables, owner);
      var m := Kalloc();
      if m.None? {
        return false, 0;
      }
      q := m.value;
      data := data[m.value := content];
      ghost var t0, o0, d0 := tables, owner, data;
      SamePage(v);
      assert o0[q].Other? && IsRoot(o0, root);
      var res;
      ghost var done;
      res, done := Mappages(root, v * 4096, 4096, m.value, perm);
      AllocData(old(data), data, content, old(owner), q, d0);
      GrownKeeps(o0, owner, root, q);
      if !res.Mapped? {
        StillUnreferenced(t0, o0, tables, owner, root, v, done, q, WithV(perm));
        AllocBack(t0, tables, old(owner), owner, root, q, data);
        Kfree(m.value);
        return false, q;
      }
      AdoptFacts(t0, o0, tables, freelist, owner, root, v, q, WithV(perm));
      AllocOwners(t0, tables, old(owner), owner, root, v, q, WithV(perm));
      owner := owner[m.value := Leaf(root, v)];
      ok := true;
    }

    /** Undoes the leaves taken so far: the error paths of uvmalloc and uvmcopy. */
    method Undo(root: int, lo: nat, n: nat, ghost t0: Tables, ghost o0: Owners, ghost want: seq<Want>)
      requires Valid() && IsRoot(o0, root) && IsRoot(owner, root) && lo + n <= MAXVPN && n <= |want|
      requires GrewTo(t0, o0, tables, owner, data, root, lo, n, want) && LeafFlags(want)
      requires NoLeafIn(o0, root, lo, n)
      requires forall v :: lo <= v < lo + n ==> Translate(t0, root, v).None?
      modifies this
      ensures Valid() && SameFlat(t0, tables, o0) && Grown(o0, owner, root)
      ensures OnlyFreed(old(data), data, old(owner), owner)
    {
      hide Inv, Translate, GrewTo, LeafFlags, Released, FlatWithout, HasSlot, OnlyFreed;
      UndoReady(t0, o0, tables, owner, data, root, lo, n, want);
      ghost var t1, o1, d1 := tables, owner, data;
      LeavesUnmappable(tables, root, lo, n);
      var ok;
      ghost var done;
      ok, done := Uvmunmap(root, lo, n, true);
      UndoDone(t0, o0, t1, o1, d1, tables, owner, root, lo, n, want);
    }

    /**
      uvmalloc() for a range that is not mapped yet. Returns the new size with every page of
      the range mapped to a zeroed page of its own, or 0 with every translation as before and
      no leaf page kept.
     */
    method Uvmalloc(root: int, oldsz: nat, newsz: nat, xperm: int) returns (sz: nat)
      requires Valid() && IsRoot(owner, root) && PageUp(newsz) <= MAXVPN
      requires xperm == 0 || xperm == 4 || xperm == 8 || xperm == 12
      requires forall v :: PageUp(oldsz) <= v < PageUp(newsz) ==> Translate(tables, root, v).None?
      modifies this
      ensures Valid()
      ensures newsz < oldsz ==> sz == oldsz && tables == old(tables) && owner == old(owner)
      ensures newsz >= oldsz && (newsz == 0 || sz != 0) ==>
                && sz == newsz && PageUp(oldsz) <= PageUp(newsz)
                && GrewTo(old(tables), old(owner), tables, owner, data, root, PageUp(oldsz),
                          PageUp(newsz) - PageUp(oldsz), ZeroPages(PageUp(newsz) - PageUp(oldsz), xperm))
      ensures newsz >= oldsz && newsz != 0 && sz == 0 ==>
                SameFlat(old(tables), tables, old(owner)) && Grown(old(owner), owner, root)
      ensures DataKept(old(data), data, old(owner))
    {
      hide Inv, Translate, GrewTo, WithV, ZeroPages, DataKept, OnlyFreed;
      DataKeptRefl(data, owner);
      if newsz < oldsz {
        return oldsz;
      }
      PageUpMono(oldsz, newsz);
      var lo := PageUp(oldsz);
      var n := PageUp(newsz) - lo;
      ghost var want := ZeroPages(n, xperm);
      ZeroPagesFacts(n, xperm);
      NoLeaves(tables, freelist, owner, root, lo, n);
      var k := 0;
      GrewToNone(tables, owner, data, root, lo, want);
      while k < n
        invariant 0 <= k <= n && Valid() && IsRoot(owner, root)
        invariant GrewTo(old(tables), old(owner), tables, owner, data, root, lo, k, want)
        invariant DataKept(old(data), data, old(owner))
      {
        ghost var t0, o0, d0 := tables, owner, data;
        GrewToOutside(old(tables), old(owner), tables, owner, data, root, lo, k, want, lo + k);
        var ok;
        ghost var q;
        ok, q := AllocPage(root, lo + k, 2 + 16 + xperm, Zeros());
        GrewData(old(tables), old(owner), t0, o0, d0, old(data), data, root, lo, k, want);
        if !ok {
          GrewToGrown(old(tables), old(owner), t0, o0, d0, tables, owner, data, root, lo, k, want);
          ghost var o1, d1 := owner, data;
          Undo(root, lo, k, old(tables), old(owner), want);
          UndoKeeps(old(data), d1, data, old(owner), o1, owner, root);
          return 0;
        }
        GrewToStep(old(tables), old(owner), t0, o0, d0, tables, owner, data, root, lo, k, want, q);
        k := k + 1;
      }
      sz := newsz;
    }

    /** uvmcopy() of the first n pages of `from`, all present, into an empty range of `to`. */
    method Uvmcopy(from: int, to: int, n: nat) returns (ok: bool)
      requires Valid() && IsRoot(owner, from) && IsRoot(owner, to) && from != to && n <= MAXVPN
      requires AllLeaves(tables, from, 0, n)
      requires InUse(tables, owner, data, from, n)
      requires forall v :: 0 <= v < n ==> Translate(tables, to, v).None?
      modifies this
      ensures Valid()
      ensures ok ==> GrewTo(old(tables), old(owner), tables, owner, data, to, 0, n,
                            Copied(old(tables), old(data), from, n))
      ensures !ok ==> SameFlat(old(tables), tables, old(owner)) && Grown(old(owner), owner, to)
      ensures DataKept(old(data), data, old(owner)) // the parent's pages among them
    {
      hide Inv, Translate, GrewTo, WithV, Copied, AllLeaves, InUse, DataKept, OnlyFreed;
      DataKeptRefl(data, owner);
      ghost var want := Copied(tables, data, from, n);
      CopiedFacts(tables, owner, data, from, n);
      NoLeaves(tables, freelist, owner, to, 0, n);
      var i := 0;
      GrewToNone(tables, owner, data, to, 0, want);
      while i < n
        invariant 0 <= i <= n && Valid() && IsRoot(owner, to) && IsRoot(owner, from)
        invariant GrewTo(old(tables), old(owner), tables, owner, data, to, 0, i, want)
        invariant CopySource(old(tables), old(data), tables, data, from, n)
        invariant DataKept(old(data), data, old(owner))
      {
        ghost var t0, o0, d0 := tables, owner, data;
        GrewToOutside(old(tables), old(owner), tables, owner, data, to, 0, i, want, i);
        var slot := Walk(from, i, false);
        SomeHasSlot(tables, from, i);
        SlotFacts(tables, freelist, owner, from, i);
        var pte := tables[slot.value][Px0(i)];
        ghost var q;
        WithVOfValid(pte.flags);
        ok, q := AllocPage(to, i, pte.flags, data[pte.ppn]);
        GrewData(old(tables), old(owner), t0, o0, d0, old(data), data, to, 0, i, want);
        if !ok {
          GrewToGrown(old(tables), old(owner), t0, o0, d0, tables, owner, data, to, 0, i, want);
          ghost var o1, d1 := owner, data;
          Undo(to, 0, i, old(tables), old(owner), want);
          UndoKeeps(old(data), d1, data, old(owner), o1, owner, to);
          return false;
        }
        CopySourceStep(old(tables), old(owner), old(data), t0, o0, d0, tables, data, from, to, n, i, want, q);
        GrewToStep(old(tables), old(owner), t0, o0, d0, tables, owner, data, to, 0, i, want, q);
        i := i + 1;
      }
      ok := true;
    }

    /** uvmcreate(): an empty root table. */
    method Uvmcreate() returns (root: Option<int>)
      requires Valid()
      modifies this
      ensures Valid()
      ensures root.None? <==> old(freelist) == []
      ensures root.None? ==> tables == old(tables) && owner == old(owner)
      ensures root.Some? ==> root.value in old(owner) && old(owner)[root.value].Free?
      ensures root.Some? ==> owner == old(owner)[root.value := Node(root.value, Root)] && NoMappings(tables, root.value)
      ensures SameFlat(old(tables), tables, old(owner)) && DataKept(old(data), data, old(owner))
    {
      hide Inv, Translate;
      root := Kalloc();
      if root.Some? {
        NewRoot(tables, freelist, owner, root.value);
        data := data - {root.value};
        tables := AddRoot(tables, root.value);
        owner := owner[root.value := Node(root.value, Root)];
      }
    }

    /**
      fork's use of them: an empty address space, then a copy of the first n pages of `from`
      into it. On failure everything is as before, but for the new root and its tables.
     */
    method ForkMemory(from: int, n: nat) returns (to: Option<int>, ok: bool)
      requires Valid() && IsRoot(owner, from) && n <= MAXVPN
      requires AllLeaves(tables, from, 0, n) && InUse(tables, owner, data, from, n)
      modifies this
      ensures Valid() && DataKept(old(data), data, old(owner))
      ensures to.None? ==> !ok && old(freelist) == []
      ensures to.Some? ==> IsRoot(owner, to.value) && to.value in old(owner) && old(owner)[to.value].Free?
      ensures ok ==> to.Some? && forall v :: 0 <= v < n ==>
                && Translate(tables, to.value, v).Some? && Translate(old(tables), from, v).Some?
                && Translate(tables, to.value, v).value.flags == Translate(old(tables), from, v).value.flags
                && Translate(tables, to.value, v).value.ppn in data
                && Translate(old(tables), from, v).value.ppn in old(data)
                && data[Translate(tables, to.value, v).value.ppn]
                   == old(data)[Translate(old(tables), from, v).value.ppn]
    {
      hide Inv, Translate, GrewTo, Copied, AllLeaves, InUse, DataKept, SameFlat, NoMappings;
      ok := false;
      to := Uvmcreate();
      if to.None? {
        return;
      }
      ghost var t0, o0, d0 := tables, owner, data;
      CreateKeeps(old(tables), old(owner), old(data), tables, owner, data, from, to.value, n);
      ok := Uvmcopy(from, to.value, n);
      CreateThenKept(old(data), d0, data, old(owner), to.value);
      if ok {
        CopiedBytes(old(tables), old(owner), old(data), t0, o0, d0, tables, owner, data, from, to.value, n);
      } else {
        GrownRoots(o0, owner, to.value);
      }
    }

    /**
      freewalk() on the table in page p, the node of r at `path`. t0, f0, o0 are the state in
      which the tear-down of r began; the subtree of p is as it was then.
     */
    method Freewalk(p: int, ghost r: int, ghost path: Path, ghost t0: Tables, ghost f0: seq<int>, ghost o0: Owners)
      requires Inv(t0, f0, o0) && NoMappings(t0, r) && p in o0 && o0[p] == Node(r, path)
      requires Intact(t0, o0, tables, owner, r, path) && FreeInv(freelist, owner)
      modifies this
      decreases if path.Root? then 2 else if path.Mid? then 1 else 0
      ensures tables == Without(old(tables), o0, r, path)
      ensures owner == Prune(old(owner), o0, r, path) && FreeInv(freelist, owner)
      ensures DataOutside(old(data), data, o0, r, path)
    {
      hide DataFirst, DataOutside;
      hide Inv, FreeInv, NoMappings, PruneFirst, Prune, Without, Intact, Cleared;
      IntactAt(t0, f0, o0, tables, owner, r, path, p);
      ClearedNone(t0, f0, o0, tables, owner, r, path, p);
      DataFirstNone(data, o0, r, path);
      var i := 0;
      while i < 512
        invariant 0 <= i <= 512 && FreeInv(freelist, owner)
        invariant owner == PruneFirst(old(owner), o0, r, path, i)
        invariant DataFirst(old(data), data, o0, r, path, i)
        invariant Cleared(old(tables), tables, o0, r, path, p, i)
      {
        EntryKind(t0, f0, o0, r, path, p, i);
        ClearedAt(t0, o0, old(tables), old(owner), tables, r, path, p, i);
        var pte := tables[p][i];
        if pte.Valid() && pte.flags / 2 % 8 == 0 {
          ChildIntact(t0, o0, old(tables), old(owner), tables, r, path, p, i);
          ClearedStep(t0, f0, o0, old(tables), old(owner), tables, r, path, p, i);
          PruneStep(old(owner), o0, r, path, i);
          ghost var d := data;
          Freewalk(pte.ppn, r, ChildPath(path, i), t0, f0, o0);
          DataFirstStep(old(data), d, data, old(owner), o0, r, path, i);
          tables := tables[p := tables[p][i := ZERO]];
        } else {
          assert !pte.Valid(); // no panic
          ClearedSkip(t0, f0, o0, old(tables), old(owner), tables, r, path, p, i);
          PruneSkip(t0, f0, o0, old(owner), r, path, p, i);
          DataFirstSkip(old(data), data, t0, f0, o0, old(owner), r, path, p, i);
        }
        i := i + 1;
      }
      ClearedAll(t0, f0, o0, old(tables), old(owner), tables, r, path, p);
      PushFreeInv(freelist, owner, p);
      DataFirstAll(old(data), data, t0, f0, o0, old(owner), r, path, p);
      PushFree(p);
      tables := tables - {p};
      owner := owner[p := Free];
    }

    /**
      uvmfree(): when nothing is mapped beyond sz, every leaf and every table of root goes back
      to the free list, once, and no other page changes use.
     */
    method Uvmfree(root: int, sz: nat) returns (ok: bool)
      requires Valid() && IsRoot(owner, root) && PageUp(sz) <= MAXVPN
      requires OwnedRange(tables, owner, root, 0, PageUp(sz))
      requires forall v :: PageUp(sz) <= v < MAXVPN ==> Translate(tables, root, v).None?
      modifies this
      ensures Valid() && (ok <==> Unmappable(old(tables), root, 0, PageUp(sz)))
      ensures OnlyFreed(old(data), data, old(owner), owner)
      ensures ok ==> TornDown(old(owner), owner, root)
      ensures ok ==> forall r, v :: IsRoot(owner, r) && 0 <= v < MAXVPN ==>
                Translate(tables, r, v) == Translate(old(tables), r, v)
    {
      hide Inv, Translate, OwnedRange, Released, FlatWithout, NoMappings, Prune, Without, Intact, HasSlot;
      hide OnlyFreed, DataOutside;
      OnlyFreedRefl(data, owner);
      ok := true;
      ghost var done: nat := 0;
      ReleasedNone(owner, root, 0, true);
      FlatWithoutNone(tables, owner, root, 0);
      if sz > 0 {
        ok, done := Uvmunmap(root, 0, PageUp(sz), true);
      }
      if !ok {
        return;
      }
      Emptied(old(tables), old(owner), tables, freelist, owner, root, PageUp(sz));
      ghost var t0, f0, o0, d0 := tables, freelist, owner, data;
      IntactStart(tables, freelist, owner, root);
      Freewalk(root, root, Root, tables, freelist, owner);
      TornDownData(old(data), d0, data, old(owner), o0, root, PageUp(sz));
      PrunedInv(t0, f0, o0, root, freelist);
      TornDownFacts(old(tables), old(freelist), old(owner), t0, f0, o0, root, PageUp(sz));
    }
  }

  lemma GrowFacts(t: Tables, f: seq<int>, o: Owners, p: int, i: int, q: int)
    requires Linkable(t, f, o, p, i, q)
    ensures Inv(LinkNode(t, p, i, q), f, o[q := Node(o[p].root, ChildPath(o[p].path, i))])
    ensures SameFlat(t, LinkNode(t, p, i, q), o) && q !in t
    ensures forall x, j :: Entry(LinkNode(t, p, i, q), x, j) ==
              if x == p && j == i then Pte(q, PTE_V) else if x == q then ZERO else Entry(t, x, j)
  {
    hide LinkNode, Translate;
    assert q !in t;
    Link(t, f, o, p, i, q);
    LinkNodeEntry(t, p, i, q);
    forall r, v | IsRoot(o, r) && 0 <= v < MAXVPN
      ensures Translate(LinkNode(t, p, i, q), r, v) == Translate(t, r, v)
    {
      LinkTranslate(t, f, o, p, i, q, r, v);
    }
  }

  lemma PxBounds(v: int)
    requires 0 <= v < MAXVPN
    ensures 0 <= Px2(v) < 256 && 0 <= Px1(v) < ENTRIES && 0 <= Px0(v) < ENTRIES
  {}

  /** The nodes walk meets are tables of the right kind. */
  lemma NodeFacts(t: Tables, f: seq<int>, o: Owners, r: int, v: int)
    requires Inv(t, f, o) && IsRoot(o, r) && 0 <= v < MAXVPN
    ensures r in t && |t[r]| == ENTRIES
    ensures Level1(t, r, v).Valid() ==>
              var m := Level1(t, r, v).ppn;
              m in o && m in t && |t[m]| == ENTRIES && m != r && o[m] == Node(r, Mid(Px2(v)))
    ensures HasSlot(t, r, v) ==>
              var n := SlotPage(t, r, v);
              n in o && n in t && |t[n]| == ENTRIES && n != r && n != Level1(t, r, v).ppn
              && o[n] == Node(r, Low(Px2(v), Px1(v)))
  {
    WalkOwned(t, f, o, r, v);
  }


  lemma SomeHasSlot(t: Tables, r: int, v: int)
    ensures Translate(t, r, v).Some? ==> HasSlot(t, r, v)
  {}

  lemma NoSlotNone(t: Tables, r: int, v: int)
    requires !HasSlot(t, r, v)
    ensures Translate(t, r, v).None?
  {}

  lemma SlotFacts(t: Tables, f: seq<int>, o: Owners, r: int, v: int)
    requires Inv(t, f, o) && IsRoot(o, r) && 0 <= v < MAXVPN && HasSlot(t, r, v)
    ensures var n := SlotPage(t, r, v);
            && n in t && |t[n]| == ENTRIES && 0 <= Px0(v) < ENTRIES
            && Translate(t, r, v) == if t[n][Px0(v)].Valid() then Some(t[n][Px0(v)]) else None
  {
    WalkOwned(t, f, o, r, v);
    PxRange(v);
  }

  /** mappages' store seen from before the walk that preceded it. */
  lemma MapFacts(t0: Tables, o0: Owners, t: Tables, f: seq<int>, o: Owners, r: int, v: int, e: Pte)
    requires Inv(t, f, o) && IsRoot(o, r) && 0 <= v < MAXVPN && HasSlot(t, r, v) && Translate(t, r, v).None?
    requires SameFlat(t0, t, o0) && (forall x :: IsRoot(o0, x) ==> IsRoot(o, x))
    requires (e.ppn !in o || o[e.ppn].Other?) && e.Valid()
    ensures SlotPage(t, r, v) in t && |t[SlotPage(t, r, v)]| == ENTRIES && 0 <= Px0(v) < ENTRIES
    ensures var t' := SetEntry(t, SlotPage(t, r, v), Px0(v), e);
            Inv(t', f, o) && FlatWith(t0, t', o0, r, v, 1, e.ppn, e.flags)
  {
    hide Translate, HasSlot, SlotPage, Px0, SetEntry;
    MapKeep(t, f, o, r, v, e);
    var t' := SetEntry(t, SlotPage(t, r, v), Px0(v), e);
    forall r', v' | IsRoot(o0, r') && 0 <= v' < MAXVPN
      ensures Translate(t', r', v') ==
              if r' == r && v <= v' < v + 1 then Some(Pte(e.ppn + v' - v, e.flags)) else Translate(t0, r', v')
    {
      SetLeafTranslate(t, f, o, r, v, e, r', v');
    }
  }

  lemma FlatWithNone(t: Tables, o: Owners, root: int, v0: int, ppn: int, flags: int)
    ensures FlatWith(t, t, o, root, v0, 0, ppn, flags)
  {}

  lemma DataKeptRefl(d: map<int, Content>, o: Owners)
    ensures DataKept(d, d, o)
  {}

  lemma GrownRefl(o: Owners, root: int)
    ensures Grown(o, o, root)
  {}

  lemma GrownTrans(o: Owners, o': Owners, o'': Owners, root: int)
    requires Grown(o, o', root) && Grown(o', o'', root)
    ensures Grown(o, o'', root) && forall r :: IsRoot(o'', r) <==> IsRoot(o, r)
  {}

  /** A page in hand or unmanaged stays so while tables grow. */
  lemma GrownKeeps(o: Owners, o': Owners, root: int, p: int)
    requires Grown(o, o', root)
    ensures p !in o || o[p].Other? ==> p !in o' || o'[p].Other?
    ensures p in o <==> p in o'
    ensures forall r :: IsRoot(o', r) <==> IsRoot(o, r)
  {}

  lemma FlatWithStep(t0: Tables, o0: Owners, t: Tables, o: Owners, t': Tables, root: int,
                     v0: int, n: nat, ppn: int, flags: int, more: bool)
    requires FlatWith(t0, t, o0, root, v0, n, ppn, flags)
    requires FlatWith(t, t', o, root, v0 + n, if more then 1 else 0, ppn + n, flags)
    requires forall r :: IsRoot(o0, r) ==> IsRoot(o, r)
    ensures FlatWith(t0, t', o0, root, v0, if more then n + 1 else n, ppn, flags)
  {
    hide Translate;
  }

  lemma ReleasedNone(o: Owners, root: int, v0: int, doFree: bool)
    ensures Released(o, o, root, v0, 0, doFree)
  {}

  lemma FlatWithoutNone(t: Tables, o: Owners, root: int, v0: int)
    ensures FlatWithout(t, t, o, root, v0, 0)
  {}

  lemma ClearTranslate(t: Tables, f: seq<int>, o: Owners, r: int, v: int)
    requires Inv(t, f, o) && IsRoot(o, r) && 0 <= v < MAXVPN && HasSlot(t, r, v)
    ensures SlotPage(t, r, v) in t && |t[SlotPage(t, r, v)]| == ENTRIES && 0 <= Px0(v) < ENTRIES
    ensures FlatWithout(t, SetEntry(t, SlotPage(t, r, v), Px0(v), ZERO), o, r, v, 1)
    ensures SameSlots(t, SetEntry(t, SlotPage(t, r, v), Px0(v), ZERO), o)
  {
    hide Translate, HasSlot, SlotPage, Px0, SetEntry;
    SetLeafTranslate(t, f, o, r, v, ZERO, r, v);
    forall r', v' | IsRoot(o, r') && 0 <= v' < MAXVPN
      ensures Translate(SetEntry(t, SlotPage(t, r, v), Px0(v), ZERO), r', v') ==
              if r' == r && v <= v' < v + 1 then None else Translate(t, r', v')
      ensures HasSlot(SetEntry(t, SlotPage(t, r, v), Px0(v), ZERO), r', v') <==> HasSlot(t, r', v')
    {
      SetLeafTranslate(t, f, o, r, v, ZERO, r', v');
    }
  }

  /** Clearing the entry of (r, v), with or without freeing its page. */
  lemma UnmapFacts(t: Tables, f: seq<int>, o: Owners, r: int, v: int, doFree: bool)
    requires Inv(t, f, o) && IsRoot(o, r) && 0 <= v < MAXVPN && HasSlot(t, r, v)
    requires doFree ==> OwnedRange(t, o, r, v, 1)
    ensures SlotPage(t, r, v) in t && |t[SlotPage(t, r, v)]| == ENTRIES && 0 <= Px0(v) < ENTRIES
    ensures Translate(t, r, v).None? ==>
              Released(o, o, r, v, 1, doFree) && FlatWithout(t, t, o, r, v, 1)
    ensures SameSlots(t, SetEntry(t, SlotPage(t, r, v), Px0(v), ZERO), o)
    ensures Translate(t, r, v).Some? ==>
              var q := Translate(t, r, v).value.ppn;
              var t', o' := SetEntry(t, SlotPage(t, r, v), Px0(v), ZERO), ReleasedOwner(o, q, r, v, doFree);
              && Inv(t', if doFree then [q] + f else f, o') && Released(o, o', r, v, 1, doFree)
              && FlatWithout(t, t', o, r, v, 1)
  {
    hide HasSlot, SlotPage, Px0, SetEntry, Translate;
    ClearTranslate(t, f, o, r, v);
    LeavesAt(t, f, o, r, v);
    if Translate(t, r, v).Some? {
      var q := Translate(t, r, v).value.ppn;
      var t', o' := SetEntry(t, SlotPage(t, r, v), Px0(v), ZERO), ReleasedOwner(o, q, r, v, doFree);
      if q in o && o[q] == Leaf(r, v) {
        UnmapOwned(t, f, o, r, v, q, t', doFree);
      } else {
        hide Inv;
        UnmapForeign(t, f, o, r, v, q);
      }
    } else {
      hide Inv;
    }
  }

  /** kfree's junk fill touches the released page only. */
  lemma ReleasedData(d: map<int, Content>, o: Owners, root: int, v: int, q: int, doFree: bool)
    requires doFree ==> q in o && o[q] == Leaf(root, v)
    ensures OnlyFreed(d, if doFree then d[q := seq(4096, _ => 1)] else d, o, ReleasedOwner(o, q, root, v, doFree))
  {}

  lemma OwnedAt(t: Tables, o: Owners, r: int, v: int)
    requires OwnedRange(t, o, r, v, 1) && 0 <= v < MAXVPN && Translate(t, r, v).Some?
    ensures Translate(t, r, v).value.ppn in o && o[Translate(t, r, v).value.ppn] == Leaf(r, v)
  {
    hide Translate;
  }

  /** A page whose owner is Leaf(r, v) is the one (r, v) maps. */
  lemma LeavesAt(t: Tables, f: seq<int>, o: Owners, r: int, v: int)
    requires Inv(t, f, o)
    ensures forall p :: p in o && o[p] == Leaf(r, v) ==>
              Translate(t, r, v).Some? && Translate(t, r, v).value.ppn == p
  {
    hide Translate;
    forall p | p in o && o[p] == Leaf(r, v)
      ensures Translate(t, r, v).Some? && Translate(t, r, v).value.ppn == p
    {
      assert Placed(t, o, p);
    }
  }

  lemma UnmapOwned(t: Tables, f: seq<int>, o: Owners, r: int, v: int, q: int, t': Tables, doFree: bool)
    requires Inv(t, f, o) && IsRoot(o, r) && 0 <= v < MAXVPN && HasSlot(t, r, v)
    requires Translate(t, r, v).Some? && Translate(t, r, v).value.ppn == q && q in o && o[q] == Leaf(r, v)
    requires SlotPage(t, r, v) in t && |t[SlotPage(t, r, v)]| == ENTRIES && 0 <= Px0(v) < ENTRIES
    requires t' == SetEntry(t, SlotPage(t, r, v), Px0(v), ZERO) && FlatWithout(t, t', o, r, v, 1)
    ensures Inv(t', if doFree then [q] + f else f, o[q := if doFree then Free else Other])
  {
    hide HasSlot, SlotPage, Px0, SetEntry, Translate, Inv;
    var o1 := o[q := Other];
    Disown(t, f, o, q, r, v);
    ClearLeaf(t, f, o1, r, v);
    if doFree {
      forall r', v' | IsRoot(o1, r') && 0 <= v' < MAXVPN && Translate(t', r', v').Some?
        ensures Translate(t', r', v').value.ppn != q
      {
        assert IsRoot(o, r');
      }
      GiveFree(t', f, o1, q);
      assert o1[q := Free] == o[q := Free];
    }
  }

  lemma UnmapForeign(t: Tables, f: seq<int>, o: Owners, r: int, v: int, q: int)
    requires Inv(t, f, o) && IsRoot(o, r) && 0 <= v < MAXVPN && HasSlot(t, r, v)
    requires Translate(t, r, v).Some? && Translate(t, r, v).value.ppn == q && (q !in o || o[q] != Leaf(r, v))
    ensures SlotPage(t, r, v) in t && |t[SlotPage(t, r, v)]| == ENTRIES && 0 <= Px0(v) < ENTRIES
    ensures Inv(SetEntry(t, SlotPage(t, r, v), Px0(v), ZERO), f, o)
  {
    hide HasSlot, SlotPage, Px0, SetEntry, Translate, Inv;
    if q in o { LeafOnce(t, f, o, r, v); }
    ClearLeaf(t, f, o, r, v);
  }

  /** What is left to unmap is still owned. */
  lemma UnmapAhead(t0: Tables, o0: Owners, t: Tables, o: Owners, root: int, v0: int, done: nat, n: nat, doFree: bool)
    requires IsRoot(o0, root) && 0 <= v0 && done < n && v0 + n <= MAXVPN
    requires doFree ==> OwnedRange(t0, o0, root, v0, n)
    requires Released(o0, o, root, v0, done, doFree) && FlatWithout(t0, t, o0, root, v0, done)
    ensures doFree ==> OwnedRange(t, o, root, v0 + done, 1)
    ensures Translate(t, root, v0 + done) == Translate(t0, root, v0 + done)
  {
    hide Translate;
  }

  lemma UnmapStep(t0: Tables, o0: Owners, t: Tables, o: Owners, t': Tables, o': Owners, root: int,
                  v0: int, done: nat, doFree: bool, more: bool)
    requires Released(o0, o, root, v0, done, doFree) && FlatWithout(t0, t, o0, root, v0, done)
    requires Released(o, o', root, v0 + done, if more then 1 else 0, doFree)
    requires FlatWithout(t, t', o, root, v0 + done, if more then 1 else 0)
    ensures Released(o0, o', root, v0, if more then done + 1 else done, doFree)
    ensures FlatWithout(t0, t', o0, root, v0, if more then done + 1 else done)
    ensures IsRoot(o0, root) ==> IsRoot(o', root)
  {
    hide Translate;
    assert forall r :: IsRoot(o0, r) ==> IsRoot(o, r);
  }

  /** All tables and leaves of root, and no other page, become free. */
  ghost predicate TornDown(o: Owners, o': Owners, root: int) {
    && o.Keys == o'.Keys
    && (forall p :: p in o ==>
          o'[p] == if (o[p].Node? || o[p].Leaf?) && o[p].root == root then Free else o[p])
  }

  lemma Emptied(t0: Tables, o0: Owners, t: Tables, f: seq<int>, o: Owners, root: int, n: nat)
    requires FlatWithout(t0, t, o0, root, 0, n) && Released(o0, o, root, 0, n, true) && IsRoot(o0, root)
    requires forall v :: n <= v < MAXVPN ==> Translate(t0, root, v).None?
    ensures NoMappings(t, root) && IsRoot(o, root)
  {
    hide Translate;
  }

  lemma IntactStart(t: Tables, f: seq<int>, o: Owners, r: int)
    requires Inv(t, f, o)
    ensures Intact(t, o, t, o, r, Root) && FreeInv(f, o)
  {}

  lemma IntactAt(t0: Tables, f0: seq<int>, o0: Owners, t: Tables, o: Owners, r: int, path: Path, p: int)
    requires Inv(t0, f0, o0) && Intact(t0, o0, t, o, r, path) && p in o0 && o0[p] == Node(r, path)
    ensures p in t && |t[p]| == ENTRIES && p in o && o[p] == o0[p]
  {
    assert Under(o0[p], r, path);
  }

  lemma ClearedAt(t0: Tables, o0: Owners, tS: Tables, oS: Owners, t: Tables, r: int, path: Path, p: int, k: int)
    requires Intact(t0, o0, tS, oS, r, path) && Cleared(tS, t, o0, r, path, p, k)
    requires p in o0 && o0[p] == Node(r, path) && 0 <= k < ENTRIES
    ensures p in t && |t[p]| == ENTRIES && t[p][k] == Entry(t0, p, k)
  {
    assert Under(o0[p], r, path);
  }

  lemma TornDownFacts(t: Tables, f: seq<int>, o: Owners, t0: Tables, f0: seq<int>, o0: Owners, root: int, n: nat)
    requires Inv(t, f, o) && Inv(t0, f0, o0) && IsRoot(o, root)
    requires FlatWithout(t, t0, o, root, 0, n) && Released(o, o0, root, 0, n, true)
    requires forall v :: n <= v < MAXVPN ==> Translate(t, root, v).None?
    ensures TornDown(o, Prune(o0, o0, root, Root), root)
    ensures forall r, v :: IsRoot(Prune(o0, o0, root, Root), r) && 0 <= v < MAXVPN ==>
              Translate(Without(t0, o0, root, Root), r, v) == Translate(t, r, v)
  {
    hide Translate, Inv, Without;
    forall p | p in o && o[p].Leaf? && o[p].root == root ensures 0 <= o[p].vpn < n {
      LeafRange(t, f, o, p);
    }
    forall r, v | IsRoot(Prune(o0, o0, root, Root), r) && 0 <= v < MAXVPN
      ensures Translate(Without(t0, o0, root, Root), r, v) == Translate(t, r, v)
    {
      assert r != root && IsRoot(o0, r) && IsRoot(o, r);
      PrunedTranslate(t0, f0, o0, root, r, v);
    }
  }

  lemma TornDownData(dS: map<int, Content>, d: map<int, Content>, d': map<int, Content>, oS: Owners, o: Owners,
                     root: int, n: nat)
    requires Released(oS, o, root, 0, n, true) && OnlyFreed(dS, d, oS, o) && DataOutside(d, d', o, root, Root)
    ensures OnlyFreed(dS, d', oS, Prune(o, o, root, Root))
  {
    var o' := Prune(o, o, root, Root);
    assert OnlyFreed(d, d', o, o');
    hide OnlyFreed;
    OnlyFreedTrans(dS, d, d', oS, o, o');
  }

  lemma DataFirstNone(d: map<int, Content>, o0: Owners, r: int, path: Path)
    ensures DataFirst(d, d, o0, r, path, 0)
  {}

  lemma DataFirstStep(dS: map<int, Content>, d: map<int, Content>, d': map<int, Content>, o: Owners, o0: Owners,
                      r: int, path: Path, k: int)
    requires !path.Low? && 0 <= k
    requires DataFirst(dS, d, o0, r, path, k) && DataOutside(d, d', o0, r, ChildPath(path, k))
    ensures DataFirst(dS, d', o0, r, path, k + 1)
  {
    PruneStep(o, o0, r, path, k);
    hide Under, UnderFirst;
  }

  lemma DataFirstSkip(dS: map<int, Content>, d: map<int, Content>, t0: Tables, f0: seq<int>, o0: Owners, o: Owners,
                      r: int, path: Path, p: int, k: int)
    requires Inv(t0, f0, o0) && p in o0 && o0[p] == Node(r, path) && 0 <= k < ENTRIES
    requires path.Low? || !Entry(t0, p, k).Valid()
    requires DataFirst(dS, d, o0, r, path, k)
    ensures DataFirst(dS, d, o0, r, path, k + 1)
  {
    hide Inv, UnderFirst;
    PruneSkip(t0, f0, o0, o, r, path, p, k);
  }

  lemma DataFirstAll(dS: map<int, Content>, d: map<int, Content>, t0: Tables, f0: seq<int>, o0: Owners, o: Owners,
                     r: int, path: Path, p: int)
    requires Inv(t0, f0, o0) && p in o0 && o0[p] == Node(r, path) && p in o
    requires DataFirst(dS, d, o0, r, path, ENTRIES)
    ensures DataOutside(dS, d[p := seq(4096, _ => 1)], o0, r, path)
  {
    hide Inv, Under, UnderFirst;
    PruneAll(t0, f0, o0, o, r, path, p);
  }

  lemma LeafRange(t: Tables, f: seq<int>, o: Owners, p: int)
    requires Inv(t, f, o) && p in o && o[p].Leaf?
    ensures 0 <= o[p].vpn < MAXVPN && Translate(t, o[p].root, o[p].vpn).Some?
  {
    assert Placed(t, o, p);
  }

  lemma SameSlotsRefl(t: Tables, o: Owners)
    ensures SameSlots(t, t, o)
  {}

  lemma SlotAhead(t0: Tables, o0: Owners, t: Tables, root: int, v: int)
    requires SameSlots(t0, t, o0) && IsRoot(o0, root) && 0 <= v < MAXVPN
    requires Translate(t, root, v) == Translate(t0, root, v)
    ensures UnmappableAt(t, root, v) <==> UnmappableAt(t0, root, v)
  {
    hide Translate, HasSlot;
  }

  lemma UnmapData(dS: map<int, Content>, d: map<int, Content>, d': map<int, Content>, tS: Tables, oS: Owners,
                  t: Tables, o: Owners, t': Tables, o': Owners, root: int, v0: int, done: nat, doFree: bool, more: bool)
    requires Released(oS, o, root, v0, done, doFree)
    requires Released(o, o', root, v0 + done, if more then 1 else 0, doFree)
    requires OnlyFreed(dS, d, oS, o) && OnlyFreed(d, d', o, o')
    requires SameSlots(tS, t, oS) && SameSlots(t, t', o)
    ensures OnlyFreed(dS, d', oS, o') && SameSlots(tS, t', oS)
  {
    hide HasSlot, OnlyFreed;
    OnlyFreedTrans(dS, d, d', oS, o, o');
  }

  /** A new root leaves what uvmcopy will read as it was. */
  lemma CreateKeeps(t: Tables, o: Owners, d: map<int, Content>, t': Tables, o': Owners, d': map<int, Content>,
                    from: int, to: int, n: nat)
    requires IsRoot(o, from) && n <= MAXVPN && AllLeaves(t, from, 0, n) && InUse(t, o, d, from, n)
    requires SameFlat(t, t', o) && DataKept(d, d', o) && to in o && o[to].Free? && o' == o[to := Node(to, Root)]
    requires NoMappings(t', to)
    ensures from != to && IsRoot(o', from) && AllLeaves(t', from, 0, n) && InUse(t', o', d', from, n)
    ensures forall v :: 0 <= v < n ==> Translate(t', to, v).None?
    ensures Copied(t', d', from, n) == Copied(t, d, from, n)
  {
    hide Translate;
    var a, b := Copied(t', d', from, n), Copied(t, d, from, n);
    forall v | 0 <= v < n ensures a[v] == b[v] { assert Translate(t', from, v) == Translate(t, from, v); }
  }

  lemma CreateThenKept(d: map<int, Content>, d': map<int, Content>, d'': map<int, Content>, o: Owners, to: int)
    requires to in o && o[to].Free? && DataKept(d, d', o) && DataKept(d', d'', o[to := Node(to, Root)])
    ensures DataKept(d, d'', o)
  {}

  lemma CopiedBytes(t: Tables, o: Owners, d: map<int, Content>, t0: Tables, o0: Owners, d0: map<int, Content>,
                    t': Tables, o': Owners, d': map<int, Content>, from: int, to: int, n: nat)
    requires n <= MAXVPN && AllLeaves(t, from, 0, n) && InUse(t, o, d, from, n) && IsRoot(o0, to)
    requires Copied(t0, d0, from, n) == Copied(t, d, from, n)
    requires GrewTo(t0, o0, t', o', d', to, 0, n, Copied(t0, d0, from, n))
    ensures IsRoot(o', to)
    ensures forall v :: 0 <= v < n ==>
              && Translate(t', to, v).Some? && Translate(t, from, v).Some?
              && Translate(t', to, v).value.flags == Translate(t, from, v).value.flags
              && Translate(t', to, v).value.ppn in d' && Translate(t, from, v).value.ppn in d
              && d'[Translate(t', to, v).value.ppn] == d[Translate(t, from, v).value.ppn]
  {
    hide Translate;
    var want := Copied(t, d, from, n);
    forall v | 0 <= v < n
      ensures Translate(t, from, v).Some? && Translate(t, from, v).value.ppn in d
      ensures want[v] == Want(Translate(t, from, v).value.flags, d[Translate(t, from, v).value.ppn])
    {}
  }

  lemma SameFlatRefl(t: Tables, o: Owners)
    ensures SameFlat(t, t, o)
  {}

  /** Only the page just taken, free before, has been filled. */
  lemma AllocData(d: map<int, Content>, d': map<int, Content>, content: Content, o: Owners, q: int,
                  d0: map<int, Content>)
    requires q in o && o[q].Free? && DataKept(d0, d', o[q := Other])
    requires q in d0 && d0[q] == content && forall p :: p in d && p != q ==> p in d0 && d0[p] == d[p]
    ensures DataKept(d, d', o) && q in d' && d'[q] == content
    ensures DataKept(d, d'[q := seq(4096, _ => 1)], o)
  {}

  /** The page goes back: the owners are as before, but for new tables. */
  lemma AllocBack(t: Tables, t': Tables, o: Owners, o': Owners, root: int, q: int, d: map<int, Content>)
    requires q in o && o[q].Free? && Grown(o[q := Other], o', root) && SameFlat(t, t', o[q := Other])
    ensures Grown(o, o'[q := Free], root) && SameFlat(t, t', o)
  {
    hide Translate;
    assert forall r :: IsRoot(o, r) ==> IsRoot(o[q := Other], r);
  }

  lemma AllocOwners(t: Tables, t': Tables, o: Owners, o': Owners, root: int, v: int, q: int, flags: int)
    requires q in o && o[q].Free? && Grown(o[q := Other], o', root)
    requires FlatWith(t, t', o[q := Other], root, v, 1, q, flags)
    ensures OneMore(o, o'[q := Leaf(root, v)], root, v, q) && FlatWith(t, t', o, root, v, 1, q, flags)
  {
    hide Translate;
    assert forall r :: IsRoot(o, r) ==> IsRoot(o[q := Other], r);
  }

  lemma SamePage(v: nat)
    ensures v * 4096 / 4096 == v && (v * 4096 + 4096 - 1) / 4096 == v
  {}

  lemma StillUnreferenced(t: Tables, o: Owners, t': Tables, o': Owners, root: int, v: int, n: int, q: int, flags: int)
    requires Unreferenced(t, o, q) && FlatWith(t, t', o, root, v, n, q, flags) && n <= 0
    requires Grown(o, o', root)
    ensures Unreferenced(t', o', q) && SameFlat(t, t', o)
  {
    hide Translate;
    GrownRoots(o, o', root);
  }

  lemma AdoptFacts(t: Tables, o: Owners, t': Tables, f: seq<int>, o': Owners, root: int, v: int, q: int, flags: int)
    requires Inv(t', f, o') && Grown(o, o', root) && IsRoot(o, root) && 0 <= v < MAXVPN
    requires Unreferenced(t, o, q) && FlatWith(t, t', o, root, v, 1, q, flags)
    requires q in o && o[q].Other?
    ensures Inv(t', f, o'[q := Leaf(root, v)]) && q in o' && o'[q].Other?
  {
    hide Inv, Translate;
    GrownRoots(o, o', root);
    assert OnlyAt(t', o', q, root, v);
    Adopt(t', f, o', q, root, v);
  }

  // ---------------------------------------------------------------------------------
  // Ranges of new pages
  // ---------------------------------------------------------------------------------

  lemma ZeroPagesFacts(n: nat, xperm: int)
    requires xperm == 0 || xperm == 4 || xperm == 8 || xperm == 12
    ensures |ZeroPages(n, xperm)| == n && LeafFlags(ZeroPages(n, xperm))
    ensures forall k :: 0 <= k < n ==> ZeroPages(n, xperm)[k] == Want(WithV(2 + 16 + xperm), Zeros())
  {}

  lemma CopiedFacts(t: Tables, o: Owners, d: map<int, Content>, root: int, n: nat)
    requires AllLeaves(t, root, 0, n) && InUse(t, o, d, root, n)
    ensures LeafFlags(Copied(t, d, root, n)) && CopySource(t, d, t, d, root, n)
    ensures forall v :: 0 <= v < n ==>
              Copied(t, d, root, n)[v] ==
              Want(Translate(t, root, v).value.flags, d[Translate(t, root, v).value.ppn])
  {
    forall v | 0 <= v < n ensures Translate(t, root, v).value.Valid() {}
  }

  lemma GrewToNone(t: Tables, o: Owners, d: map<int, Content>, root: int, lo: int, want: seq<Want>)
    ensures GrewTo(t, o, t, o, d, root, lo, 0, want)
  {}

  lemma GrewToOutside(t0: Tables, o0: Owners, t: Tables, o: Owners, d: map<int, Content>,
                      root: int, lo: int, n: nat, want: seq<Want>, v: int)
    requires GrewTo(t0, o0, t, o, d, root, lo, n, want) && IsRoot(o0, root) && 0 <= v < MAXVPN
    requires v < lo || lo + n <= v
    ensures Translate(t, root, v) == Translate(t0, root, v)
  {
    hide Translate;
  }

  /** A failed attempt leaves the range as it was. */
  lemma GrewToGrown(t0: Tables, o0: Owners, t: Tables, o: Owners, d: map<int, Content>, t': Tables, o': Owners,
                    d': map<int, Content>, root: int, lo: nat, n: nat, want: seq<Want>)
    requires GrewTo(t0, o0, t, o, d, root, lo, n, want) && IsRoot(o0, root) && lo + n <= MAXVPN
    requires SameFlat(t, t', o) && Grown(o, o', root) && DataKept(d, d', o)
    ensures GrewTo(t0, o0, t', o', d', root, lo, n, want) && IsRoot(o', root)
  {
    hide Translate;
    assert forall r :: IsRoot(o0, r) ==> IsRoot(o, r);
  }

  lemma GrewToStep(t0: Tables, o0: Owners, t: Tables, o: Owners, d: map<int, Content>, t': Tables, o': Owners,
                   d': map<int, Content>, root: int, lo: nat, n: nat, want: seq<Want>, q: int)
    requires GrewTo(t0, o0, t, o, d, root, lo, n, want) && IsRoot(o0, root) && lo + n < MAXVPN && n < |want|
    requires FlatWith(t, t', o, root, lo + n, 1, q, want[n].flags) && OneMore(o, o', root, lo + n, q)
    requires DataKept(d, d', o) && q in d' && d'[q] == want[n].content
    ensures GrewTo(t0, o0, t', o', d', root, lo, n + 1, want)
    ensures forall r :: IsRoot(o0, r) ==> IsRoot(o', r)
  {
    hide Translate;
    assert forall r :: IsRoot(o0, r) ==> IsRoot(o, r);
  }

  /** Pages in use at the start are in use still, so filling one more page keeps them. */
  lemma GrewData(t0: Tables, o0: Owners, t: Tables, o: Owners, d: map<int, Content>, d0: map<int, Content>,
                 d': map<int, Content>, root: int, lo: int, n: nat, want: seq<Want>)
    requires GrewTo(t0, o0, t, o, d, root, lo, n, want) && DataKept(d0, d, o0) && DataKept(d, d', o)
    ensures DataKept(d0, d', o0)
  {
    hide Translate;
  }

  lemma UndoReady(t0: Tables, o0: Owners, t: Tables, o: Owners, d: map<int, Content>,
                  root: int, lo: nat, n: nat, want: seq<Want>)
    requires GrewTo(t0, o0, t, o, d, root, lo, n, want) && LeafFlags(want)
    ensures OwnedRange(t, o, root, lo, n) && AllLeaves(t, root, lo, n)
  {
    hide Translate;
  }

  lemma UndoDone(t0: Tables, o0: Owners, t: Tables, o: Owners, d: map<int, Content>, t': Tables, o': Owners,
                 root: int, lo: nat, n: nat, want: seq<Want>)
    requires GrewTo(t0, o0, t, o, d, root, lo, n, want)
    requires Released(o, o', root, lo, n, true) && FlatWithout(t, t', o, root, lo, n)
    requires NoLeafIn(o0, root, lo, n)
    requires forall v :: lo <= v < lo + n ==> Translate(t0, root, v).None?
    ensures SameFlat(t0, t', o0) && Grown(o0, o', root)
  {
    hide Translate;
    assert forall r :: IsRoot(o0, r) ==> IsRoot(o, r);
  }

  lemma NoLeaves(t: Tables, f: seq<int>, o: Owners, root: int, lo: int, n: int)
    requires Inv(t, f, o) && forall v :: lo <= v < lo + n ==> Translate(t, root, v).None?
    ensures NoLeafIn(o, root, lo, n)
  {
    hide Inv, Translate;
    forall p | p in o ensures !(o[p].Leaf? && o[p].root == root && lo <= o[p].vpn < lo + n) {
      if o[p].Leaf? { LeavesAt(t, f, o, o[p].root, o[p].vpn); }
    }
  }

  lemma WithVOfValid(flags: int)
    ensures flags % 2 == 1 ==> WithV(flags) == flags
  {}

  /** Filling `to` does not touch what is being copied from `from`. */
  lemma CopySourceStep(t0: Tables, o0: Owners, d0: map<int, Content>, t: Tables, o: Owners, d: map<int, Content>,
                       t': Tables, d': map<int, Content>, from: int, to: int, n: nat, i: nat, want: seq<Want>, q: int)
    requires InUse(t0, o0, d0, from, n) && n <= MAXVPN && from != to && IsRoot(o, from)
    requires GrewTo(t0, o0, t, o, d, to, 0, i, want) && CopySource(t0, d0, t, d, from, n)
    requires DataKept(d, d', o) && (exists flags :: FlatWith(t, t', o, to, i, 1, q, flags))
    ensures CopySource(t0, d0, t', d', from, n)
  {
    hide Translate;
  }
}
