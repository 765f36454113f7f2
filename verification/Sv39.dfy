/**
  The three-level page tables of kernel/vm.c as they lie in physical pages, and the flat map
  from virtual page numbers to entries that they stand for (section 4.4 of the RISC-V
  Privileged Architecture). `owner` says what each managed page is used for.
 */
module Sv39 {
  import opened Basics

  const ENTRIES: nat := 512
  const MAXVPN: nat := 256 * ENTRIES * ENTRIES // MAXVA / PGSIZE

  const PTE_V: int := 1

  /** A page-table entry: physical page number and the ten flag bits. */
  datatype Pte = Pte(ppn: int, flags: int) {
    predicate Valid() { flags % 2 == 1 }
  }

  const ZERO: Pte := Pte(0, 0)

  type Tables = map<int, seq<Pte>>

  // ---------------------------------------------------------------------------------
  // Indices
  // ---------------------------------------------------------------------------------

  /** PX(level, va), on page numbers. */
  function Px2(v: int): (i: int) { v / ENTRIES / ENTRIES }
  function Px1(v: int): (i: int) { v / ENTRIES % ENTRIES }
  function Px0(v: int): (i: int) { v % ENTRIES }

  function Vpn(i: int, j: int, k: int): (v: int) { (i * ENTRIES + j) * ENTRIES + k }

  lemma PxRange(v: int)
    requires 0 <= v < MAXVPN
    ensures 0 <= Px2(v) < ENTRIES && 0 <= Px1(v) < ENTRIES && 0 <= Px0(v) < ENTRIES
    ensures Vpn(Px2(v), Px1(v), Px0(v)) == v
  {}

  lemma VpnPx(i: int, j: int, k: int)
    requires 0 <= i && 0 <= j < ENTRIES && 0 <= k < ENTRIES
    ensures Px2(Vpn(i, j, k)) == i && Px1(Vpn(i, j, k)) == j && Px0(Vpn(i, j, k)) == k
  {}

  // ---------------------------------------------------------------------------------
  // Translation
  // ---------------------------------------------------------------------------------

  /** Entry i of the table in page p. */
  function Entry(t: Tables, p: int, i: int): (e: Pte) {
    if p in t && 0 <= i < |t[p]| then t[p][i] else ZERO
  }

  function Level1(t: Tables, root: int, v: int): (e: Pte) { Entry(t, root, Px2(v)) }

  function Level0(t: Tables, root: int, v: int): (e: Pte) {
    Entry(t, Level1(t, root, v).ppn, Px1(v))
  }

  /** All tables on the way to v's leaf entry exist. */
  predicate HasSlot(t: Tables, root: int, v: int) {
    Level1(t, root, v).Valid() && Level0(t, root, v).Valid()
  }

  /** The page holding v's leaf entry. */
  function SlotPage(t: Tables, root: int, v: int): (p: int) { Level0(t, root, v).ppn }

  /** The flat map: v's leaf entry, if valid. */
  function Translate(t: Tables, root: int, v: int): (r: Option<Pte>) {
    if HasSlot(t, root, v) && Entry(t, SlotPage(t, root, v), Px0(v)).Valid()
    then Some(Entry(t, SlotPage(t, root, v), Px0(v))) else None
  }

  // ---------------------------------------------------------------------------------
  // Ownership
  // ---------------------------------------------------------------------------------

  datatype Path = Root | Mid(i: int) | Low(i: int, j: int)

  /** Every managed page has exactly one use. `Other` is a page in use elsewhere. */
  datatype Owner = Free | Node(root: int, path: Path) | Leaf(root: int, vpn: int) | Other

  type Owners = map<int, Owner>

  ghost predicate FreeInv(f: seq<int>, o: Owners) {
    && NoDup(f)
    && (forall p :: p in f <==> p in o && o[p].Free?)
  }

  ghost predicate TablesOwned(t: Tables, o: Owners) {
    && (forall p :: p in t <==> p in o && o[p].Node?)
    && (forall p :: p in t ==> |t[p]| == ENTRIES)
    && (forall p :: p in o && o[p].Node? && o[p].path.Root? ==> o[p].root == p)
  }

  /** What a valid entry i of node p may point to. */
  ghost predicate ChildOk(o: Owners, p: int, i: int, e: Pte)
    requires p in o && o[p].Node?
  {
    e.Valid() ==>
      match o[p].path
      case Root => e.flags == PTE_V && e.ppn in o && o[e.ppn] == Node(o[p].root, Mid(i))
      case Mid(i2) => e.flags == PTE_V && e.ppn in o && o[e.ppn] == Node(o[p].root, Low(i2, i))
      case Low(i2, j2) =>
        e.ppn in o ==> o[e.ppn] == Leaf(o[p].root, Vpn(i2, j2, i)) || o[e.ppn].Other?
  }

  ghost predicate Downward(t: Tables, o: Owners)
    requires TablesOwned(t, o)
  {
    forall p, i :: p in t && 0 <= i < ENTRIES ==> ChildOk(o, p, i, Entry(t, p, i))
  }

  /** An owned page is where its owner says it is. */
  ghost predicate Placed(t: Tables, o: Owners, p: int)
    requires p in o
  {
    match o[p]
    case Free => true
    case Other => true
    case Node(r, Root) => true
    case Node(r, Mid(i)) =>
      && r in o && o[r] == Node(r, Root) && 0 <= i < 256
      && Entry(t, r, i).Valid() && Entry(t, r, i).ppn == p
    case Node(r, Low(i, j)) =>
      && r in o && o[r] == Node(r, Root) && 0 <= i < 256 && 0 <= j < ENTRIES
      && Entry(t, r, i).Valid() && Entry(t, Entry(t, r, i).ppn, j).Valid()
      && Entry(t, Entry(t, r, i).ppn, j).ppn == p
    case Leaf(r, v) =>
      && r in o && o[r] == Node(r, Root) && 0 <= v < MAXVPN
      && Translate(t, r, v).Some? && Translate(t, r, v).value.ppn == p
  }

  ghost predicate Inv(t: Tables, f: seq<int>, o: Owners) {
    && FreeInv(f, o) && TablesOwned(t, o) && Downward(t, o)
    && (forall p :: p in o ==> Placed(t, o, p))
  }

  ghost predicate IsRoot(o: Owners, r: int) { r in o && o[r] == Node(r, Root) }

  /** The nodes on the way to a slot are owned as such. */
  lemma WalkOwned(t: Tables, f: seq<int>, o: Owners, r: int, v: int)
    requires Inv(t, f, o) && IsRoot(o, r) && 0 <= v < MAXVPN
    ensures r in t
    ensures Level1(t, r, v).Valid() ==>
              var m := Level1(t, r, v).ppn; m in o && m in t && o[m] == Node(r, Mid(Px2(v)))
    ensures HasSlot(t, r, v) ==>
              var n := SlotPage(t, r, v); n in o && n in t && o[n] == Node(r, Low(Px2(v), Px1(v)))
  {
    PxRange(v);
    hide Px2, Px1, Px0;
    assert ChildOk(o, r, Px2(v), Level1(t, r, v));
    if Level1(t, r, v).Valid() {
      var m := Level1(t, r, v).ppn;
      assert ChildOk(o, m, Px1(v), Level0(t, r, v));
    }
  }

  /** Distinct virtual pages, of one address space or of two, never share a leaf entry. */
  lemma SlotsDistinct(t: Tables, f: seq<int>, o: Owners, r: int, v: int, r': int, v': int)
    requires Inv(t, f, o) && IsRoot(o, r) && IsRoot(o, r')
    requires 0 <= v < MAXVPN && 0 <= v' < MAXVPN && HasSlot(t, r, v) && HasSlot(t, r', v')
    requires SlotPage(t, r, v) == SlotPage(t, r', v') && Px0(v) == Px0(v')
    ensures r == r' && v == v'
  {
    WalkOwned(t, f, o, r, v);
    WalkOwned(t, f, o, r', v');
    PxRange(v);
    PxRange(v');
  }

  /** A page is the leaf of at most one virtual page. */
  lemma LeafOnce(t: Tables, f: seq<int>, o: Owners, r: int, v: int)
    requires Inv(t, f, o) && IsRoot(o, r) && 0 <= v < MAXVPN && Translate(t, r, v).Some?
    requires Translate(t, r, v).value.ppn in o
    ensures var q := o[Translate(t, r, v).value.ppn]; q == Leaf(r, v) || q.Other?
  {
    WalkOwned(t, f, o, r, v);
    PxRange(v);
    var n := SlotPage(t, r, v);
    hide Px2, Px1, Px0;
    assert ChildOk(o, n, Px0(v), Entry(t, n, Px0(v)));
  }

  // ---------------------------------------------------------------------------------
  // Writing one leaf entry
  // ---------------------------------------------------------------------------------

  function SetEntry(t: Tables, p: int, i: int, e: Pte): (t': Tables)
    requires p in t && 0 <= i < |t[p]|
  {
    t[p := t[p][i := e]]
  }

  lemma SetEntryEntry(t: Tables, p: int, i: int, e: Pte)
    requires p in t && 0 <= i < |t[p]|
    ensures forall q, j :: Entry(SetEntry(t, p, i, e), q, j) == if q == p && j == i then e else Entry(t, q, j)
  {}

  /** Writing the leaf slot of (r, v) changes the translation of (r, v) and of nothing else. */
  lemma SetLeafTranslate(t: Tables, f: seq<int>, o: Owners, r: int, v: int, e: Pte, r': int, v': int)
    requires Inv(t, f, o) && IsRoot(o, r) && IsRoot(o, r') && 0 <= v < MAXVPN && 0 <= v' < MAXVPN
    requires HasSlot(t, r, v)
    ensures SlotPage(t, r, v) in t && |t[SlotPage(t, r, v)]| == ENTRIES && 0 <= Px0(v) < ENTRIES
    ensures var t' := SetEntry(t, SlotPage(t, r, v), Px0(v), e);
            && HasSlot(t', r', v') == HasSlot(t, r', v')
            && (HasSlot(t, r', v') ==> SlotPage(t', r', v') == SlotPage(t, r', v'))
            && Translate(t', r', v') ==
               if r' == r && v' == v then (if e.Valid() then Some(e) else None) else Translate(t, r', v')
  {
    WalkOwned(t, f, o, r, v);
    WalkOwned(t, f, o, r', v');
    PxRange(v);
    PxRange(v');
    if HasSlot(t, r', v') && SlotPage(t, r, v) == SlotPage(t, r', v') && Px0(v) == Px0(v') {
      SlotsDistinct(t, f, o, r, v, r', v');
    }
    hide Px2, Px1, Px0;
    SetEntryEntry(t, SlotPage(t, r, v), Px0(v), e);
  }

  /** The low node behind a slot is at the place its owner says. */
  lemma SlotVpn(t: Tables, f: seq<int>, o: Owners, p: int, k: int)
    requires Inv(t, f, o) && p in o && o[p].Node? && o[p].path.Low? && 0 <= k < ENTRIES
    ensures var r, v := o[p].root, Vpn(o[p].path.i, o[p].path.j, k);
            && IsRoot(o, r) && 0 <= v < MAXVPN && HasSlot(t, r, v) && SlotPage(t, r, v) == p
            && Px0(v) == k && Px2(v) == o[p].path.i && Px1(v) == o[p].path.j
  {
    assert Placed(t, o, p);
    VpnPx(o[p].path.i, o[p].path.j, k);
    hide Px2, Px1, Px0;
  }

  /** No address space maps page q, except possibly (r, v). */
  ghost predicate OnlyAt(t: Tables, o: Owners, q: int, r: int, v: int) {
    forall r', v' ::
      (IsRoot(o, r') && 0 <= v' < MAXVPN && Translate(t, r', v').Some? && Translate(t, r', v').value.ppn == q)
      ==> r' == r && v' == v
  }

  ghost predicate Unreferenced(t: Tables, o: Owners, q: int) {
    forall r, v :: IsRoot(o, r) && 0 <= v < MAXVPN && Translate(t, r, v).Some? ==>
      Translate(t, r, v).value.ppn != q
  }

  /** A node's position survives a write to a leaf entry. */
  lemma NodePlaced(t: Tables, f: seq<int>, o: Owners, n: int, k: int, e: Pte, p: int)
    requires Inv(t, f, o) && n in o && o[n].Node? && o[n].path.Low? && 0 <= k < ENTRIES
    requires p in o && o[p].Node?
    ensures n in t && |t[n]| == ENTRIES && Placed(SetEntry(t, n, k, e), o, p)
  {
    hide Translate;
    assert n in t;
    SetEntryEntry(t, n, k, e);
    assert Placed(t, o, p);
    if o[p].path.Low? {
      var r, i := o[p].root, o[p].path.i;
      assert ChildOk(o, r, i, Entry(t, r, i));
    }
  }

  /** Writing e to a leaf slot keeps every table where it is. */
  lemma SetLeafTables(t: Tables, f: seq<int>, o: Owners, n: int, k: int, e: Pte)
    requires Inv(t, f, o) && n in o && o[n].Node? && o[n].path.Low? && 0 <= k < ENTRIES
    requires ChildOk(o, n, k, e)
    ensures n in t && |t[n]| == ENTRIES
    ensures TablesOwned(SetEntry(t, n, k, e), o) && Downward(SetEntry(t, n, k, e), o)
  {
    assert n in t;
    SetEntryEntry(t, n, k, e);
  }

  /** mappages' store, for a page in use elsewhere or not managed at all. */
  lemma MapKeep(t: Tables, f: seq<int>, o: Owners, r: int, v: int, e: Pte)
    requires Inv(t, f, o) && IsRoot(o, r) && 0 <= v < MAXVPN && HasSlot(t, r, v) && Translate(t, r, v).None?
    requires e.ppn !in o || o[e.ppn].Other?
    ensures SlotPage(t, r, v) in t && |t[SlotPage(t, r, v)]| == ENTRIES && 0 <= Px0(v) < ENTRIES
    ensures Inv(SetEntry(t, SlotPage(t, r, v), Px0(v), e), f, o)
  {
    WalkOwned(t, f, o, r, v);
    SetLeafTranslate(t, f, o, r, v, e, r, v);
    var n, k := SlotPage(t, r, v), Px0(v);
    SetLeafTables(t, f, o, n, k, e);
    hide Px0, SetEntry, Downward, TablesOwned, ChildOk, Translate, HasSlot, SlotPage;
    forall p | p in o ensures Placed(SetEntry(t, n, k, e), o, p) {
      assert Placed(t, o, p);
      if o[p].Leaf? {
        SetLeafTranslate(t, f, o, r, v, e, o[p].root, o[p].vpn);
      } else if o[p].Node? {
        NodePlaced(t, f, o, n, k, e, p);
      }
    }
  }

  /** A page in hand that is mapped just once becomes the leaf of that mapping. */
  lemma Adopt(t: Tables, f: seq<int>, o: Owners, q: int, r: int, v: int)
    requires Inv(t, f, o) && IsRoot(o, r) && 0 <= v < MAXVPN
    requires q in o && o[q].Other? && OnlyAt(t, o, q, r, v)
    requires Translate(t, r, v).Some? && Translate(t, r, v).value.ppn == q
    ensures Inv(t, f, o[q := Leaf(r, v)])
  {
    var o' := o[q := Leaf(r, v)];
    forall p, i | p in t && 0 <= i < ENTRIES ensures p in o' && o'[p].Node? && ChildOk(o', p, i, Entry(t, p, i)) {
      assert ChildOk(o, p, i, Entry(t, p, i));
      if o[p].path.Low? {
        SlotVpn(t, f, o, p, i);
        var w := Vpn(o[p].path.i, o[p].path.j, i);
        assert Translate(t, o[p].root, w) == if Entry(t, p, i).Valid() then Some(Entry(t, p, i)) else None;
      }
    }
    hide Translate, ChildOk;
    forall p | p in o' ensures Placed(t, o', p) { assert Placed(t, o, p); }
  }

  /** The reverse: a leaf page is taken in hand before its entry is cleared. */
  lemma Disown(t: Tables, f: seq<int>, o: Owners, q: int, r: int, v: int)
    requires Inv(t, f, o) && q in o && o[q] == Leaf(r, v)
    ensures Inv(t, f, o[q := Other]) && OnlyAt(t, o, q, r, v)
  {
    var o' := o[q := Other];
    forall r', v' | IsRoot(o, r') && 0 <= v' < MAXVPN && Translate(t, r', v').Some?
      && Translate(t, r', v').value.ppn == q
      ensures r' == r && v' == v
    {
      LeafOnce(t, f, o, r', v');
    }
    hide Translate;
    forall p, i | p in t && 0 <= i < ENTRIES ensures p in o' && o'[p].Node? && ChildOk(o', p, i, Entry(t, p, i)) {
      assert ChildOk(o, p, i, Entry(t, p, i));
    }
    forall p | p in o' ensures Placed(t, o', p) { assert Placed(t, o, p); }
  }

  /** *pte = 0. */
  lemma ClearLeaf(t: Tables, f: seq<int>, o: Owners, r: int, v: int)
    requires Inv(t, f, o) && IsRoot(o, r) && 0 <= v < MAXVPN && HasSlot(t, r, v)
    requires Translate(t, r, v).Some? ==>
               Translate(t, r, v).value.ppn in o ==> o[Translate(t, r, v).value.ppn].Other?
    ensures SlotPage(t, r, v) in t && |t[SlotPage(t, r, v)]| == ENTRIES && 0 <= Px0(v) < ENTRIES
    ensures Inv(SetEntry(t, SlotPage(t, r, v), Px0(v), ZERO), f, o)
  {
    WalkOwned(t, f, o, r, v);
    SetLeafTranslate(t, f, o, r, v, ZERO, r, v);
    var n, k := SlotPage(t, r, v), Px0(v);
    SetLeafTables(t, f, o, n, k, ZERO);
    hide Px0, SetEntry, Downward, TablesOwned, ChildOk, Translate, HasSlot, SlotPage;
    forall p | p in o ensures Placed(SetEntry(t, n, k, ZERO), o, p) {
      assert Placed(t, o, p);
      if o[p].Leaf? {
        SetLeafTranslate(t, f, o, r, v, ZERO, o[p].root, o[p].vpn);
      } else if o[p].Node? {
        NodePlaced(t, f, o, n, k, ZERO, p);
      }
    }
  }

  // ---------------------------------------------------------------------------------
  // kalloc and kfree, on pages that no table refers to
  // ---------------------------------------------------------------------------------

  lemma FreeUnreferenced(t: Tables, f: seq<int>, o: Owners, q: int)
    requires Inv(t, f, o) && q in o && o[q].Free?
    ensures Unreferenced(t, o, q)
  {
    forall r, v | IsRoot(o, r) && 0 <= v < MAXVPN && Translate(t, r, v).Some?
      ensures Translate(t, r, v).value.ppn != q
    {
      if Translate(t, r, v).value.ppn in o { LeafOnce(t, f, o, r, v); }
    }
  }

  /** The page at the head of the free list is taken in hand. */
  lemma TakeFree(t: Tables, f: seq<int>, o: Owners)
    requires Inv(t, f, o) && f != []
    ensures f[0] in o && o[f[0]].Free? && Inv(t, f[1..], o[f[0] := Other])
    ensures Unreferenced(t, o[f[0] := Other], f[0])
  {
    var q := f[0];
    assert q in f;
    var o' := o[q := Other];
    FreeUnreferenced(t, f, o, q);
    hide Translate;
    assert f == [q] + f[1..];
    forall p ensures p in f[1..] <==> p in o' && o'[p].Free? {
      assert p in f <==> p == q || p in f[1..];
    }
    forall p, i | p in t && 0 <= i < ENTRIES ensures p in o' && o'[p].Node? && ChildOk(o', p, i, Entry(t, p, i)) {
      assert ChildOk(o, p, i, Entry(t, p, i));
    }
    forall p | p in o' ensures Placed(t, o', p) { assert Placed(t, o, p); }
  }

  /** A page in hand that nothing maps goes back to the head of the free list. */
  lemma GiveFree(t: Tables, f: seq<int>, o: Owners, q: int)
    requires Inv(t, f, o) && q in o && o[q].Other? && Unreferenced(t, o, q)
    ensures Inv(t, [q] + f, o[q := Free])
  {
    var o' := o[q := Free];
    assert forall p :: p in [q] + f <==> p == q || p in f;
    assert q !in f;
    forall p, i | p in t && 0 <= i < ENTRIES ensures p in o' && o'[p].Node? && ChildOk(o', p, i, Entry(t, p, i)) {
      assert ChildOk(o, p, i, Entry(t, p, i));
      if o[p].path.Low? {
        SlotVpn(t, f, o, p, i);
        var w := Vpn(o[p].path.i, o[p].path.j, i);
        assert Translate(t, o[p].root, w) == if Entry(t, p, i).Valid() then Some(Entry(t, p, i)) else None;
      }
    }
    hide Translate, ChildOk;
    forall p | p in o' ensures Placed(t, o', p) { assert Placed(t, o, p); }
  }

  // ---------------------------------------------------------------------------------
  // Table pages
  // ---------------------------------------------------------------------------------

  function Zeroed(): (r: seq<Pte>)
    ensures |r| == ENTRIES && forall i :: 0 <= i < ENTRIES ==> r[i] == ZERO
  {
    seq(ENTRIES, _ => ZERO)
  }

  /** walk(alloc): page q becomes the table that entry i of node p points to. */
  function LinkNode(t: Tables, p: int, i: int, q: int): (t': Tables)
    requires p in t && 0 <= i < |t[p]|
  {
    t[q := Zeroed()][p := t[p][i := Pte(q, PTE_V)]]
  }

  lemma LinkNodeEntry(t: Tables, p: int, i: int, q: int)
    requires p in t && 0 <= i < |t[p]| && q !in t
    ensures forall x, j :: Entry(LinkNode(t, p, i, q), x, j) ==
              if x == p && j == i then Pte(q, PTE_V) else if x == q then ZERO else Entry(t, x, j)
  {}

  function ChildPath(path: Path, i: int): (r: Path)
    requires !path.Low?
  {
    if path.Root? then Mid(i) else Low(path.i, i)
  }

  ghost predicate Linkable(t: Tables, f: seq<int>, o: Owners, p: int, i: int, q: int) {
    && Inv(t, f, o) && p in o && o[p].Node? && !o[p].path.Low?
    && 0 <= i < ENTRIES && (o[p].path.Root? ==> i < 256)
    && q in o && o[q].Other? && Unreferenced(t, o, q)
    && p in t && |t[p]| == ENTRIES && !Entry(t, p, i).Valid()
  }

  /** Allocating walks change no translation. */
  lemma LinkTranslate(t: Tables, f: seq<int>, o: Owners, p: int, i: int, q: int, r: int, v: int)
    requires Linkable(t, f, o, p, i, q) && IsRoot(o, r) && 0 <= v < MAXVPN
    ensures Translate(LinkNode(t, p, i, q), r, v) == Translate(t, r, v)
    ensures HasSlot(t, r, v) ==> HasSlot(LinkNode(t, p, i, q), r, v)
    ensures HasSlot(t, r, v) ==> SlotPage(LinkNode(t, p, i, q), r, v) == SlotPage(t, r, v)
  {
    LinkNodeEntry(t, p, i, q);
    WalkOwned(t, f, o, r, v);
    PxRange(v);
    hide Px2, Px1, Px0, Inv, Unreferenced, LinkNode;
  }

  lemma LinkDown(t: Tables, f: seq<int>, o: Owners, p: int, i: int, q: int)
    requires Linkable(t, f, o, p, i, q)
    ensures var t', o' := LinkNode(t, p, i, q), o[q := Node(o[p].root, ChildPath(o[p].path, i))];
            TablesOwned(t', o') && Downward(t', o')
  {
    var t', o' := LinkNode(t, p, i, q), o[q := Node(o[p].root, ChildPath(o[p].path, i))];
    LinkNodeEntry(t, p, i, q);
    forall x, j | x in t' && 0 <= j < ENTRIES ensures x in o' && o'[x].Node? && ChildOk(o', x, j, Entry(t', x, j)) {
      if x != q {
        assert ChildOk(o, x, j, Entry(t, x, j));
        if o[x].path.Low? {
          SlotVpn(t, f, o, x, j);
          var w := Vpn(o[x].path.i, o[x].path.j, j);
          assert Translate(t, o[x].root, w) == if Entry(t, x, j).Valid() then Some(Entry(t, x, j)) else None;
        }
      }
    }
  }

  lemma LinkPlaced(t: Tables, f: seq<int>, o: Owners, p: int, i: int, q: int, x: int)
    requires Linkable(t, f, o, p, i, q) && x in o
    ensures Placed(LinkNode(t, p, i, q), o[q := Node(o[p].root, ChildPath(o[p].path, i))], x)
  {
    assert Placed(t, o, x) && Placed(t, o, p);
    LinkNodeEntry(t, p, i, q);
    if x != q && o[x].Leaf? {
      LinkTranslate(t, f, o, p, i, q, o[x].root, o[x].vpn);
      hide Translate, Inv, LinkNode;
    } else {
      hide Translate, LinkNode, Unreferenced;
      if x != q && o[x].Node? && o[x].path.Low? {
        var r, k := o[x].root, o[x].path.i;
        assert ChildOk(o, r, k, Entry(t, r, k));
      }
    }
  }

  lemma Link(t: Tables, f: seq<int>, o: Owners, p: int, i: int, q: int)
    requires Linkable(t, f, o, p, i, q)
    ensures Inv(LinkNode(t, p, i, q), f, o[q := Node(o[p].root, ChildPath(o[p].path, i))])
  {
    hide TablesOwned, Downward, Placed, LinkNode, Unreferenced;
    LinkDown(t, f, o, p, i, q);
    var t', o' := LinkNode(t, p, i, q), o[q := Node(o[p].root, ChildPath(o[p].path, i))];
    forall x | x in o' ensures Placed(t', o', x) { LinkPlaced(t, f, o, p, i, q, x); }
  }

  function AddRoot(t: Tables, q: int): (t': Tables) { t[q := Zeroed()] }

  /** uvmcreate: page q becomes an empty root table. */
  lemma NewRoot(t: Tables, f: seq<int>, o: Owners, q: int)
    requires Inv(t, f, o) && q in o && o[q].Other? && Unreferenced(t, o, q)
    ensures Inv(AddRoot(t, q), f, o[q := Node(q, Root)])
    ensures forall v :: 0 <= v < MAXVPN ==> Translate(AddRoot(t, q), q, v) == None
    ensures forall r, v :: IsRoot(o, r) && 0 <= v < MAXVPN ==>
              Translate(AddRoot(t, q), r, v) == Translate(t, r, v)
  {
    var t', o' := AddRoot(t, q), o[q := Node(q, Root)];
    assert forall x, j :: Entry(t', x, j) == if x == q then ZERO else Entry(t, x, j);
    forall r, v | IsRoot(o, r) && 0 <= v < MAXVPN ensures Translate(t', r, v) == Translate(t, r, v) {
      WalkOwned(t, f, o, r, v);
    }
    assert TablesOwned(t', o') && Downward(t', o') by {
      forall x, j | x in t' && 0 <= j < ENTRIES ensures x in o' && o'[x].Node? && ChildOk(o', x, j, Entry(t', x, j)) {
        if x != q {
          assert ChildOk(o, x, j, Entry(t, x, j));
          if o[x].path.Low? {
            SlotVpn(t, f, o, x, j);
            var w := Vpn(o[x].path.i, o[x].path.j, j);
            assert Translate(t, o[x].root, w) == if Entry(t, x, j).Valid() then Some(Entry(t, x, j)) else None;
          }
        }
      }
    }
    forall x | x in o' ensures Placed(t', o', x) {
      assert Placed(t, o, x);
      if x != q && o[x].Node? && o[x].path.Low? {
        var r, k := o[x].root, o[x].path.i;
        assert ChildOk(o, r, k, Entry(t, r, k));
      }
    }
  }
}
