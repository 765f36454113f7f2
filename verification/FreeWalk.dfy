/**
  Tearing an address space down (freewalk and uvmfree in kernel/vm.c), as changes of tables
  and owners. `t0`, `f0`, `o0` are the state in which the tear-down starts.
 */
module FreeWalk {
  import opened Basics
  import opened Sv39

  /** Root r maps nothing any more. */
  ghost predicate NoMappings(t: Tables, r: int) {
    forall v :: 0 <= v < MAXVPN ==> Translate(t, r, v).None?
  }

  /** A table of r at or below `path`. */
  predicate Under(w: Owner, r: int, path: Path) {
    && w.Node? && w.root == r
    && match path
       case Root => true
       case Mid(i) => w.path == Mid(i) || (w.path.Low? && w.path.i == i)
       case Low(i, j) => w.path == path
  }

  /** A table of r below one of the first k entries of the node at `path`. */
  predicate UnderFirst(w: Owner, r: int, path: Path, k: int) {
    && w.Node? && w.root == r
    && match path
       case Root => (w.path.Mid? && w.path.i < k) || (w.path.Low? && w.path.i < k)
       case Mid(i) => w.path.Low? && w.path.i == i && w.path.j < k
       case Low(i, j) => false
  }

  /** o with the tables selected by UnderFirst freed. */
  ghost function PruneFirst(o: Owners, o0: Owners, r: int, path: Path, k: int): (o': Owners) {
    map q | q in o :: if q in o0 && UnderFirst(o0[q], r, path, k) then Free else o[q]
  }

  ghost function Prune(o: Owners, o0: Owners, r: int, path: Path): (o': Owners) {
    map q | q in o :: if q in o0 && Under(o0[q], r, path) then Free else o[q]
  }

  ghost function Without(t: Tables, o0: Owners, r: int, path: Path): (t': Tables) {
    map q | q in t && !(q in o0 && Under(o0[q], r, path)) :: t[q]
  }

  /** t is tS without the first k subtrees of node p, whose own first k entries do not matter. */
  ghost predicate Cleared(tS: Tables, t: Tables, o0: Owners, r: int, path: Path, p: int, k: int) {
    && (forall q :: q in t <==> q in tS && !(q in o0 && UnderFirst(o0[q], r, path, k)))
    && (forall q :: q in t && q != p ==> t[q] == tS[q])
    && p in t && p in tS && |t[p]| == |tS[p]| == ENTRIES
    && (forall i :: 0 <= i < ENTRIES && k <= i ==> t[p][i] == tS[p][i])
  }

  /** The subtree at `path` has not been touched. */
  ghost predicate Intact(t0: Tables, o0: Owners, t: Tables, o: Owners, r: int, path: Path) {
    && o.Keys == o0.Keys
    && (forall q :: q in o0 && Under(o0[q], r, path) ==> q in t0 && q in t && t[q] == t0[q] && o[q] == o0[q])
  }

  lemma {:induction false} PruneStep(o: Owners, o0: Owners, r: int, path: Path, k: int)
    requires !path.Low? && 0 <= k
    ensures Prune(PruneFirst(o, o0, r, path, k), o0, r, ChildPath(path, k)) == PruneFirst(o, o0, r, path, k + 1)
    ensures forall q :: q in o0 ==>
              (UnderFirst(o0[q], r, path, k + 1) <==>
               UnderFirst(o0[q], r, path, k) || Under(o0[q], r, ChildPath(path, k)))
  {
    var a, b := Prune(PruneFirst(o, o0, r, path, k), o0, r, ChildPath(path, k)), PruneFirst(o, o0, r, path, k + 1);
    assert a.Keys == o.Keys == b.Keys;
    forall q | q in o0
      ensures UnderFirst(o0[q], r, path, k + 1) <==> UnderFirst(o0[q], r, path, k) || Under(o0[q], r,
                ChildPath(path, k))
    {
      match path { case Root => case Mid(i) => }
    }
    forall q | q in o ensures a[q] == b[q] {}
  }

  /** An entry without a table below it frees nothing. */
  lemma PruneSkip(t0: Tables, f0: seq<int>, o0: Owners, o: Owners, r: int, path: Path, p: int, k: int)
    requires Inv(t0, f0, o0) && p in o0 && o0[p] == Node(r, path) && 0 <= k < ENTRIES
    requires path.Low? || !Entry(t0, p, k).Valid()
    ensures PruneFirst(o, o0, r, path, k + 1) == PruneFirst(o, o0, r, path, k)
    ensures forall q :: q in o0 ==> (UnderFirst(o0[q], r, path, k + 1) <==> UnderFirst(o0[q], r, path, k))
  {
    forall q | q in o0 ensures UnderFirst(o0[q], r, path, k + 1) <==> UnderFirst(o0[q], r, path, k) {
      assert Placed(t0, o0, q) && Placed(t0, o0, p);
    }
  }

  lemma PruneAll(t0: Tables, f0: seq<int>, o0: Owners, o: Owners, r: int, path: Path, p: int)
    requires Inv(t0, f0, o0) && p in o0 && o0[p] == Node(r, path) && p in o
    ensures PruneFirst(o, o0, r, path, ENTRIES)[p := Free] == Prune(o, o0, r, path)
    ensures forall q :: q in o0 ==> (Under(o0[q], r, path) <==> q == p || UnderFirst(o0[q], r, path, ENTRIES))
  {
    forall q | q in o0 ensures Under(o0[q], r, path) <==> q == p || UnderFirst(o0[q], r, path, ENTRIES) {
      assert Placed(t0, o0, q) && Placed(t0, o0, p);
      assert TablesOwned(t0, o0);
    }
  }

  lemma PruneNone(o: Owners, o0: Owners, r: int, path: Path)
    requires forall q :: q in o0 && o0[q].Node? && o0[q].root == r ==>
               (o0[q].path.Mid? ==> 0 <= o0[q].path.i) && (o0[q].path.Low? ==> 0 <= o0[q].path.i && 0 <= o0[q].path.j)
    ensures PruneFirst(o, o0, r, path, 0) == o
    ensures forall q :: q in o0 ==> !UnderFirst(o0[q], r, path, 0)
  {
    assert forall q :: q in o0 ==> !UnderFirst(o0[q], r, path, 0);
    assert PruneFirst(o, o0, r, path, 0).Keys == o.Keys;
  }

  lemma PathsNonNegative(t: Tables, f: seq<int>, o: Owners)
    requires Inv(t, f, o)
    ensures forall q :: q in o && o[q].Node? ==>
              (o[q].path.Mid? ==> 0 <= o[q].path.i) && (o[q].path.Low? ==> 0 <= o[q].path.i && 0 <= o[q].path.j)
  {
    forall q | q in o && o[q].Node?
      ensures (o[q].path.Mid? ==> 0 <= o[q].path.i) && (o[q].path.Low? ==> 0 <= o[q].path.i && 0 <= o[q].path.j)
    {
      assert Placed(t, o, q);
    }
  }

  /** Without mappings, a valid entry points to the next table down: freewalk meets no leaf. */
  lemma EntryKind(t0: Tables, f0: seq<int>, o0: Owners, r: int, path: Path, p: int, i: int)
    requires Inv(t0, f0, o0) && NoMappings(t0, r) && p in o0 && o0[p] == Node(r, path) && 0 <= i < ENTRIES
    ensures p in t0 && |t0[p]| == ENTRIES
    ensures Entry(t0, p, i).Valid() ==>
              !path.Low? && Entry(t0, p, i).flags == PTE_V
              && Entry(t0, p, i).ppn in o0 && o0[Entry(t0, p, i).ppn] == Node(r, ChildPath(path, i))
  {
    assert ChildOk(o0, p, i, Entry(t0, p, i));
    if path.Low? {
      SlotVpn(t0, f0, o0, p, i);
      assert Translate(t0, r, Vpn(path.i, path.j, i)).None?;
    }
  }

  /** Freeing the first k subtrees leaves the next one alone. */
  lemma ChildIntact(t0: Tables, o0: Owners, tS: Tables, oS: Owners, t: Tables, r: int, path: Path, p: int, k: int)
    requires p in o0 && o0[p] == Node(r, path) && !path.Low? && 0 <= k
    requires Intact(t0, o0, tS, oS, r, path) && Cleared(tS, t, o0, r, path, p, k)
    ensures Intact(t0, o0, t, PruneFirst(oS, o0, r, path, k), r, ChildPath(path, k))
  {
    var o := PruneFirst(oS, o0, r, path, k);
    assert o.Keys == oS.Keys;
    forall q | q in o0 && Under(o0[q], r, ChildPath(path, k))
      ensures q in t0 && q in t && t[q] == t0[q] && o[q] == o0[q]
    {
      assert Under(o0[q], r, path) && !UnderFirst(o0[q], r, path, k) && q != p;
    }
  }

  lemma ClearedStep(t0: Tables, f0: seq<int>, o0: Owners, tS: Tables, oS: Owners, t: Tables, r: int, path: Path,
                    p: int, k: int)
    requires Inv(t0, f0, o0) && p in o0 && o0[p] == Node(r, path) && !path.Low? && 0 <= k < ENTRIES
    requires Cleared(tS, t, o0, r, path, p, k)
    ensures var t' := Without(t, o0, r, ChildPath(path, k));
            p in t' && |t'[p]| == ENTRIES && Cleared(tS, t'[p := t'[p][k := ZERO]], o0, r, path, p, k + 1)
  {
    hide Inv;
    PruneStep(oS, o0, r, path, k);
    var t' := Without(t, o0, r, ChildPath(path, k));
    assert p in t';
    var t2 := t'[p := t'[p][k := ZERO]];
    forall q ensures q in t2 <==> q in tS && !(q in o0 && UnderFirst(o0[q], r, path, k + 1)) {
      assert q in t2 <==> q in t';
    }
  }

  lemma ClearedSkip(t0: Tables, f0: seq<int>, o0: Owners, tS: Tables, oS: Owners, t: Tables, r: int, path: Path,
                    p: int, k: int)
    requires Inv(t0, f0, o0) && p in o0 && o0[p] == Node(r, path) && 0 <= k < ENTRIES
    requires path.Low? || !Entry(t0, p, k).Valid()
    requires Cleared(tS, t, o0, r, path, p, k)
    ensures Cleared(tS, t, o0, r, path, p, k + 1)
  {
    PruneSkip(t0, f0, o0, oS, r, path, p, k);
    hide Inv;
  }

  lemma ClearedNone(t0: Tables, f0: seq<int>, o0: Owners, tS: Tables, oS: Owners, r: int, path: Path, p: int)
    requires Inv(t0, f0, o0) && p in o0 && o0[p] == Node(r, path) && p in tS && |tS[p]| == ENTRIES
    ensures Cleared(tS, tS, o0, r, path, p, 0) && PruneFirst(oS, o0, r, path, 0) == oS
  {
    PathsNonNegative(t0, f0, o0);
    hide Inv;
    PruneNone(oS, o0, r, path);
  }

  lemma ClearedAll(t0: Tables, f0: seq<int>, o0: Owners, tS: Tables, oS: Owners, t: Tables, r: int, path: Path, p: int)
    requires Inv(t0, f0, o0) && p in o0 && o0[p] == Node(r, path) && p in oS
    requires Cleared(tS, t, o0, r, path, p, ENTRIES)
    ensures t - {p} == Without(tS, o0, r, path)
    ensures PruneFirst(oS, o0, r, path, ENTRIES)[p := Free] == Prune(oS, o0, r, path)
    ensures p in PruneFirst(oS, o0, r, path, ENTRIES) && PruneFirst(oS, o0, r, path, ENTRIES)[p] == oS[p]
  {
    PruneAll(t0, f0, o0, oS, r, path, p);
    hide Inv;
    var a, b := t - {p}, Without(tS, o0, r, path);
    assert forall q :: q in a <==> q in b;
    assert forall q :: q in a ==> a[q] == b[q];
    assert !UnderFirst(o0[p], r, path, ENTRIES);
  }

  lemma PushFreeInv(f: seq<int>, o: Owners, p: int)
    requires FreeInv(f, o) && p in o && !o[p].Free?
    ensures FreeInv([p] + f, o[p := Free])
  {
    assert p !in f;
    assert forall q :: q in [p] + f <==> q == p || q in f;
  }

  // ---------------------------------------------------------------------------------
  // After the whole tree is gone
  // ---------------------------------------------------------------------------------

  lemma PrunedEntry(t0: Tables, o0: Owners, r: int, p: int, i: int)
    requires !(p in o0 && Under(o0[p], r, Root))
    ensures Entry(Without(t0, o0, r, Root), p, i) == Entry(t0, p, i)
  {}

  /** Other address spaces do not notice. */
  lemma PrunedTranslate(t0: Tables, f0: seq<int>, o0: Owners, r: int, r': int, v: int)
    requires Inv(t0, f0, o0) && IsRoot(o0, r') && r' != r && 0 <= v < MAXVPN
    ensures Translate(Without(t0, o0, r, Root), r', v) == Translate(t0, r', v)
  {
    hide Without, Px2, Px1, Px0;
    WalkOwned(t0, f0, o0, r', v);
    PrunedEntry(t0, o0, r, r', Px2(v));
    if Level1(t0, r', v).Valid() {
      PrunedEntry(t0, o0, r, Level1(t0, r', v).ppn, Px1(v));
      if HasSlot(t0, r', v) {
        PrunedEntry(t0, o0, r, SlotPage(t0, r', v), Px0(v));
      }
    }
  }

  lemma PrunedPlaced(t0: Tables, f0: seq<int>, o0: Owners, r: int, q: int)
    requires Inv(t0, f0, o0) && IsRoot(o0, r) && NoMappings(t0, r) && q in o0
    ensures Placed(Without(t0, o0, r, Root), Prune(o0, o0, r, Root), q)
  {
    assert Placed(t0, o0, q);
    if o0[q].Leaf? {
      assert o0[q].root != r;
      PrunedTranslate(t0, f0, o0, r, o0[q].root, o0[q].vpn);
      hide Without, Translate;
    } else if o0[q].Node? && o0[q].root != r {
      hide Translate;
      var x := o0[q].root;
      if o0[q].path.Mid? { PrunedEntry(t0, o0, r, x, o0[q].path.i); }
      if o0[q].path.Low? {
        PrunedEntry(t0, o0, r, x, o0[q].path.i);
        assert ChildOk(o0, x, o0[q].path.i, Entry(t0, x, o0[q].path.i));
        PrunedEntry(t0, o0, r, Entry(t0, x, o0[q].path.i).ppn, o0[q].path.j);
      }
      hide Without;
    }
  }

  lemma PrunedDown(t0: Tables, f0: seq<int>, o0: Owners, r: int)
    requires Inv(t0, f0, o0) && IsRoot(o0, r)
    ensures TablesOwned(Without(t0, o0, r, Root), Prune(o0, o0, r, Root))
    ensures Downward(Without(t0, o0, r, Root), Prune(o0, o0, r, Root))
  {
    hide Translate;
    var t, o := Without(t0, o0, r, Root), Prune(o0, o0, r, Root);
    forall p, i | p in t && 0 <= i < ENTRIES ensures p in o && o[p].Node? && ChildOk(o, p, i, Entry(t, p, i)) {
      assert ChildOk(o0, p, i, Entry(t0, p, i));
      PrunedEntry(t0, o0, r, p, i);
    }
  }

  lemma PrunedInv(t0: Tables, f0: seq<int>, o0: Owners, r: int, f: seq<int>)
    requires Inv(t0, f0, o0) && IsRoot(o0, r) && NoMappings(t0, r)
    requires FreeInv(f, Prune(o0, o0, r, Root))
    ensures Inv(Without(t0, o0, r, Root), f, Prune(o0, o0, r, Root))
  {
    hide TablesOwned, Downward, Placed, Without;
    PrunedDown(t0, f0, o0, r);
    forall q | q in Prune(o0, o0, r, Root)
      ensures Placed(Without(t0, o0, r, Root), Prune(o0, o0, r, Root), q)
    {
      PrunedPlaced(t0, f0, o0, r, q);
    }
  }
}
