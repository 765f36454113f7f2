/**
  Page tables, user data and the free list as views of one physical memory. Vm keeps them in
  separate maps; here they are words of the same pages, told apart only by what each page is
  owned for, and every store of kernel/vm.c and kernel/kalloc.c changes the view it is meant to
  and no other.
 */
module Physical {
  import opened Basics
  import opened Sv39
  import Kalloc

  type Page = Kalloc.Page
  type Ram = map<int, Page>

  /** Physical memory is addressed in bytes. */
  function Addr(p: int): (a: int) { p * 4096 }

  function Addrs(f: seq<int>): (r: seq<int>)
    ensures |r| == |f| && forall i :: 0 <= i < |f| ==> r[i] == Addr(f[i])
  {
    seq(|f|, i requires 0 <= i < |f| => Addr(f[i]))
  }

  // ---------------------------------------------------------------------------------
  // Words as page-table entries and as bytes
  // ---------------------------------------------------------------------------------

  /** PTE2PA and PTE_FLAGS. */
  function DecodePte(w: int): (e: Pte) { Pte(w / 1024, w % 1024) }

  /** PA2PTE(pa) | flags. */
  function EncodePte(e: Pte): (w: int) { e.ppn * 1024 + e.flags }

  lemma PteRoundTrip(e: Pte)
    requires 0 <= e.flags < 1024
    ensures DecodePte(EncodePte(e)) == e
  {}

  function ByteOf(w: int, k: nat): (b: int)
    decreases k
  {
    if k == 0 then w % 256 else ByteOf(w / 256, k - 1)
  }

  /** The bytes of a page, lowest first. */
  function Bytes(page: Page): (r: seq<int>)
    ensures |r| == 4096
  {
    seq(4096, k requires 0 <= k < 4096 => ByteOf(page[k / 8], k % 8))
  }

  lemma {:induction false} RepeatedByte(b: int, k: nat, w: int, n: nat)
    requires 0 <= b < 256 && k < n && w == b * Ones(n)
    ensures ByteOf(w, k) == b
  {
    hide Ones;
    var rest := b * Ones(n - 1);
    assert w == b + 256 * rest by { OnesStep(n); }
    assert w % 256 == b && w / 256 == rest;
    if k > 0 { RepeatedByte(b, k - 1, w / 256, n - 1); }
  }

  function Ones(n: nat): (r: nat) { if n == 0 then 0 else 1 + 256 * Ones(n - 1) }

  lemma OnesStep(n: nat)
    requires n > 0
    ensures Ones(n) == 1 + 256 * Ones(n - 1)
  {}

  lemma OnesEight()
    ensures Ones(8) == 0x0101_0101_0101_0101
  {}

  /** memset fills every byte. */
  lemma FilledBytes(b: int)
    requires 0 <= b < 256
    ensures Bytes(Kalloc.Filled(b)) == seq(4096, _ => b)
  {
    OnesEight();
    hide Ones, ByteOf;
    forall k | 0 <= k < 4096 ensures Bytes(Kalloc.Filled(b))[k] == b {
      RepeatedByte(b, k % 8, b * 0x0101_0101_0101_0101, 8);
    }
  }

  // ---------------------------------------------------------------------------------
  // The views
  // ---------------------------------------------------------------------------------

  /** A page whose bytes are somebody's data. */
  predicate HoldsData(o: Owners, p: int) { p in o ==> o[p].Leaf? || o[p].Other? }

  ghost predicate TableView(ram: Ram, t: Tables) {
    forall p :: p in t ==> Addr(p) in ram && TableAt(ram[Addr(p)], t[p])
  }

  ghost predicate TableAt(page: Page, entries: seq<Pte>) {
    |entries| == ENTRIES && forall i :: 0 <= i < ENTRIES ==> DecodePte(page[i]) == entries[i]
  }

  ghost predicate DataView(ram: Ram, d: map<int, seq<int>>, o: Owners) {
    forall p :: p in d && HoldsData(o, p) ==> Addr(p) in ram && Bytes(ram[Addr(p)]) == d[p]
  }

  /** One memory seen as tables, data and free list. */
  ghost predicate Views(ram: Ram, head: int, t: Tables, d: map<int, seq<int>>, f: seq<int>, o: Owners) {
    && FreeInv(f, o) && (forall p :: p in t ==> p in o && o[p].Node?) && (forall p :: p in o ==> Addr(p) in ram)
    && TableView(ram, t) && DataView(ram, d, o) && Kalloc.Chain(ram, head, Addrs(f))
  }

  lemma OtherAddr(f: seq<int>, p: int)
    requires p !in f
    ensures Addr(p) !in Addrs(f)
  {}

  /** A page that is not free may be stored to without touching the list. */
  lemma ListKept(ram: Ram, head: int, f: seq<int>, p: int, page: Page)
    requires Kalloc.Chain(ram, head, Addrs(f)) && p !in f && forall q :: q in f ==> Addr(q) in ram
    ensures Kalloc.Chain(ram[Addr(p) := page], head, Addrs(f))
  {
    hide Addr;
    OtherAddr(f, p);
    forall a | a in Addrs(f) ensures a in ram {
      var i :| 0 <= i < |f| && Addrs(f)[i] == a;
      assert f[i] in f;
    }
    Kalloc.ChainKept(ram, ram[Addr(p) := page], head, Addrs(f));
  }

  lemma AddrsApart(p: int, q: int)
    ensures Addr(p) == Addr(q) ==> p == q
  {}

  /** Storing an entry into a table changes that entry of that table, and no other view. */
  lemma StorePte(ram: Ram, head: int, t: Tables, d: map<int, seq<int>>, f: seq<int>, o: Owners, p: int, i: int, e: Pte)
    requires Views(ram, head, t, d, f, o) && p in t && 0 <= i < ENTRIES && 0 <= e.flags < 1024
    ensures Addr(p) in ram && |t[p]| == ENTRIES
    ensures Views(ram[Addr(p) := ram[Addr(p)][i := EncodePte(e)]], head, SetEntry(t, p, i, e), d, f, o)
  {
    hide Addr, EncodePte, DecodePte, Bytes, Kalloc.Chain;
    assert TableAt(ram[Addr(p)], t[p]);
    var page: Page := ram[Addr(p)][i := EncodePte(e)];
    PteRoundTrip(e);
    ListKept(ram, head, f, p, page);
    forall q ensures Addr(q) == Addr(p) ==> q == p { AddrsApart(q, p); }
  }

  /** Storing into a page of data changes those bytes, and no other view. */
  lemma StoreData(ram: Ram, head: int, t: Tables, d: map<int, seq<int>>, f: seq<int>, o: Owners, p: int, page: Page)
    requires Views(ram, head, t, d, f, o) && p in o && (o[p].Leaf? || o[p].Other?)
    ensures Views(ram[Addr(p) := page], head, t, d[p := Bytes(page)], f, o)
  {
    hide Addr, DecodePte, Bytes, Kalloc.Chain;
    ListKept(ram, head, f, p, page);
    forall q ensures Addr(q) == Addr(p) ==> q == p { AddrsApart(q, p); }
  }

  /** kalloc: the head of the list is unlinked by its own first word, then filled. */
  lemma TakePage(ram: Ram, head: int, t: Tables, d: map<int, seq<int>>, f: seq<int>, o: Owners)
    requires Views(ram, head, t, d, f, o) && f != []
    ensures head == Addr(f[0]) && head in ram && f[0] in o
    ensures Views(ram[head := Kalloc.Filled(5)], ram[head][0], t, d[f[0] := seq(4096, _ => 5)], f[1..],
                  o[f[0] := Other])
  {
    hide Addr, DecodePte, Bytes, Kalloc.Filled;
    var q := f[0];
    assert q in f;
    assert f == [q] + f[1..] && Addrs(f)[1..] == Addrs(f[1..]);
    assert forall x :: x in f <==> x == q || x in f[1..];
    assert q !in f[1..];
    FilledBytes(5);
    forall x ensures Addr(x) == Addr(q) ==> x == q { AddrsApart(x, q); }
    ListKept(ram, ram[head][0], f[1..], q, Kalloc.Filled(5));
  }

  /** kfree: a page of data, or an unlinked table, is filled and linked in front through its own first word. */
  lemma GivePage(ram: Ram, head: int, t: Tables, d: map<int, seq<int>>, f: seq<int>, o: Owners, q: int,
                 d': map<int, seq<int>>)
    requires Views(ram, head, t, d, f, o) && q in o && !o[q].Free? && q != 0
    requires forall p :: p in d' && p != q ==> p in d && d'[p] == d[p]
    ensures var page: Page := Kalloc.Filled(1)[0 := head];
            Views(ram[Addr(q) := page], Addr(q), t - {q}, d', [q] + f, o[q := Free])
  {
    hide DecodePte, Bytes, Kalloc.Filled;
    var page: Page := Kalloc.Filled(1)[0 := head];
    assert q !in f;
    assert forall x :: x in [q] + f <==> x == q || x in f;
    ListKept(ram, head, f, q, page);
    assert Addrs([q] + f)[1..] == Addrs(f);
    forall x ensures Addr(x) == Addr(q) ==> x == q { AddrsApart(x, q); }
    hide Addr;
  }

  /** memset(0) on a page in hand makes it an empty table. */
  lemma MakeTable(ram: Ram, head: int, t: Tables, d: map<int, seq<int>>, f: seq<int>, o: Owners, q: int, w: Owner)
    requires Views(ram, head, t, d, f, o) && q in o && o[q].Other? && w.Node?
    ensures Views(ram[Addr(q) := Kalloc.Filled(0)], head, AddRoot(t, q), d - {q}, f, o[q := w])
  {
    hide Addr, Bytes, Kalloc.Chain;
    assert TableAt(Kalloc.Filled(0), Zeroed());
    assert q !in f && q !in t;
    ListKept(ram, head, f, q, Kalloc.Filled(0));
    hide Kalloc.Filled, Zeroed;
    forall x ensures Addr(x) == Addr(q) ==> x == q { AddrsApart(x, q); }
    FreeSame(f, o, q, w);
  }

  lemma FreeSame(f: seq<int>, o: Owners, q: int, w: Owner)
    requires FreeInv(f, o) && q in o && !o[q].Free? && !w.Free?
    ensures FreeInv(f, o[q := w])
  {}

  /** A page changes hands between uses that both hold data. */
  lemma ChangeUse(ram: Ram, head: int, t: Tables, d: map<int, seq<int>>, f: seq<int>, o: Owners, q: int, w: Owner)
    requires Views(ram, head, t, d, f, o) && q in o && (o[q].Leaf? || o[q].Other?) && (w.Leaf? || w.Other?)
    ensures Views(ram, head, t, d, f, o[q := w])
  {
    hide Addr, Bytes, Kalloc.Chain, TableView;
    FreeSame(f, o, q, w);
  }
}
