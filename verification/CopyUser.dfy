/**
  copyin and copyout of kernel/vm.c over the flat map of one address space: `user` takes the
  virtual pages that walkaddr accepts (valid, with PTE_U) to their frames. No two of them share
  a frame (LeafOnce in Sv39).
 */
module CopyUser {

  const PGSIZE: nat := 4096

  type User = map<int, int>
  type Frames = map<int, seq<int>>

  ghost predicate Private(user: User) {
    forall v, w :: v in user && w in user && user[v] == user[w] ==> v == w
  }

  ghost predicate Backed(user: User, data: Frames) {
    forall v :: v in user ==> user[v] in data && |data[user[v]]| == PGSIZE
  }

  /** The byte at virtual address a. */
  ghost function ByteAt(user: User, data: Frames, a: int): (b: int)
    requires Backed(user, data)
  {
    if a / PGSIZE in user then data[user[a / PGSIZE]][a % PGSIZE] else 0
  }

  /** All n bytes from va on are on user pages. */
  ghost predicate Accessible(user: User, va: nat, n: int) {
    forall a :: va <= a < va + n ==> PageOf(a) in user
  }

  function PageOf(a: int): (v: int) { a / PGSIZE }

  /** src[..n] has been written from va on, and nothing else has changed in this address space. */
  ghost predicate Written(user: User, d0: Frames, d: Frames, va: nat, src: seq<int>, n: nat) {
    && Backed(user, d0) && Backed(user, d) && n <= |src|
    && (forall a :: PageOf(a) in user ==>
          ByteAt(user, d, a) == if va <= a < va + n then src[a - va] else ByteAt(user, d0, a))
    && d.Keys == d0.Keys && (forall f :: f in d0 && f !in user.Values ==> d[f] == d0[f])
  }

  function Patch(page: seq<int>, o: nat, bytes: seq<int>): (r: seq<int>)
    requires |page| == PGSIZE && o + |bytes| <= PGSIZE
    ensures |r| == PGSIZE
  {
    page[..o] + bytes + page[o + |bytes|..]
  }

  /** One memmove into the page of va + n. */
  lemma WriteStep(user: User, d0: Frames, d: Frames, va: nat, src: seq<int>, n: nat, m: nat)
    requires Private(user) && Written(user, d0, d, va, src, n) && n + m <= |src|
    requires PageOf(va + n) in user && (va + n) % PGSIZE + m <= PGSIZE
    ensures var f := user[PageOf(va + n)];
            Written(user, d0, d[f := Patch(d[f], (va + n) % PGSIZE, src[n..n + m])], va, src, n + m)
  {
    var v, o := PageOf(va + n), (va + n) % PGSIZE;
    var f := user[v];
    var d' := d[f := Patch(d[f], o, src[n..n + m])];
    assert f in user.Values;
    forall a | PageOf(a) in user
      ensures ByteAt(user, d', a) == if va <= a < va + n + m then src[a - va] else ByteAt(user, d0, a)
    {
      assert ByteAt(user, d, a) == if va <= a < va + n then src[a - va] else ByteAt(user, d0, a);
      if PageOf(a) == v {
        assert a == v * PGSIZE + a % PGSIZE && va + n == v * PGSIZE + o;
      } else {
        assert !(va + n <= a < va + n + m) by { SamePage(va + n, a, m); }
      }
    }
  }

  lemma SamePage(b: nat, a: int, m: nat)
    requires b % PGSIZE + m <= PGSIZE
    ensures b <= a < b + m ==> PageOf(a) == PageOf(b)
  {}

  function Min(a: int, b: int): (r: int) { if a < b then a else b }

  class Space {
    const user: User
    var data: Frames

    ghost predicate Valid()
      reads this
    {
      Private(user) && Backed(user, data)
    }

    /** copyout(): writes up to the first page that is not the user's. */
    method Copyout(dstva: nat, src: seq<int>) returns (ok: bool, n: nat)
      requires Valid()
      modifies this
      ensures Valid() && Written(user, old(data), data, dstva, src, n)
      ensures (ok <==> Accessible(user, dstva, |src|)) && (ok <==> n == |src|)
      ensures !ok ==> (dstva + n) / PGSIZE !in user && Accessible(user, dstva, n)
    {
      hide ByteAt;
      n := 0;
      var va, left := dstva, |src|;
      while left > 0
        invariant Valid() && n <= |src| && left == |src| - n && (left > 0 ==> va == dstva + n)
        invariant Written(user, old(data), data, dstva, src, n) && Accessible(user, dstva, n)
      {
        var va0 := va - va % PGSIZE;
        assert va0 / PGSIZE == PageOf(va);
        if va0 / PGSIZE !in user {
          assert PageOf(dstva + n) !in user;
          return false, n;
        }
        var m := Min(PGSIZE - (va - va0), left);
        var f := user[va0 / PGSIZE];
        WriteStep(user, old(data), data, dstva, src, n, m);
        forall a | dstva + n <= a < dstva + n + m ensures PageOf(a) in user { SamePage(va, a, m); }
        data := data[f := Patch(data[f], va - va0, src[n..n + m])];
        n := n + m;
        left := left - m;
        va := va0 + PGSIZE;
      }
      ok := true;
    }

    /** copyin(): the bytes of the range, when all of it is the user's. */
    method Copyin(srcva: nat, len: nat) returns (ok: bool, dst: seq<int>)
      requires Valid()
      ensures ok <==> Accessible(user, srcva, len)
      ensures |dst| <= len && (ok ==> |dst| == len)
      ensures forall k :: 0 <= k < |dst| ==> dst[k] == ByteAt(user, data, srcva + k)
    {
      dst := [];
      var va, left := srcva, len;
      while left > 0
        invariant |dst| + left == len && (left > 0 ==> va == srcva + |dst|) && 0 <= left
        invariant forall k :: 0 <= k < |dst| ==> dst[k] == ByteAt(user, data, srcva + k)
        invariant Accessible(user, srcva, |dst|)
      {
        var va0 := va - va % PGSIZE;
        assert va0 / PGSIZE == PageOf(va);
        if va0 / PGSIZE !in user {
          assert PageOf(srcva + |dst|) !in user;
          return false, dst;
        }
        var m := Min(PGSIZE - (va - va0), left);
        var page := data[user[va0 / PGSIZE]];
        forall a | va <= a < va + m ensures PageOf(a) in user && page[a - va0] == ByteAt(user, data, a) {
          SamePage(va, a, m);
          assert a % PGSIZE == a - va0;
        }
        dst := dst + page[va - va0..va - va0 + m];
        left := left - m;
        va := va0 + PGSIZE;
      }
      ok := true;
    }
  }

  /** What copyout wrote, copyin reads. */
  lemma ReadsWhatWasWritten(user: User, d0: Frames, d: Frames, va: nat, src: seq<int>, dst: seq<int>)
    requires Written(user, d0, d, va, src, |src|) && Accessible(user, va, |src|) && |dst| == |src|
    requires forall k :: 0 <= k < |dst| ==> dst[k] == ByteAt(user, d, va + k)
    ensures dst == src
  {
    forall k | 0 <= k < |dst| ensures dst[k] == src[k] { assert PageOf(va + k) in user; }
  }
}
