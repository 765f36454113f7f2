/**
  kernel/bio.c on its circular doubly linked list: binit and the bcache.lock sections of bget,
  brelse, bpin and bunpin, each doing what the step of BioMachine says.
 */
module Bio {
  import opened Basics
  import opened BioMachine

  const HEAD: int := NBUF

  /** Position i of the cycle; the head is before the first and after the last buffer. */
  function Node(order: seq<int>, i: int): (b: int) { if 0 <= i < |order| then order[i] else HEAD }

  /** next runs through `order` and back to the head, and prev is its inverse. */
  ghost predicate Ring(next: seq<int>, prev: seq<int>, order: seq<int>) {
    && |next| == NBUF + 1 && |prev| == NBUF + 1 && InRange(order) && NoDup(order)
    && (forall i :: -1 <= i < |order| ==> next[Node(order, i)] == Node(order, i + 1))
    && (forall i :: 0 <= i <= |order| ==> prev[Node(order, i)] == Node(order, i - 1))
  }

  lemma NextPrevInverse(next: seq<int>, prev: seq<int>, order: seq<int>, i: int)
    requires Ring(next, prev, order) && -1 <= i < |order|
    ensures 0 <= next[Node(order, i)] <= NBUF && prev[next[Node(order, i)]] == Node(order, i)
    ensures 0 <= prev[Node(order, i)] <= NBUF && next[prev[Node(order, i)]] == Node(order, i)
  {
    assert next[Node(order, i)] == Node(order, i + 1);
    if i == -1 {
      assert Node(order, -1) == Node(order, |order|);
      assert prev[Node(order, |order|)] == Node(order, |order| - 1);
      assert next[Node(order, |order| - 1)] == Node(order, |order|);
    } else {
      assert prev[Node(order, i)] == Node(order, i - 1);
      assert next[Node(order, i - 1)] == Node(order, i);
    }
  }

  lemma RingUnlink(next: seq<int>, prev: seq<int>, order: seq<int>, i: nat)
    requires Ring(next, prev, order) && i < |order|
    ensures 0 <= next[order[i]] <= NBUF && 0 <= prev[order[i]] <= NBUF
    ensures Ring(next[prev[order[i]] := next[order[i]]], prev[next[order[i]] := prev[order[i]]],
              order[..i] + order[i + 1..])
  {
    var b := order[i];
    assert Node(order, i) == b;
    var n, p := Node(order, i + 1), Node(order, i - 1);
    assert next[b] == n && prev[b] == p;
    var o' := order[..i] + order[i + 1..];
    var next', prev' := next[p := n], prev[n := p];
    forall j | -1 <= j < |o'| ensures next'[Node(o', j)] == Node(o', j + 1) {
      assert Node(o', j) == Node(order, if j < i then j else j + 1);
      assert Node(o', j + 1) == Node(order, if j + 1 < i then j + 1 else j + 2);
      assert next[Node(order, if j < i then j else j + 1)] == Node(order, (if j < i then j else j + 1) + 1);
    }
    forall j | 0 <= j <= |o'| ensures prev'[Node(o', j)] == Node(o', j - 1) {
      assert Node(o', j) == Node(order, if j < i then j else j + 1);
      assert Node(o', j - 1) == Node(order, if j - 1 < i then j - 1 else j);
      assert prev[Node(order, if j < i then j else j + 1)] == Node(order, (if j < i then j else j + 1) - 1);
    }
  }

  lemma RingPush(next: seq<int>, prev: seq<int>, order: seq<int>, b: int)
    requires Ring(next, prev, order) && 0 <= b < NBUF && b !in order
    ensures 0 <= next[HEAD] <= NBUF
    ensures Ring(next[b := next[HEAD]][HEAD := b], prev[b := HEAD][next[HEAD] := b], [b] + order)
  {
    assert Node(order, -1) == HEAD;
    var o' := [b] + order;
    assert next[HEAD] == Node(order, 0);
    var next', prev' := next[b := next[HEAD]][HEAD := b], prev[b := HEAD][next[HEAD] := b];
    forall j | -1 <= j < |o'| ensures next'[Node(o', j)] == Node(o', j + 1) {
      assert j >= 0 ==> Node(o', j + 1) == Node(order, j);
      assert j >= 1 ==> Node(o', j) == Node(order, j - 1) && next[Node(order, j - 1)] == Node(order, j);
    }
    forall j | 0 <= j <= |o'| ensures prev'[Node(o', j)] == Node(o', j - 1) {
      assert j >= 1 ==> Node(o', j) == Node(order, j - 1) && prev[Node(order, j - 1)] == Node(order, j - 2);
      assert j >= 2 ==> Node(o', j - 1) == Node(order, j - 2);
    }
  }

  lemma RingEmpty(next: seq<int>, prev: seq<int>)
    requires |next| == NBUF + 1 && |prev| == NBUF + 1 && next[HEAD] == HEAD && prev[HEAD] == HEAD
    ensures Ring(next, prev, [])
  {}

  /** The searches, one position at a time. */
  lemma {:induction false} CachedFrom(bufs: seq<Buf>, order: seq<int>, k: Key, i: nat)
    requires |bufs| == NBUF && InRange(order) && i <= |order|
    requires forall j :: 0 <= j < i ==> bufs[order[j]].key != k
    ensures i == |order| ==> Cached(bufs, order, k) == -1
    ensures i < |order| && bufs[order[i]].key == k ==> Cached(bufs, order, k) == order[i]
  {
    if i > 0 {
      assert order[0] == order[..i][0];
      CachedFrom(bufs, order[1..], k, i - 1);
    }
  }

  lemma {:induction false} UnusedFrom(bufs: seq<Buf>, order: seq<int>, i: int)
    requires |bufs| == NBUF && InRange(order) && -1 <= i < |order|
    requires forall j :: i < j < |order| ==> bufs[order[j]].refcnt != 0
    ensures i == -1 ==> Unused(bufs, order) == -1
    ensures i >= 0 && bufs[order[i]].refcnt == 0 ==> Unused(bufs, order) == order[i]
  {
    if i < |order| - 1 {
      UnusedFrom(bufs, order[..|order| - 1], i);
    }
  }

  class Cache {
    const next: array<int>
    const prev: array<int>
    const bufs: array<Buf>
    ghost var s: State

    ghost predicate Valid()
      reads this, next, prev, bufs
    {
      && next.Length == NBUF + 1 && prev.Length == NBUF + 1 && bufs.Length == NBUF && next != prev
      && Inv(s) && bufs[..] == s.bufs && Ring(next[..], prev[..], s.order)
    }

    /** b goes to the front of the list. */
    method PushFront(b: int, ghost order: seq<int>)
      requires next.Length == NBUF + 1 && prev.Length == NBUF + 1 && next != prev
      requires Ring(next[..], prev[..], order) && 0 <= b < NBUF && b !in order
      modifies next, prev
      ensures Ring(next[..], prev[..], [b] + order)
    {
      RingPush(next[..], prev[..], order, b);
      hide Ring;
      ghost var n0, p0 := next[..], prev[..];
      next[b] := next[HEAD];
      prev[b] := HEAD;
      prev[next[HEAD]] := b;
      next[HEAD] := b;
      assert next[..] == n0[b := n0[HEAD]][HEAD := b];
      assert prev[..] == p0[b := HEAD][n0[HEAD] := b];
    }

    method Unlink(b: int, ghost order: seq<int>, ghost i: nat)
      requires next.Length == NBUF + 1 && prev.Length == NBUF + 1 && next != prev
      requires Ring(next[..], prev[..], order) && i < |order| && order[i] == b && 0 <= b < NBUF
      modifies next, prev
      ensures Ring(next[..], prev[..], order[..i] + order[i + 1..])
    {
      RingUnlink(next[..], prev[..], order, i);
      hide Ring;
      ghost var n0, p0 := next[..], prev[..];
      prev[next[b]] := prev[b];
      next[prev[b]] := next[b];
      assert prev[..] == p0[n0[b] := p0[b]];
      assert next[..] == n0[p0[b] := n0[b]];
    }

    /** binit(), on zeroed memory. */
    constructor (ghost disk: map<Key, Data>)
      ensures Valid() && Init(s) && s.disk == disk && fresh(next) && fresh(prev) && fresh(bufs)
    {
      hide Ring, Inv;
      next := new int[NBUF + 1](_ => 0);
      prev := new int[NBUF + 1](_ => 0);
      bufs := new Buf[NBUF](_ => Buf(Key(0, 0), false, 0, false, []));
      s := State(seq(NBUF, _ => Buf(Key(0, 0), false, 0, false, [])), seq(NBUF, i => NBUF - 1 - i), map[],
                 seq(NBUF, _ => 0), disk, disk);
      new;
      ghost var order := LinkAll();
      InitOk(s);
    }

    /** binit's loop. */
    method LinkAll() returns (ghost order: seq<int>)
      requires next.Length == NBUF + 1 && prev.Length == NBUF + 1 && next != prev
      modifies next, prev
      ensures order == seq(NBUF, i => NBUF - 1 - i) && Ring(next[..], prev[..], order)
    {
      hide Ring;
      next[HEAD] := HEAD;
      prev[HEAD] := HEAD;
      RingEmpty(next[..], prev[..]);
      order := [];
      for b := 0 to NBUF
        invariant Ring(next[..], prev[..], order) && order == seq(b, i => b - 1 - i)
      {
        PushFront(b, order);
        order := [b] + order;
      }
    }

    /** bget's first loop, from head.next on; HEAD when nothing is found. */
    method FindCached(k: Key) returns (b: int)
      requires Valid()
      ensures Sized(s) && b == if Cached(s.bufs, s.order, k) == -1 then HEAD else Cached(s.bufs, s.order, k)
    {
      hide Inv;
      InvSized(s);
      b := next[HEAD];
      ghost var i := 0;
      assert Node(s.order, -1) == HEAD;
      while b != HEAD
        invariant 0 <= i <= |s.order| && b == Node(s.order, i)
        invariant forall j :: 0 <= j < i ==> bufs[s.order[j]].key != k
        decreases |s.order| - i
      {
        CachedFrom(s.bufs, s.order, k, i);
        if bufs[b].key == k {
          return;
        }
        b := next[b];
        i := i + 1;
      }
      CachedFrom(s.bufs, s.order, k, i);
    }

    /** bget's second loop, from head.prev back. */
    method FindUnused() returns (b: int)
      requires Valid()
      ensures Sized(s) && b == if Unused(s.bufs, s.order) == -1 then HEAD else Unused(s.bufs, s.order)
    {
      hide Inv;
      InvSized(s);
      b := prev[HEAD];
      ghost var i := |s.order| - 1;
      assert Node(s.order, |s.order|) == HEAD;
      while b != HEAD
        invariant -1 <= i < |s.order| && b == Node(s.order, i)
        invariant forall j :: i < j < |s.order| ==> bufs[s.order[j]].refcnt != 0
        decreases i
      {
        UnusedFrom(s.bufs, s.order, i);
        if bufs[b].refcnt == 0 {
          return;
        }
        b := prev[b];
        i := i - 1;
      }
      UnusedFrom(s.bufs, s.order, i);
    }

    /** bget() up to the release of bcache.lock; -1 where it panics. */
    method Bget(ghost t: int, k: Key) returns (b: int)
      requires Valid() && t !in s.refs
      modifies this`s, bufs
      ensures Valid()
      ensures b == -1 <==> !old(Enabled(s, Get(t, k)))
      ensures b == -1 ==> s == old(s)
      ensures b != -1 ==> s == old(Apply(s, Get(t, k))) && b == s.refs[t].buf && bufs[b].key == k
    {
      hide Inv, Ring, Apply;
      b := FindCached(k);
      if b != HEAD {
        Hit(s, t, k, b);
        bufs[b] := bufs[b].(refcnt := bufs[b].refcnt + 1);
        s := Apply(s, Get(t, k));
        return;
      }
      b := FindUnused();
      if b != HEAD {
        Miss(s, t, k, b);
        bufs[b] := bufs[b].(key := k, valid := false, refcnt := 1);
        s := Apply(s, Get(t, k));
        return;
      }
      b := -1;
    }

    /** acquiresleep(&b->lock), once the lock is free. */
    method AcquireBuf(b: int, ghost t: int)
      requires Valid() && At(s, t, Found) && s.refs[t].buf == b && 0 <= b < NBUF && !bufs[b].locked
      modifies this`s, bufs
      ensures Valid() && s == old(Apply(s, Lock(t)))
    {
      hide Permutation, Unique, Ring;
      InvSized(s);
      StepInv(s, Lock(t));
      bufs[b] := bufs[b].(locked := true);
      s := Apply(s, Lock(t));
    }

    /** The rest of bread(); `transfer` is what the disk delivers if it is asked. */
    method FillBuf(b: int, ghost t: int, transfer: Data)
      requires Valid() && At(s, t, Locked) && s.refs[t].buf == b && 0 <= b < NBUF
      requires !bufs[b].valid ==> transfer == Look(s.disk, bufs[b].key)
      modifies this`s, bufs
      ensures Valid() && s == old(Apply(s, Fill(t)))
    {
      hide Permutation, Unique, Ring;
      InvSized(s);
      StepInv(s, Fill(t));
      if !bufs[b].valid {
        bufs[b] := bufs[b].(data := transfer);
        bufs[b] := bufs[b].(valid := true);
      }
      s := Apply(s, Fill(t));
    }

    /** bread(), where the sleep-lock is free: bget, acquiresleep and the transfer; -1 where bget panics. */
    method Bread(ghost t: int, k: Key, transfer: Data) returns (b: int)
      requires Valid() && t !in s.refs && transfer == Look(s.disk, k)
      requires Sized(s) && (Enabled(s, Get(t, k)) ==> 0 <= Target(s, k) < NBUF && !s.bufs[Target(s, k)].locked)
      modifies this`s, bufs
      ensures Valid() && (b == -1 <==> !old(Enabled(s, Get(t, k))))
      ensures b == -1 ==> s == old(s)
      ensures b != -1 ==> At(s, t, Ready) && s.refs[t] == Ref(b, k, Ready) && bufs[b].key == k && bufs[b].valid
      ensures s.disk == old(s.disk) && s.latest == old(s.latest)
    {
      hide Inv, Ring;
      ghost var target := Target(s, k);
      b := Bget(t, k);
      if b == -1 {
        return;
      }
      AcquireBuf(b, t);
      FillBuf(b, t, transfer);
      ReadyAt(s, t);
    }

    /** The holder of the lock changes the data. */
    method Change(b: int, ghost t: int, d: Data)
      requires Valid() && At(s, t, Ready) && s.refs[t].buf == b && 0 <= b < NBUF
      modifies this`s, bufs
      ensures Valid() && s == old(Apply(s, Modify(t, d)))
    {
      hide Permutation, Unique, Ring;
      InvSized(s);
      StepInv(s, Modify(t, d));
      bufs[b] := bufs[b].(data := d);
      s := Apply(s, Modify(t, d));
    }

    /** bwrite(): the transfer to the disk; `sent` is what goes out. */
    method Bwrite(b: int, ghost t: int) returns (k: Key, sent: Data)
      requires Valid() && At(s, t, Ready) && s.refs[t].buf == b && 0 <= b < NBUF
      modifies this`s
      ensures Valid() && s == old(Apply(s, Flush(t))) && Look(s.disk, k) == sent == bufs[b].data && k == bufs[b].key
    {
      hide Permutation, Unique, Ring;
      InvSized(s);
      StepInv(s, Flush(t));
      k, sent := bufs[b].key, bufs[b].data;
      s := Apply(s, Flush(t));
    }

    /** releasesleep(&b->lock), the first half of brelse. */
    method ReleaseBuf(b: int, ghost t: int)
      requires Valid() && At(s, t, Ready) && s.refs[t].buf == b && 0 <= b < NBUF
      modifies this`s, bufs
      ensures Valid() && s == old(Apply(s, Unlock(t)))
    {
      hide Permutation, Unique, Ring;
      InvSized(s);
      StepInv(s, Unlock(t));
      bufs[b] := bufs[b].(locked := false);
      s := Apply(s, Unlock(t));
    }

    /** brelse() after releasesleep. */
    method Brelse(b: int, ghost t: int)
      requires Valid() && At(s, t, Done) && s.refs[t].buf == b
      modifies this`s, next, prev, bufs
      ensures Valid() && s == old(Apply(s, Put(t)))
    {
      hide Permutation, Unique, Front, Ring;
      InvSized(s);
      StepInv(s, Put(t));
      bufs[b] := bufs[b].(refcnt := bufs[b].refcnt - 1);
      if bufs[b].refcnt == 0 {
        ghost var i := Position(s.order, b);
        Unlink(b, s.order, i);
        RemovedNotIn(s.order, i);
        PushFront(b, s.order[..i] + s.order[i + 1..]);
      }
      s := Apply(s, Put(t));
    }

    method Bpin(b: int, ghost t: int)
      requires Valid() && At(s, t, Ready) && s.refs[t].buf == b
      modifies this`s, bufs
      ensures Valid() && s == old(Apply(s, Pin(t)))
    {
      hide Permutation, Unique, Ring;
      InvSized(s);
      StepInv(s, Pin(t));
      bufs[b] := bufs[b].(refcnt := bufs[b].refcnt + 1);
      s := Apply(s, Pin(t));
    }

    method Bunpin(b: int)
      requires Valid() && 0 <= b < NBUF && s.pins[b] > 0
      modifies this`s, bufs
      ensures Valid() && s == old(Apply(s, Unpin(b)))
    {
      hide Permutation, Unique, Ring;
      InvSized(s);
      StepInv(s, Unpin(b));
      bufs[b] := bufs[b].(refcnt := bufs[b].refcnt - 1);
      s := Apply(s, Unpin(b));
    }
  }

  lemma ReadyAt(s: State, t: int)
    requires Inv(s) && At(s, t, Ready)
    ensures Sized(s) && s.bufs[s.refs[t].buf].valid && s.bufs[s.refs[t].buf].key == s.refs[t].key
  {
    assert RefOk(s, t);
  }

  lemma Hit(s: State, t: int, k: Key, b: int)
    requires Inv(s) && t !in s.refs && Sized(s) && 0 <= b < NBUF && Cached(s.bufs, s.order, k) == b
    ensures Enabled(s, Get(t, k)) && Inv(Apply(s, Get(t, k)))
    ensures var s' := Apply(s, Get(t, k));
            s'.bufs == s.bufs[b := s.bufs[b].(refcnt := s.bufs[b].refcnt + 1)] && s'.order == s.order
              && s'.refs[t].buf == b
            && s.bufs[b].key == k
  {
    StepInv(s, Get(t, k));
  }

  lemma Miss(s: State, t: int, k: Key, b: int)
    requires Inv(s) && t !in s.refs && Sized(s) && 0 <= b < NBUF
    requires Cached(s.bufs, s.order, k) == -1 && Unused(s.bufs, s.order) == b
    ensures Enabled(s, Get(t, k)) && Inv(Apply(s, Get(t, k)))
    ensures var s' := Apply(s, Get(t, k));
            s'.bufs == s.bufs[b := s.bufs[b].(key := k, valid := false, refcnt := 1)] && s'.order == s.order
              && s'.refs[t].buf == b
  {
    StepInv(s, Get(t, k));
  }

  ghost function Position(order: seq<int>, b: int): (i: nat)
    requires Permutation(order) && 0 <= b < NBUF
    ensures i < |order| && order[i] == b && Front(order, b) == [b] + (order[..i] + order[i + 1..])
  {
    assert b in order;
    var i :| 0 <= i < |order| && order[i] == b;
    RemoveAt(order, i);
    i
  }

  lemma RemovedNotIn(order: seq<int>, i: nat)
    requires Permutation(order) && i < |order|
    ensures order[i] !in order[..i] + order[i + 1..]
  {}
}
