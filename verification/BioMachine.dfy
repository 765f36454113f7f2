/**
  The buffer cache of kernel/bio.c as a state machine whose steps interleave freely: each step
  is one critical section of bcache.lock, one acquire or release of a buffer's sleep-lock, one
  disk transfer, or one change of a locked buffer's data.
 */
module BioMachine {
  import opened Basics

  const NBUF: nat := 30 // MAXOPBLOCKS * 3

  datatype Key = Key(dev: int, blockno: int)
  type Data = seq<int>

  datatype Buf = Buf(key: Key, valid: bool, refcnt: int, locked: bool, data: Data)

  /** Where a caller of bread is: back from bget's search, holding the lock, returned, past releasesleep. */
  datatype Phase = Found | Locked | Ready | Done

  /** One reference to a buffer, from bget to brelse. */
  datatype Ref = Ref(buf: int, key: Key, phase: Phase)

  /** `order` is the list from head.next on, `latest` the data last given to each block. */
  datatype State = State(bufs: seq<Buf>, order: seq<int>, refs: map<int, Ref>, pins: seq<nat>,
                         disk: map<Key, Data>, latest: map<Key, Data>)

  datatype Event =
    | Get(t: int, key: Key) | Lock(t: int) | Fill(t: int) | Modify(t: int, data: Data) | Flush(t: int)
    | Unlock(t: int) | Put(t: int) | Pin(t: int) | Unpin(b: int)

  /** Unwritten blocks read as []. */
  function Look(m: map<Key, Data>, k: Key): (d: Data)
    ensures k in m ==> d == m[k]
  {
    if k in m then m[k] else []
  }

  // ---------------------------------------------------------------------------------
  // bget's two searches
  // ---------------------------------------------------------------------------------

  predicate InRange(order: seq<int>) { forall i :: 0 <= i < |order| ==> 0 <= order[i] < NBUF }

  /** The first buffer of the list that holds block k, or -1. */
  function Cached(bufs: seq<Buf>, order: seq<int>, k: Key): (b: int)
    requires |bufs| == NBUF && InRange(order)
    ensures b == -1 ==> forall i :: 0 <= i < |order| ==> bufs[order[i]].key != k
    ensures b != -1 ==> b in order && bufs[b].key == k
  {
    if order == [] then -1 else if bufs[order[0]].key == k then order[0] else Cached(bufs, order[1..], k)
  }

  /** The last buffer of the list that nobody refers to, or -1. */
  function Unused(bufs: seq<Buf>, order: seq<int>): (b: int)
    requires |bufs| == NBUF && InRange(order)
    ensures b == -1 ==> forall i :: 0 <= i < |order| ==> bufs[order[i]].refcnt != 0
    ensures b != -1 ==> exists i :: 0 <= i < |order| && order[i] == b && bufs[b].refcnt == 0
                          && forall j :: i < j < |order| ==> bufs[order[j]].refcnt != 0
  {
    if order == [] then -1
    else if bufs[order[|order| - 1]].refcnt == 0 then order[|order| - 1]
    else Unused(bufs, order[..|order| - 1])
  }

  /** order without b, and b in front. */
  function Front(order: seq<int>, b: int): (r: seq<int>) { [b] + Remove(order, b) }

  function Remove(order: seq<int>, b: int): (r: seq<int>) {
    if order == [] then [] else if order[0] == b then order[1..] else [order[0]] + Remove(order[1..], b)
  }

  // ---------------------------------------------------------------------------------
  // Steps
  // ---------------------------------------------------------------------------------

  predicate Sized(s: State) {
    |s.bufs| == NBUF && |s.pins| == NBUF && InRange(s.order)
    && (forall t :: t in s.refs ==> 0 <= s.refs[t].buf < NBUF)
  }

  predicate At(s: State, t: int, ph: Phase) { t in s.refs && s.refs[t].phase == ph }

  /** What bget(k) returns: the cached buffer, or the one to recycle, or -1 where it panics. */
  function Target(s: State, k: Key): (b: int)
    requires Sized(s)
  {
    if Cached(s.bufs, s.order, k) != -1 then Cached(s.bufs, s.order, k) else Unused(s.bufs, s.order)
  }

  predicate Enabled(s: State, e: Event)
    requires Sized(s)
  {
    match e
    case Get(t, k) => t !in s.refs && Target(s, k) != -1
    case Lock(t) => At(s, t, Found) && !s.bufs[s.refs[t].buf].locked
    case Fill(t) => At(s, t, Locked)
    case Modify(t, d) => At(s, t, Ready)
    case Flush(t) => At(s, t, Ready)
    case Unlock(t) => At(s, t, Ready)
    case Put(t) => At(s, t, Done)
    case Pin(t) => At(s, t, Ready)
    case Unpin(b) => 0 <= b < NBUF && s.pins[b] > 0
  }

  function SetPhase(s: State, t: int, ph: Phase): (refs: map<int, Ref>)
    requires t in s.refs
  {
    s.refs[t := s.refs[t].(phase := ph)]
  }

  function GetBuf(s: State, k: Key): (x: Buf)
    requires Sized(s) && 0 <= Target(s, k) < NBUF
  {
    var b := s.bufs[Target(s, k)];
    if Cached(s.bufs, s.order, k) != -1 then b.(refcnt := b.refcnt + 1)
    else b.(key := k, valid := false, refcnt := 1)
  }

  lemma TargetRange(s: State, k: Key)
    requires Sized(s)
    ensures Target(s, k) == -1 || 0 <= Target(s, k) < NBUF
  {}

  function Apply(s: State, e: Event): (s': State)
    requires Sized(s) && Enabled(s, e)
  {
    match e
    case Get(t, k) =>
      TargetRange(s, k);
      s.(bufs := s.bufs[Target(s, k) := GetBuf(s, k)], refs := s.refs[t := Ref(Target(s, k), k, Found)])
    case Lock(t) =>
      var b := s.refs[t].buf;
      s.(bufs := s.bufs[b := s.bufs[b].(locked := true)], refs := SetPhase(s, t, Locked))
    case Fill(t) =>
      var b := s.refs[t].buf;
      var x := s.bufs[b];
      s.(bufs := s.bufs[b := if x.valid then x else x.(data := Look(s.disk, x.key), valid := true)],
         refs := SetPhase(s, t, Ready))
    case Modify(t, d) =>
      var b := s.refs[t].buf;
      s.(bufs := s.bufs[b := s.bufs[b].(data := d)], latest := s.latest[s.bufs[b].key := d])
    case Flush(t) =>
      var x := s.bufs[s.refs[t].buf];
      s.(disk := s.disk[x.key := x.data])
    case Unlock(t) =>
      var b := s.refs[t].buf;
      s.(bufs := s.bufs[b := s.bufs[b].(locked := false)], refs := SetPhase(s, t, Done))
    case Put(t) =>
      var b := s.refs[t].buf;
      var n := s.bufs[b].refcnt - 1;
      var s1 := s.(bufs := s.bufs[b := s.bufs[b].(refcnt := n)], refs := s.refs - {t});
      if n == 0 then s1.(order := Front(s.order, b)) else s1
    case Pin(t) =>
      var b := s.refs[t].buf;
      s.(bufs := s.bufs[b := s.bufs[b].(refcnt := s.bufs[b].refcnt + 1)], pins := s.pins[b := s.pins[b] + 1])
    case Unpin(b) =>
      s.(bufs := s.bufs[b := s.bufs[b].(refcnt := s.bufs[b].refcnt - 1)], pins := s.pins[b := s.pins[b] - 1])
  }

  // ---------------------------------------------------------------------------------
  // The list
  // ---------------------------------------------------------------------------------

  /** The list holds every buffer, once. */
  ghost predicate Permutation(order: seq<int>) {
    InRange(order) && NoDup(order) && forall b :: 0 <= b < NBUF ==> b in order
  }

  lemma {:induction false} RemoveAt(order: seq<int>, i: nat)
    requires NoDup(order) && i < |order|
    ensures Remove(order, order[i]) == order[..i] + order[i + 1..]
  {
    if i > 0 {
      RemoveAt(order[1..], i - 1);
      assert order[1..][i - 1] == order[i];
      assert order[..i] == [order[0]] + order[1..][..i - 1];
    }
  }

  lemma FrontIs(order: seq<int>, b: int, i: nat, f: seq<int>)
    requires NoDup(order) && i < |order| && order[i] == b && f == Front(order, b)
    ensures |f| == |order| && f[0] == b
    ensures forall j {:trigger f[j]} :: 0 < j <= i ==> f[j] == order[j - 1]
    ensures forall j {:trigger f[j]} :: i < j < |f| ==> f[j] == order[j]
  {
    RemoveAt(order, i);
  }

  lemma FrontPermutation(order: seq<int>, b: int)
    requires Permutation(order) && 0 <= b < NBUF
    ensures Permutation(Front(order, b))
  {
    hide Front;
    assert b in order;
    var i :| 0 <= i < |order| && order[i] == b;
    var f := Front(order, b);
    FrontIs(order, b, i, f);
    forall x | 0 <= x < NBUF ensures x in f {
      assert x in order;
      var j :| 0 <= j < |order| && order[j] == x;
      assert f[if j == i then 0 else if j < i then j + 1 else j] == x;
    }
  }

  // ---------------------------------------------------------------------------------
  // References
  // ---------------------------------------------------------------------------------

  ghost function Holders(refs: map<int, Ref>, b: int): (r: set<int>) { set t | t in refs && refs[t].buf == b }

  ghost predicate Counted(s: State, b: int)
    requires |s.bufs| == NBUF && |s.pins| == NBUF && 0 <= b < NBUF
  {
    s.bufs[b].refcnt == |Holders(s.refs, b)| + s.pins[b]
  }

  lemma HoldersAdd(refs: map<int, Ref>, t: int, r: Ref, b: int)
    requires t !in refs
    ensures |Holders(refs[t := r], b)| == |Holders(refs, b)| + if b == r.buf then 1 else 0
  {
    if b == r.buf {
      assert Holders(refs[t := r], b) == Holders(refs, b) + {t};
    } else {
      assert Holders(refs[t := r], b) == Holders(refs, b);
    }
  }

  lemma HoldersDel(refs: map<int, Ref>, t: int, b: int)
    requires t in refs
    ensures |Holders(refs - {t}, b)| == |Holders(refs, b)| - if b == refs[t].buf then 1 else 0
  {
    if b == refs[t].buf {
      assert Holders(refs, b) == Holders(refs - {t}, b) + {t};
    } else {
      assert Holders(refs - {t}, b) == Holders(refs, b);
    }
  }

  lemma HoldersSame(refs: map<int, Ref>, t: int, r: Ref, b: int)
    requires t in refs && refs[t].buf == r.buf
    ensures Holders(refs[t := r], b) == Holders(refs, b)
  {}

  // ---------------------------------------------------------------------------------
  // The invariant
  // ---------------------------------------------------------------------------------

  predicate Holding(r: Ref) { r.phase.Locked? || r.phase.Ready? }

  /** At most one buffer per block of a real device. */
  ghost predicate Unique(bufs: seq<Buf>) {
    forall b, b' :: 0 <= b < b' < |bufs| && bufs[b].key.dev != 0 ==> bufs[b].key != bufs[b'].key
  }

  /** A reference is to the block it asked for, for as long as it lasts. */
  ghost predicate RefOk(s: State, t: int)
    requires Sized(s) && t in s.refs
  {
    var r := s.refs[t];
    && s.bufs[r.buf].key == r.key && (Holding(r) ==> s.bufs[r.buf].locked) && (r.phase.Ready? ==> s.bufs[r.buf].valid)
  }

  ghost predicate OneHolder(refs: map<int, Ref>) {
    forall t, t' ::
      (t in refs && t' in refs && Holding(refs[t]) && Holding(refs[t']) && refs[t].buf == refs[t'].buf) ==> t == t'
  }

  ghost predicate Inv(s: State) {
    && Sized(s) && Permutation(s.order) && Unique(s.bufs)
    && (forall b :: 0 <= b < NBUF ==> Counted(s, b))
    && (forall t :: t in s.refs ==> RefOk(s, t))
    && OneHolder(s.refs)
  }

  /** A referenced or pinned buffer is never recycled. */
  lemma RecycledIdle(s: State, k: Key)
    requires Inv(s) && Cached(s.bufs, s.order, k) == -1 && Target(s, k) != -1
    ensures 0 <= Target(s, k) < NBUF && s.bufs[Target(s, k)].refcnt == 0
    ensures s.pins[Target(s, k)] == 0 && forall t :: t in s.refs ==> s.refs[t].buf != Target(s, k)
  {
    var b := Target(s, k);
    assert Counted(s, b);
    assert Holders(s.refs, b) == {};
    forall t | t in s.refs ensures s.refs[t].buf != b {
      assert t !in Holders(s.refs, b);
    }
  }

  /** bget panics exactly when the block is not cached and every buffer is in use. */
  lemma PanicIff(s: State, k: Key)
    requires Inv(s)
    ensures Target(s, k) == -1 <==>
            (forall b :: 0 <= b < NBUF ==> s.bufs[b].key != k && s.bufs[b].refcnt > 0)
  {
    if Target(s, k) == -1 {
      forall b | 0 <= b < NBUF ensures s.bufs[b].key != k && s.bufs[b].refcnt > 0 {
        assert b in s.order;
        assert Counted(s, b);
      }
    }
  }

  // ---------------------------------------------------------------------------------
  // Every step keeps the invariant
  // ---------------------------------------------------------------------------------

  lemma GetUnique(s: State, k: Key)
    requires Inv(s) && Target(s, k) != -1
    ensures 0 <= Target(s, k) < NBUF && Unique(s.bufs[Target(s, k) := GetBuf(s, k)])
  {
    forall b | 0 <= b < NBUF && Cached(s.bufs, s.order, k) == -1 ensures s.bufs[b].key != k {
      assert b in s.order;
    }
  }

  lemma GetRefs(s: State, t: int, k: Key, s': State)
    requires Inv(s) && Enabled(s, Get(t, k)) && s' == Apply(s, Get(t, k))
    ensures Sized(s') && (forall x :: x in s'.refs ==> RefOk(s', x)) && OneHolder(s'.refs)
  {
    var b := Target(s, k);
    hide Permutation, Unique, Counted;
    assert Sized(s');
    if Cached(s.bufs, s.order, k) == -1 { RecycledIdle(s, k); }
    forall x | x in s'.refs ensures RefOk(s', x) {
      if x != t { assert RefOk(s, x); }
    }
  }

  lemma GetCounts(s: State, t: int, k: Key, s': State, b: int)
    requires Inv(s) && Enabled(s, Get(t, k)) && s' == Apply(s, Get(t, k)) && 0 <= b < NBUF
    ensures Counted(s', b)
  {
    hide Permutation, Unique;
    assert Counted(s, b);
    HoldersAdd(s.refs, t, Ref(Target(s, k), k, Found), b);
    hide Holders;
  }

  /** One reference moves on, within its own buffer. */
  ghost predicate PhaseMove(s: State, s': State, t: int) {
    && t in s.refs && t in s'.refs && s'.refs == s.refs[t := s'.refs[t]] && s'.refs[t].buf == s.refs[t].buf
    && s'.refs[t].key == s.refs[t].key && |s'.bufs| == |s.bufs| && s'.pins == s.pins && s'.order == s.order
    && (forall b :: 0 <= b < |s.bufs| ==> s'.bufs[b].key == s.bufs[b].key && s'.bufs[b].refcnt == s.bufs[b].refcnt)
    && (forall b :: 0 <= b < |s.bufs| && b != s.refs[t].buf ==> s'.bufs[b] == s.bufs[b])
  }

  lemma PhaseMoves(s: State, e: Event, s': State)
    requires Sized(s) && Enabled(s, e) && s' == Apply(s, e)
    requires e.Lock? || e.Fill? || e.Modify? || e.Flush? || e.Unlock?
    ensures Sized(s') && PhaseMove(s, s', e.t)
  {}

  lemma PhaseRef(s: State, e: Event, s': State, x: int)
    requires Sized(s) && Enabled(s, e) && s' == Apply(s, e) && Sized(s') && x in s.refs && x in s'.refs
    requires e.Lock? || e.Fill? || e.Modify? || e.Flush? || e.Unlock?
    requires RefOk(s, x) && RefOk(s, e.t) && OneHolder(s.refs)
    ensures RefOk(s', x)
    ensures Holding(s'.refs[x]) ==> Holding(s.refs[x]) || (x == e.t && !s.bufs[s.refs[x].buf].locked)
  {}

  /** Steps that change only phases, locks, data and the disk. */
  lemma PhaseStep(s: State, e: Event, s': State)
    requires Inv(s) && Enabled(s, e) && s' == Apply(s, e)
    requires e.Lock? || e.Fill? || e.Modify? || e.Flush? || e.Unlock?
    ensures Inv(s')
  {
    hide Permutation, Enabled, Apply, Holders;
    PhaseMoves(s, e, s');
    assert RefOk(s, e.t);
    forall b | 0 <= b < NBUF ensures Counted(s', b) {
      assert Counted(s, b);
      HoldersSame(s.refs, e.t, s'.refs[e.t], b);
    }
    forall x | x in s'.refs
      ensures RefOk(s', x)
      ensures Holding(s'.refs[x]) ==> Holding(s.refs[x]) || (x == e.t && !s.bufs[s.refs[x].buf].locked)
    {
      assert RefOk(s, x);
      PhaseRef(s, e, s', x);
    }
    assert OneHolder(s'.refs) by {
      forall x, y | x in s'.refs && y in s'.refs && Holding(s'.refs[x]) && Holding(s'.refs[y])
        && s'.refs[x].buf == s'.refs[y].buf
        ensures x == y
      {
        assert RefOk(s, x) && RefOk(s, y);
      }
    }
  }

  lemma PutStep(s: State, e: Event, s': State)
    requires Inv(s) && Enabled(s, e) && s' == Apply(s, e) && e.Put?
    ensures Inv(s')
  {
    hide Permutation, Front, Holders;
    var b0 := s.refs[e.t].buf;
    FrontPermutation(s.order, b0);
    FrontRange(s.order, b0);
    assert Sized(s');
    forall b | 0 <= b < NBUF ensures Counted(s', b) {
      assert Counted(s, b);
      HoldersDel(s.refs, e.t, b);
    }
    forall x | x in s'.refs ensures RefOk(s', x) { assert RefOk(s, x); }
  }

  lemma PinStep(s: State, e: Event, s': State)
    requires Inv(s) && Enabled(s, e) && s' == Apply(s, e) && (e.Pin? || e.Unpin?)
    ensures Inv(s')
  {
    hide Permutation, Holders;
    forall b | 0 <= b < NBUF ensures Counted(s', b) { assert Counted(s, b); }
    forall x | x in s'.refs ensures RefOk(s', x) { assert RefOk(s, x); }
  }

  lemma FrontRange(order: seq<int>, b: int)
    requires Permutation(order) && 0 <= b < NBUF
    ensures InRange(Front(order, b)) && Permutation(Front(order, b))
  {
    FrontPermutation(order, b);
  }

  lemma StepInv(s: State, e: Event)
    requires Inv(s) && Enabled(s, e)
    ensures Inv(Apply(s, e))
  {
    var s' := Apply(s, e);
    if e.Get? {
      GetUnique(s, e.key);
      GetRefs(s, e.t, e.key, s');
      forall b | 0 <= b < NBUF ensures Counted(s', b) { GetCounts(s, e.t, e.key, s', b); }
      hide Permutation, Unique, Counted, RefOk, OneHolder, Target, GetBuf;
    } else if e.Put? {
      hide Inv, Apply, Enabled;
      PutStep(s, e, s');
    } else if e.Pin? || e.Unpin? {
      hide Inv, Apply, Enabled;
      PinStep(s, e, s');
    } else {
      hide Inv, Apply, Enabled;
      PhaseStep(s, e, s');
    }
  }

  // ---------------------------------------------------------------------------------
  // Agreement with the disk
  // ---------------------------------------------------------------------------------

  /** What a reader of block k would get. */
  ghost function View(s: State, k: Key): (d: Data)
    requires Sized(s)
  {
    var b := Cached(s.bufs, s.order, k);
    if b != -1 && s.bufs[b].valid then s.bufs[b].data else Look(s.disk, k)
  }

  /** Every block of a real device reads as what was last given to it. */
  ghost predicate Coherent(s: State)
    requires Sized(s)
  {
    forall k: Key :: k.dev != 0 ==> View(s, k) == Look(s.latest, k)
  }

  /** b holds data for a real device that the disk does not have. */
  predicate Dirty(s: State, b: int)
    requires |s.bufs| == NBUF && 0 <= b < NBUF
  {
    s.bufs[b].key.dev != 0 && s.bufs[b].valid && s.bufs[b].data != Look(s.disk, s.bufs[b].key)
  }

  /** A bget that recycles a buffer whose data never reached the disk. */
  predicate Loses(s: State, e: Event)
    requires Sized(s) && Enabled(s, e)
  {
    && e.Get? && Cached(s.bufs, s.order, e.key) == -1
    && (TargetRange(s, e.key); Dirty(s, Target(s, e.key)))
  }

  lemma ViewCached(s: State, b: int)
    requires Inv(s) && 0 <= b < NBUF && s.bufs[b].key.dev != 0
    ensures View(s, s.bufs[b].key) == if s.bufs[b].valid then s.bufs[b].data else Look(s.disk, s.bufs[b].key)
    ensures Cached(s.bufs, s.order, s.bufs[b].key) == b
  {
    assert b in s.order;
  }

  lemma ViewMissing(s: State, k: Key)
    requires Inv(s) && forall b :: 0 <= b < NBUF ==> s.bufs[b].key != k
    ensures View(s, k) == Look(s.disk, k)
  {}

  /** A step that leaves every key alone changes a block's view only through its own buffer. */
  lemma SameKeys(s: State, s': State, k: Key)
    requires Inv(s) && Inv(s') && k.dev != 0
    requires forall b :: 0 <= b < NBUF ==> s'.bufs[b].key == s.bufs[b].key
    requires Look(s'.disk, k) == Look(s.disk, k)
    requires forall b :: 0 <= b < NBUF && s.bufs[b].key == k ==>
               (s'.bufs[b].valid == s.bufs[b].valid && s'.bufs[b].data == s.bufs[b].data)
               || (!s.bufs[b].valid && s'.bufs[b].data == Look(s.disk, k))
    ensures View(s', k) == View(s, k)
  {
    hide View, Inv;
    InvSized(s);
    InvSized(s');
    if b :| 0 <= b < NBUF && s.bufs[b].key == k {
      ViewCached(s, b);
      ViewCached(s', b);
    } else {
      ViewMissing(s, k);
      ViewMissing(s', k);
    }
  }

  /** Recycling buffer b for block `to` matters only to the block that b held. */
  lemma RecycleView(s: State, s': State, b: int, to: Key, k: Key)
    requires Inv(s) && Inv(s') && 0 <= b < NBUF && s'.disk == s.disk && k.dev != 0
    requires forall x :: 0 <= x < NBUF ==> s.bufs[x].key != to
    requires s'.bufs[b].key == to && !s'.bufs[b].valid && s'.bufs == s.bufs[b := s'.bufs[b]]
    ensures k == s.bufs[b].key ==> View(s', k) == Look(s.disk, k)
    ensures k != s.bufs[b].key ==> View(s', k) == View(s, k)
  {
    hide View, Inv;
    InvSized(s);
    InvSized(s');
    if k == s.bufs[b].key { ViewCached(s, b); }
    if k == to {
      ViewCached(s', b);
      ViewMissing(s, k);
    } else if x :| 0 <= x < NBUF && x != b && s.bufs[x].key == k {
      ViewCached(s, x);
      ViewCached(s', x);
    } else {
      ViewMissing(s', k);
      if k != s.bufs[b].key { ViewMissing(s, k); }
    }
  }

  lemma GetCoherent(s: State, t: int, k: Key, s': State)
    requires Inv(s) && Inv(s') && Coherent(s) && Enabled(s, Get(t, k)) && s' == Apply(s, Get(t, k))
    ensures Coherent(s') <==> !Loses(s, Get(t, k))
  {
    hide View, Inv;
    assert Sized(s) && Sized(s') by { InvSized(s); InvSized(s'); }
    TargetRange(s, k);
    if Cached(s.bufs, s.order, k) != -1 {
      forall x: Key | x.dev != 0 ensures View(s', x) == View(s, x) { SameKeys(s, s', x); }
    } else {
      var b := Target(s, k);
      var old_ := s.bufs[b].key;
      MissKeys(s, k);
      forall x: Key | x.dev != 0 ensures x != old_ ==> View(s', x) == View(s, x) { RecycleView(s, s', b, k, x); }
      if old_.dev != 0 {
        RecycleView(s, s', b, k, old_);
        ViewCached(s, b);
        assert View(s, old_) == Look(s.latest, old_) && s'.latest == s.latest;
      }
    }
  }

  lemma InvSized(s: State)
    requires Inv(s)
    ensures Sized(s)
  {}

  lemma MissKeys(s: State, k: Key)
    requires Inv(s) && Cached(s.bufs, s.order, k) == -1
    ensures forall x :: 0 <= x < NBUF ==> s.bufs[x].key != k
  {
    forall x | 0 <= x < NBUF ensures s.bufs[x].key != k { assert x in s.order; }
  }

  lemma OtherCoherent(s: State, e: Event, s': State)
    requires Inv(s) && Inv(s') && Coherent(s) && Enabled(s, e) && s' == Apply(s, e) && !e.Get?
    ensures Coherent(s')
  {
    hide View, Inv, Front;
    assert Sized(s) && Sized(s') by { InvSized(s); InvSized(s'); }
    if e.Modify? || e.Flush? {
      var b := s.refs[e.t].buf;
      assert s.bufs[b].valid by { ReadyValid(s, e.t); }
      var own := s.bufs[b].key;
      forall x: Key | x.dev != 0 ensures View(s', x) == Look(s'.latest, x) {
        if x == own {
          ViewCached(s, b);
          ViewCached(s', b);
        } else {
          SameKeys(s, s', x);
        }
      }
    } else {
      forall x: Key | x.dev != 0 ensures View(s', x) == Look(s'.latest, x) { SameKeys(s, s', x); }
    }
  }

  lemma ReadyValid(s: State, t: int)
    requires Inv(s) && At(s, t, Ready)
    ensures s.bufs[s.refs[t].buf].valid
  {
    assert RefOk(s, t);
  }

  /** A step keeps the cache and the disk in agreement exactly when it recycles nothing dirty. */
  lemma StepCoherent(s: State, e: Event)
    requires Inv(s) && Coherent(s) && Enabled(s, e)
    ensures Inv(Apply(s, e)) && (Coherent(Apply(s, e)) <==> !Loses(s, e))
  {
    hide Inv, Coherent, Apply;
    InvSized(s);
    StepInv(s, e);
    if e.Get? { GetCoherent(s, e.t, e.key, Apply(s, e)); } else { OtherCoherent(s, e, Apply(s, e)); }
  }

  /** bread returns the data last given to the block. */
  lemma ReadsLatest(s: State, t: int)
    requires Inv(s) && Coherent(s) && At(s, t, Ready) && s.refs[t].key.dev != 0
    ensures s.bufs[s.refs[t].buf].data == Look(s.latest, s.refs[t].key)
  {
    assert RefOk(s, t);
    ViewCached(s, s.refs[t].buf);
  }

  // ---------------------------------------------------------------------------------
  // Runs
  // ---------------------------------------------------------------------------------

  /** After binit: no block cached, the last buffer in front. */
  ghost predicate Init(s: State) {
    && |s.bufs| == NBUF && |s.pins| == NBUF
    && s.order == seq(NBUF, i => NBUF - 1 - i)
    && (forall b :: 0 <= b < NBUF ==>
          && s.bufs[b].key == Key(0, 0) && !s.bufs[b].valid && !s.bufs[b].locked && s.bufs[b].refcnt == 0
          && s.pins[b] == 0)
    && s.refs == map[] && s.latest == s.disk
  }

  ghost predicate IsRun(run: seq<State>, ev: seq<Event>) {
    && |run| == |ev| + 1 && Init(run[0])
    && (forall i :: 0 <= i < |ev| ==> Sized(run[i]) && Enabled(run[i], ev[i]) && run[i + 1] == Apply(run[i], ev[i]))
  }

  lemma InitOk(s: State)
    requires Init(s)
    ensures Inv(s) && Coherent(s)
  {
    forall b | 0 <= b < NBUF ensures b in s.order && Counted(s, b) {
      assert s.order[NBUF - 1 - b] == b;
      assert Holders(s.refs, b) == {};
    }
  }

  lemma {:induction false} RunInv(run: seq<State>, ev: seq<Event>, i: nat)
    requires IsRun(run, ev) && i < |run|
    ensures Inv(run[i])
  {
    hide Inv, Apply, Enabled, Init, Sized;
    if i == 0 {
      InitOk(run[0]);
    } else {
      RunInv(run, ev, i - 1);
      StepInv(run[i - 1], ev[i - 1]);
    }
  }

  /** In every run the first loss is the first disagreement: the cache agrees as long as no step loses. */
  lemma {:induction false} RunCoherent(run: seq<State>, ev: seq<Event>, i: nat)
    requires IsRun(run, ev) && i < |run|
    ensures Inv(run[i])
    ensures (forall j :: 0 <= j <= i ==> Coherent(run[j])) <==> (forall j :: 0 <= j < i ==> !Loses(run[j], ev[j]))
  {
    hide Inv, Apply, Enabled, Init, Coherent, Loses;
    if i == 0 {
      InitOk(run[0]);
    } else {
      RunCoherent(run, ev, i - 1);
      assert run[i] == Apply(run[i - 1], ev[i - 1]);
      StepInv(run[i - 1], ev[i - 1]);
      if Coherent(run[i - 1]) { StepCoherent(run[i - 1], ev[i - 1]); }
    }
  }

  /**
    Every dirty buffer is referenced or pinned: what log_write sees to until the data is on
    disk. A writei whose copy from user space fails in the middle of a chunk releases a changed
    buffer without log_write, and so breaks this.
   */
  ghost predicate DirtyKept(s: State)
    requires |s.bufs| == NBUF
  {
    forall b :: 0 <= b < NBUF && Dirty(s, b) ==> s.bufs[b].refcnt > 0
  }

  /** If dirty buffers are kept until written, every bread of every run returns the latest data. */
  lemma PinnedRunsReadLatest(run: seq<State>, ev: seq<Event>, i: nat, t: int)
    requires IsRun(run, ev) && i < |run| && At(run[i], t, Ready) && run[i].refs[t].key.dev != 0
    requires forall j :: 0 <= j < i ==> DirtyKept(run[j])
    ensures Inv(run[i]) && run[i].bufs[run[i].refs[t].buf].data == Look(run[i].latest, run[i].refs[t].key)
  {
    hide Inv, Apply, Coherent, Init;
    forall j | 0 <= j < i ensures !Loses(run[j], ev[j]) {
      RunInv(run, ev, j);
      if ev[j].Get? && Cached(run[j].bufs, run[j].order, ev[j].key) == -1 { RecycledIdle(run[j], ev[j].key); }
    }
    RunCoherent(run, ev, i);
    ReadsLatest(run[i], t);
  }

  // ---------------------------------------------------------------------------------
  // Least recently used
  // ---------------------------------------------------------------------------------

  /** e is the brelse that drops the last reference to b. */
  ghost predicate Drops(s: State, e: Event, b: int)
    requires Sized(s)
  {
    e.Put? && e.t in s.refs && s.refs[e.t].buf == b && s.bufs[b].refcnt == 1
  }

  /** One more than the last step before state n that dropped the last reference to b; 0 where there is none. */
  ghost function Dropped(run: seq<State>, ev: seq<Event>, n: nat, b: int): (r: nat)
    requires n <= |ev| <= |run| && forall i :: 0 <= i < n ==> Sized(run[i])
    ensures r <= n
  {
    if n == 0 then 0 else if Drops(run[n - 1], ev[n - 1], b) then n else Dropped(run, ev, n - 1, b)
  }

  /** b was dropped after b', or neither was and b came later in binit's loop. */
  ghost predicate Newer(run: seq<State>, ev: seq<Event>, n: nat, b: int, b': int)
    requires n <= |ev| <= |run| && forall i :: 0 <= i < n ==> Sized(run[i])
  {
    var r, r' := Dropped(run, ev, n, b), Dropped(run, ev, n, b');
    r > r' || (r == r' == 0 && b > b')
  }

  lemma OrderKept(s: State, e: Event)
    requires Inv(s) && Enabled(s, e) && (e.Put? ==> s.bufs[s.refs[e.t].buf].refcnt != 1)
    ensures Apply(s, e).order == s.order && forall b :: 0 <= b < NBUF ==> !Drops(s, e, b)
  {
    hide Permutation, Unique, OneHolder;
  }

  lemma OrderFront(s: State, e: Event)
    requires Inv(s) && Enabled(s, e) && e.Put? && s.bufs[s.refs[e.t].buf].refcnt == 1
    ensures var b := s.refs[e.t].buf;
            && 0 <= b < NBUF && Apply(s, e).order == Front(s.order, b)
            && forall x :: 0 <= x < NBUF ==> (Drops(s, e, x) <==> x == b)
  {
    hide Permutation, Unique, OneHolder;
  }

  /** In every run the list is in the order of the last drop, the most recent first. */
  lemma {:induction false} ListByDrop(run: seq<State>, ev: seq<Event>, n: nat, i: nat, j: nat)
    requires IsRun(run, ev) && n <= |ev| && i < j < |run[n].order|
    ensures Inv(run[n]) && Newer(run, ev, n, run[n].order[i], run[n].order[j])
    decreases n
  {
    RunInv(run, ev, n);
    if n > 0 {
      hide Inv, Apply, Enabled, Init, Drops;
      var s, e := run[n - 1], ev[n - 1];
      RunInv(run, ev, n - 1);
      assert run[n] == Apply(s, e);
      if e.Put? && s.bufs[s.refs[e.t].buf].refcnt == 1 {
        var b := s.refs[e.t].buf;
        OrderFront(s, e);
        var k := PlaceOf(s, b);
        FrontAt(s, b, k, i);
        FrontAt(s, b, k, j);
        if i > 0 { ListByDrop(run, ev, n - 1, if i <= k then i - 1 else i, if j <= k then j - 1 else j); }
      } else {
        OrderKept(s, e);
        InOrder(s, i);
        InOrder(s, j);
        ListByDrop(run, ev, n - 1, i, j);
      }
    }
  }

  lemma PlaceOf(s: State, b: int) returns (k: nat)
    requires Inv(s) && 0 <= b < NBUF
    ensures k < |s.order| && s.order[k] == b
  {
    assert b in s.order;
    k :| 0 <= k < |s.order| && s.order[k] == b;
  }

  /** Where the buffer at place i of the new list was before. */
  lemma FrontAt(s: State, b: int, k: nat, i: nat)
    requires Inv(s) && k < |s.order| && s.order[k] == b && i < |Front(s.order, b)|
    ensures |Front(s.order, b)| == |s.order| && 0 <= Front(s.order, b)[i] < NBUF
    ensures Front(s.order, b)[i] == if i == 0 then b else if i <= k then s.order[i - 1] else s.order[i]
    ensures Front(s.order, b)[i] == b <==> i == 0
  {
    FrontIs(s.order, b, k, Front(s.order, b));
  }

  lemma InOrder(s: State, i: nat)
    requires Inv(s) && i < |s.order|
    ensures 0 <= s.order[i] < NBUF
  {}

  /**
    In every run, bget recycles the unused buffer whose last reference was dropped longest ago;
    one never used comes before all others.
   */
  lemma RecycledOldest(run: seq<State>, ev: seq<Event>, n: nat, k: Key, b: int)
    requires IsRun(run, ev) && n <= |ev| && Sized(run[n])
    requires Cached(run[n].bufs, run[n].order, k) == -1 && Target(run[n], k) != -1
    requires 0 <= b < NBUF && run[n].bufs[b].refcnt == 0 && b != Target(run[n], k)
    ensures 0 <= Target(run[n], k) < NBUF && Newer(run, ev, n, b, Target(run[n], k))
  {
    RunInv(run, ev, n);
    var s := run[n];
    hide IsRun, Newer, OneHolder, Unique;
    var i :| 0 <= i < |s.order| && s.order[i] == Target(s, k)
             && forall j :: i < j < |s.order| ==> s.bufs[s.order[j]].refcnt != 0;
    var j := PlaceOf(s, b);
    ListByDrop(run, ev, n, j, i);
  }

  // ---------------------------------------------------------------------------------
  // Sleep-locks are given back
  // ---------------------------------------------------------------------------------

  /** A locked buffer is locked by one of those who refer to it. */
  ghost predicate LockHeld(s: State, b: int)
    requires Sized(s) && 0 <= b < NBUF
  {
    s.bufs[b].locked ==> exists t :: t in s.refs && Holding(s.refs[t]) && s.refs[t].buf == b
  }

  lemma LockHeldStep(s: State, e: Event, b: int)
    requires Inv(s) && Enabled(s, e) && 0 <= b < NBUF && LockHeld(s, b) && Sized(Apply(s, e))
    ensures LockHeld(Apply(s, e), b)
  {
    hide Permutation, Unique, Front;
    var s' := Apply(s, e);
    if s'.bufs[b].locked {
      if s.bufs[b].locked {
        var t :| t in s.refs && Holding(s.refs[t]) && s.refs[t].buf == b;
        assert RefOk(s, t);
        hide Inv, RefOk;
        assert t in s'.refs && Holding(s'.refs[t]) && s'.refs[t].buf == b;
      } else {
        assert e.Lock? && s'.refs[e.t].buf == b && Holding(s'.refs[e.t]);
      }
    }
  }

  /** In every run a locked buffer has its one holder, so the lock is free once that one has released it. */
  lemma {:induction false} LockedHeld(run: seq<State>, ev: seq<Event>, n: nat, b: int)
    requires IsRun(run, ev) && n <= |ev| && 0 <= b < NBUF
    ensures Inv(run[n]) && LockHeld(run[n], b)
  {
    RunInv(run, ev, n);
    if n > 0 {
      hide Inv, Apply, Enabled, Init, LockHeld;
      RunInv(run, ev, n - 1);
      LockedHeld(run, ev, n - 1, b);
      InvSized(run[n]);
      LockHeldStep(run[n - 1], ev[n - 1], b);
    }
  }

  /** bwrite leaves its buffer clean, and every other block on the disk as it was. */
  lemma FlushCleans(s: State, t: int)
    requires Inv(s) && Enabled(s, Flush(t))
    ensures var b, s' := s.refs[t].buf, Apply(s, Flush(t));
            && Sized(s') && 0 <= b < NBUF && !Dirty(s', b) && s'.bufs == s.bufs
            && forall k :: k != s.bufs[b].key ==> Look(s'.disk, k) == Look(s.disk, k)
  {
    hide Permutation, Unique, OneHolder;
    assert RefOk(s, t);
  }
}
