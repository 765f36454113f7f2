/**
  Every step of the driver and the device keeps the invariant of VirtioMachine, hence every
  run does; and the descriptor routines of kernel/virtio_disk.c on their arrays.
 */
module Virtio {
  import opened Basics
  import opened VirtioMachine

  // ---------------------------------------------------------------------------------
  // Rings
  // ---------------------------------------------------------------------------------

  lemma {:induction false} ElementsCount(q: seq<int>)
    requires NoDup(q)
    ensures |set x | x in q| == |q|
  {
    var S := set x | x in q;
    if q == [] {
      assert S == {};
    } else {
      ElementsCount(q[1..]);
      var T := set x | x in q[1..];
      assert q == [q[0]] + q[1..];
      assert S == T + {q[0]};
    }
  }

  /** A queue of distinct descriptors without h has room for h. */
  lemma HasRoom(q: seq<int>, h: int)
    requires NoDup(q) && h !in q && 0 <= h < NUM && forall x :: x in q ==> 0 <= x < NUM
    ensures |q| < NUM
  {
    ElementsCount(q);
    var S := set x | x in q;
    var All := {0, 1, 2, 3, 4, 5, 6, 7};
    assert S + {h} <= All;
    SubsetSize(S + {h}, All);
  }

  lemma PlacesDiffer(n: nat, j: nat, k: nat)
    requires j < k < j + NUM
    ensures (n + j) % NUM != (n + k) % NUM
  {
    assert k - j == NUM * ((n + k) / NUM - (n + j) / NUM) + (n + k) % NUM - (n + j) % NUM;
  }

  /** Writing behind the queue overwrites no entry still in it. */
  lemma RingAppend(ring: seq<int>, n: nat, q: seq<int>, h: int)
    requires |ring| == NUM && RingHolds(ring, n, q) && |q| < NUM
    ensures RingHolds(ring[(n + |q|) % NUM := h], n, q)
    ensures RingHolds(ring[(n + |q|) % NUM := h], n, q + [h])
  {
    var ring' := ring[(n + |q|) % NUM := h];
    forall j | 0 <= j < |q| ensures ring'[(n + j) % NUM] == q[j] {
      PlacesDiffer(n, j, |q|);
    }
  }

  lemma RingPop(ring: seq<int>, n: nat, q: seq<int>)
    requires |ring| == NUM && RingHolds(ring, n, q) && q != []
    ensures RingHolds(ring, n + 1, q[1..]) && ring[n % NUM] == q[0]
  {
    assert ring[(n + 0) % NUM] == q[0];
    forall j | 0 <= j < |q[1..]| ensures ring[(n + 1 + j) % NUM] == q[1..][j] {
      assert ring[(n + (j + 1)) % NUM] == q[j + 1];
    }
  }

  lemma PopNoDup(q: seq<int>)
    requires NoDup(q) && q != []
    ensures NoDup(q[1..]) && q[0] !in q[1..]
    ensures forall x :: x in q <==> x == q[0] || x in q[1..]
  {
    assert q == [q[0]] + q[1..];
  }

  // ---------------------------------------------------------------------------------
  // Driver steps
  // ---------------------------------------------------------------------------------

  /** A free descriptor belongs to no chain. */
  lemma FreeUnowned(s: State, i: int, h: int)
    requires Inv(s) && 0 <= i < NUM && s.free[i] && h in s.reqs
    ensures ChainOk(s, h) && i != h && i != s.reqs[h].i1 && i != s.reqs[h].i2
  {
    assert ChainOk(s, h) && OwnerOk(s, i);
  }

  lemma PrepareRings(s: State, b: int, op: Op, s': State)
    requires Inv(s) && s.pending == -1 && Alloc3(s.free).Three? && s' == PrepareState(s, b, op)
    ensures Sized(s') && Rings(s') && Known(s')
  {
    var x := Alloc3(s.free);
    forall h | h in s.avq ensures h != x.a && 0 <= h < NUM {
      FreeUnowned(s, x.a, h);
    }
    hide ChainOk, StageOk, OwnerOk;
    HasRoom(s.avq, x.a);
    SeenAhead(s.nTaken + |s.avq|, 0);
    RingAppend(s.availRing, s.nTaken, s.avq, x.a);
  }

  lemma PrepareChain(s: State, b: int, op: Op, s': State, h: int)
    requires Inv(s) && Alloc3(s.free).Three? && s' == PrepareState(s, b, op) && Sized(s') && h in s'.reqs
    ensures ChainOk(s', h) && (h in s.reqs ==> h != Alloc3(s.free).a)
  {
    hide OwnerOk, Rings, StageOk, Alloc3, BufsDistinct, Known;
    var x := Alloc3(s.free);
    if h in s.reqs {
      FreeUnowned(s, x.a, h);
      FreeUnowned(s, x.b, h);
      FreeUnowned(s, x.c, h);
    }
  }

  lemma PrepareStage(s: State, b: int, op: Op, s': State, h: int)
    requires Inv(s) && s.pending == -1 && Alloc3(s.free).Three? && s' == PrepareState(s, b, op) && !InFlight(s, b)
    requires Sized(s') && h in s'.reqs && (h in s.reqs ==> h != Alloc3(s.free).a)
    ensures StageOk(s', h) && (h in s.reqs ==> s'.reqs[h].b != b)
  {
    hide OwnerOk, Rings, Alloc3, BufsDistinct;
    var x := Alloc3(s.free);
    if h in s.reqs { assert ChainOk(s, h) && StageOk(s, h); }
    assert x.a !in s.reqs by { if x.a in s.reqs { FreeUnowned(s, x.a, x.a); } }
    hide ChainOk;
  }

  lemma PrepareInv(s: State, b: int, op: Op, s': State)
    requires Inv(s) && s.pending == -1 && Alloc3(s.free).Three? && !InFlight(s, b) && s' == PrepareState(s, b, op)
    ensures Inv(s')
  {
    hide ChainOk, StageOk, OwnerOk, Rings, Alloc3, Known, InFlight;
    PrepareRings(s, b, op, s');
    forall h | h in s'.reqs
      ensures ChainOk(s', h) && StageOk(s', h) && (h in s.reqs ==> h != Alloc3(s.free).a && s'.reqs[h].b != b)
    {
      PrepareChain(s, b, op, s', h);
      PrepareStage(s, b, op, s', h);
    }
    forall i | 0 <= i < NUM ensures OwnerOk(s', i) { PrepareOwner(s, b, op, s', i); }
  }

  lemma PrepareOwner(s: State, b: int, op: Op, s': State, i: int)
    requires Inv(s) && Alloc3(s.free).Three? && s' == PrepareState(s, b, op) && Sized(s') && 0 <= i < NUM
    ensures OwnerOk(s', i)
  {
    hide Rings, StageOk, Alloc3, BufsDistinct, Known;
    var x := Alloc3(s.free);
    assert OwnerOk(s, i);
    if s.owner[i] != -1 { FreeUnowned(s, x.a, s.owner[i]); }
    hide ChainOk;
  }

  lemma InvParts(s: State)
    requires Inv(s)
    ensures Sized(s) && Rings(s) && Known(s) && BufsDistinct(s.reqs)
    ensures forall h :: h in s.reqs ==> ChainOk(s, h) && StageOk(s, h)
  {
    hide Rings, Known, BufsDistinct, ChainOk, StageOk, OwnerOk;
  }

  /** The parts of the invariant, for a step that leaves chains and owners alone. */
  lemma Assemble(s: State, s': State)
    requires Inv(s) && SameChains(s, s') && Rings(s') && Known(s')
    requires forall h :: h in s'.reqs ==> StageOk(s', h)
    ensures Inv(s')
  {
    hide Rings, Known, ChainOk, StageOk, OwnerOk, BufsDistinct;
    KeepChains(s, s');
  }

  lemma PublishRings(s: State, s': State)
    requires Sized(s) && Rings(s) && 0 <= s.pending && s.pending in s.reqs && s' == PublishState(s, s.pending)
    requires s.pending !in s.avq
    ensures Sized(s') && Rings(s')
  {
    var p := s.pending;
    SeenAhead(s.nTaken + |s.avq|, 0);
    RingAppend(s.availRing, s.nTaken, s.avq, p);
    assert s.availRing[(s.nTaken + |s.avq|) % NUM := p] == s.availRing;
  }

  lemma PublishStage(s: State, s': State, h: int)
    requires s.pending in s.reqs && 0 <= s.pending && s' == PublishState(s, s.pending) && h in s.reqs && StageOk(s, h)
    requires StageOk(s, s.pending) && h != -1
    ensures StageOk(s', h)
  {}

  lemma PublishInv(s: State, s': State)
    requires Inv(s) && 0 <= s.pending && s.pending in s.reqs && s' == PublishState(s, s.pending)
    ensures Inv(s')
  {
    hide Inv, OwnerOk, Rings, BufsDistinct;
    InvParts(s);
    assert StageOk(s, s.pending);
    PublishRings(s, s');
    forall h | h in s'.reqs ensures StageOk(s', h) {
      assert ChainOk(s, h);
      PublishStage(s, s', h);
    }
    hide StageOk, ChainOk;
    Assemble(s, s');
  }

  lemma IntrRings(s: State, s': State)
    requires Sized(s) && Rings(s) && s.usq != [] && 0 <= s.usq[0] < NUM && s.usq[0] in s.reqs
    requires s' == IntrState(s, s.usq[0])
    ensures Sized(s') && Rings(s')
  {
    PopNoDup(s.usq);
    SeenAhead(s.nSeen, |s.usq|);
    RingPop(s.usedRing, s.nSeen, s.usq);
  }

  lemma IntrStage(s: State, s': State, h: int)
    requires s.usq != [] && 0 <= s.usq[0] < |s.info| && s.usq[0] in s.reqs && s' == IntrState(s, s.usq[0])
    requires s.info[s.usq[0]].b == s.reqs[s.usq[0]].b && NoDup(s.usq) && BufsDistinct(s.reqs)
    requires h in s.reqs && StageOk(s, h) && StageOk(s, s.usq[0])
    ensures StageOk(s', h)
  {
    PopNoDup(s.usq);
    hide NoDup;
  }

  lemma IntrInv(s: State, s': State)
    requires Inv(s) && Enabled(s, Intr) && s' == Apply(s, Intr)
    ensures Inv(s')
  {
    hide Inv, OwnerOk, RingHolds;
    InvParts(s);
    IntrWakesOwn(s);
    var x := s.usq[0];
    assert ChainOk(s, x) && StageOk(s, x);
    assert s' == IntrState(s, x);
    assert NoDup(s.usq);
    hide Rings, Enabled;
    IntrRings(s, s');
    forall h | h in s'.reqs ensures StageOk(s', h) { IntrStage(s, s', h); }
    PopNoDup(s.usq);
    hide NoDup, StageOk, ChainOk;
    Assemble(s, s');
  }

  lemma FinishChain(s: State, x: int, s': State, h: int)
    requires Inv(s) && Enabled(s, Finish(x)) && s' == FinishState(s, x) && Sized(s') && h in s'.reqs
    ensures ChainOk(s', h)
  {
    hide FreeChain, Rings, StageOk, OwnerOk, BufsDistinct;
    FinishDone(s, x);
    ChainsDisjoint(s, h, x);
    assert ChainOk(s, h);
  }

  lemma FinishStage(s: State, x: int, s': State, h: int)
    requires Sized(s) && 0 <= x < NUM && x in s.reqs && FreeChain(s.free, s.desc, x).Freed?
    requires s' == FinishState(s, x) && h in s'.reqs && StageOk(s, h)
    ensures StageOk(s', h)
  {
    hide FreeChain;
  }

  lemma FinishOwner(s: State, x: int, s': State, i: int)
    requires Inv(s) && Enabled(s, Finish(x)) && s' == FinishState(s, x) && Sized(s') && 0 <= i < NUM
    ensures OwnerOk(s', i)
  {
    hide FreeChain, Rings, StageOk, BufsDistinct;
    FinishDone(s, x);
    assert OwnerOk(s, i) && ChainOk(s, x);
  }

  /** The finished request is in no queue. */
  lemma FinishKnown(s: State, x: int, s': State)
    requires Known(s) && Sized(s) && 0 <= x < NUM && x in s.reqs && FreeChain(s.free, s.desc, x).Freed?
    requires s' == FinishState(s, x) && StageOk(s, x) && s.reqs[x].stage.Acked? && s.pending == -1
    ensures Known(s')
  {
    hide FreeChain;
  }

  lemma FinishInv(s: State, x: int, s': State)
    requires Inv(s) && Enabled(s, Finish(x)) && s' == FinishState(s, x)
    ensures Inv(s')
  {
    hide FreeChain, Rings, ChainOk, StageOk, OwnerOk;
    FinishDone(s, x);
    assert Sized(s');
    assert StageOk(s, x);
    FinishKnown(s, x, s');
    KeepRings(s, s');
    forall h | h in s'.reqs ensures ChainOk(s', h) && StageOk(s', h) {
      FinishChain(s, x, s', h);
      FinishStage(s, x, s', h);
    }
    forall i | 0 <= i < NUM ensures OwnerOk(s', i) { FinishOwner(s, x, s', i); }
  }

  /** Rings depends only on the rings. */
  lemma KeepRings(s: State, s': State)
    requires Sized(s) && Sized(s') && Rings(s)
    requires s'.avq == s.avq && s'.usq == s.usq && s'.availRing == s.availRing && s'.usedRing == s.usedRing
    requires s'.nTaken == s.nTaken && s'.nSeen == s.nSeen && s'.pending == s.pending
    requires s'.devIdx == s.devIdx && s'.availIdx == s.availIdx && s'.seenIdx == s.seenIdx && s'.usedIdx == s.usedIdx
    ensures Rings(s')
  {}

  /** A step that moves one request on touches neither chains nor owners. */
  ghost predicate SameChains(s: State, s': State)
    requires Sized(s)
  {
    && Sized(s') && s'.free == s.free && s'.owner == s.owner && s'.desc == s.desc && s'.ops == s.ops
    && s'.reqs.Keys == s.reqs.Keys
    && (forall h :: h in s.reqs ==>
          && s'.reqs[h].b == s.reqs[h].b && s'.reqs[h].op == s.reqs[h].op
          && s'.reqs[h].i1 == s.reqs[h].i1 && s'.reqs[h].i2 == s.reqs[h].i2)
    && (forall h :: h in s.reqs && 0 <= h < NUM ==>
          && s'.info[h].b == s.info[h].b
          && (s'.reqs[h].stage.Used? || s'.reqs[h].stage.Acked? ==>
                (s'.info[h].status == 0
                 || (s'.info[h] == s.info[h] && (s.reqs[h].stage.Used? || s.reqs[h].stage.Acked?)))))
  }

  lemma KeepChains(s: State, s': State)
    requires Inv(s) && SameChains(s, s')
    ensures forall h :: h in s'.reqs ==> ChainOk(s', h)
    ensures forall i :: 0 <= i < NUM ==> OwnerOk(s', i)
    ensures BufsDistinct(s'.reqs)
  {
    hide Rings, StageOk;
    forall h | h in s'.reqs ensures ChainOk(s', h) { assert ChainOk(s, h); }
    forall i | 0 <= i < NUM ensures OwnerOk(s', i) {
      hide ChainOk;
      assert OwnerOk(s, i);
    }
  }

  // ---------------------------------------------------------------------------------
  // Device steps
  // ---------------------------------------------------------------------------------

  lemma TakesFirst(s: State)
    requires Inv(s) && s.devIdx != s.availIdx
    ensures s.avq != [] && s.avq[0] in s.reqs && s.availRing[s.devIdx % NUM] == s.avq[0]
  {
    SeenAhead(s.nTaken, |s.avq|);
    RingPop(s.availRing, s.nTaken, s.avq);
    assert s.avq[0] in s.avq;
  }

  lemma TakeRings(s: State, s': State)
    requires Sized(s) && Rings(s) && s.avq != [] && s' == TakeState(s, s.avq[0])
    ensures Sized(s') && Rings(s')
  {
    PopNoDup(s.avq);
    SeenAhead(s.nTaken, |s.avq|);
    RingPop(s.availRing, s.nTaken, s.avq);
  }

  lemma TakeStage(s: State, s': State, h: int)
    requires s.avq != [] && s.avq[0] in s.reqs && s' == TakeState(s, s.avq[0]) && NoDup(s.avq)
    requires h in s.reqs && StageOk(s, h) && StageOk(s, s.avq[0])
    ensures StageOk(s', h)
  {
    PopNoDup(s.avq);
    hide NoDup;
    assert s.avq[0] in s.avq;
  }

  lemma TakeInv(s: State, s': State)
    requires Inv(s) && Enabled(s, DevTake) && s' == Apply(s, DevTake)
    ensures Inv(s')
  {
    hide Inv, OwnerOk, ChainOk, RingHolds, BufsDistinct;
    InvParts(s);
    TakesFirst(s);
    var x := s.avq[0];
    assert s' == TakeState(s, x) && StageOk(s, x) && NoDup(s.avq);
    hide Rings, Enabled;
    TakeRings(s, s');
    forall h | h in s'.reqs ensures StageOk(s', h) { TakeStage(s, s', h); }
    PopNoDup(s.avq);
    assert x in s.avq;
    hide NoDup;
    assert !s.reqs[x].stage.Used? && !s.reqs[x].stage.Acked?;
    hide StageOk;
    Assemble(s, s');
  }

  lemma CompleteRings(s: State, x: int, s': State)
    requires Sized(s) && Rings(s) && Known(s) && Readable(s, x) && x in s.reqs && s' == CompleteState(s, x)
    requires x !in s.usq && forall h :: h in s.usq ==> 0 <= h < NUM
    ensures Sized(s') && Rings(s') && Known(s')
  {
    HasRoom(s.usq, x);
    SeenAhead(s.nSeen + |s.usq|, 0);
    RingAppend(s.usedRing, s.nSeen, s.usq, x);
  }

  lemma CompleteStage(s: State, x: int, s': State, h: int)
    requires Sized(s) && Readable(s, x) && x in s.reqs && s' == CompleteState(s, x) && BufsDistinct(s.reqs)
    requires h in s.reqs && StageOk(s, h) && StageOk(s, x) && x in s.devHas && ChainOk(s, x)
    ensures StageOk(s', h)
  {}

  lemma CompleteSame(s: State, x: int, s': State)
    requires Sized(s) && Readable(s, x) && x in s.reqs && s' == CompleteState(s, x) && ChainOk(s, x)
    ensures Sized(s') ==> SameChains(s, s')
  {}

  lemma CompleteInv(s: State, x: int, s': State)
    requires Inv(s) && Enabled(s, DevComplete(x)) && s' == CompleteState(s, x)
    ensures Inv(s')
  {
    hide Inv, OwnerOk, Rings, Known, BufsDistinct, CompleteState, Readable;
    InvParts(s);
    assert StageOk(s, x) && ChainOk(s, x);
    forall h | h in s.usq ensures 0 <= h < NUM && h in s.reqs {
      assert h in s.reqs by { UsedKnown(s, h); }
      assert ChainOk(s, h);
    }
    assert x !in s.usq;
    CompleteRings(s, x, s');
    CompleteSame(s, x, s');
    hide ChainOk;
    assert s'.reqs.Keys == s.reqs.Keys;
    forall h | h in s'.reqs ensures StageOk(s', h) { CompleteStage(s, x, s', h); }
    hide StageOk, SameChains;
    Assemble(s, s');
  }

  lemma UsedKnown(s: State, h: int)
    requires Known(s) && h in s.usq
    ensures h in s.reqs
  {}

  lemma TouchInv(s: State, b: int, d: Data, s': State)
    requires Inv(s) && Enabled(s, Touch(b, d)) && s' == Apply(s, Touch(b, d))
    ensures Inv(s')
  {
    KeepRings(s, s');
    hide Rings;
    forall h | h in s'.reqs ensures ChainOk(s', h) && StageOk(s', h) {
      assert ChainOk(s, h) && StageOk(s, h);
    }
    forall i | 0 <= i < NUM ensures OwnerOk(s', i) {
      hide ChainOk, StageOk;
      assert OwnerOk(s, i);
    }
    hide ChainOk, StageOk, OwnerOk;
  }

  lemma StepInv(s: State, e: Event)
    requires Inv(s) && Enabled(s, e)
    ensures Inv(Apply(s, e))
  {
    assert Sized(s);
    hide Inv;
    var s' := Apply(s, e);
    match e
    case Prepare(b, op) => PrepareInv(s, b, op, s');
    case Publish => PublishInv(s, s');
    case DevTake => TakeInv(s, s');
    case DevComplete(h) => CompleteInv(s, h, s');
    case Intr => IntrInv(s, s');
    case Finish(h) => FinishInv(s, h, s');
    case Touch(b, d) => TouchInv(s, b, d, s');
  }

  // ---------------------------------------------------------------------------------
  // Runs
  // ---------------------------------------------------------------------------------

  /** After virtio_disk_init: all descriptors free, all indices zero. */
  ghost predicate Init(s: State) {
    && Sized(s) && s.free == seq(NUM, _ => true) && s.owner == seq(NUM, _ => -1)
    && s.availIdx == 0 && s.usedIdx == 0 && s.seenIdx == 0 && s.devIdx == 0 && s.nTaken == 0 && s.nSeen == 0
    && s.devHas == {} && s.busy == {} && s.pending == -1 && s.reqs == map[] && s.avq == [] && s.usq == []
  }

  ghost predicate IsRun(run: seq<State>, ev: seq<Event>) {
    && |run| == |ev| + 1 && Init(run[0])
    && (forall i :: 0 <= i < |ev| ==> Sized(run[i]) && Enabled(run[i], ev[i]) && run[i + 1] == Apply(run[i], ev[i]))
  }

  lemma {:induction false} RunInv(run: seq<State>, ev: seq<Event>, i: nat)
    requires IsRun(run, ev) && i < |run|
    ensures Inv(run[i])
  {
    if i > 0 {
      hide Inv, Apply, Enabled;
      RunInv(run, ev, i - 1);
      StepInv(run[i - 1], ev[i - 1]);
    }
  }

  /** The same request, no earlier in its life. */
  ghost predicate Later(r: Req, r': Req) {
    && r'.b == r.b && r'.op == r.op && r'.i1 == r.i1 && r'.i2 == r.i2
    && (r.stage.Used? || r.stage.Acked? ==> (r'.stage.Used? || r'.stage.Acked?) && r'.moved == r.moved)
  }

  /** Nothing but h's own finish ends a request, its parameters never change, and what is done stays done. */
  lemma RequestKept(s: State, e: Event, h: int)
    requires Inv(s) && Enabled(s, e) && h in s.reqs && e != Finish(h)
    ensures h in Apply(s, e).reqs && Later(s.reqs[h], Apply(s, e).reqs[h])
  {
    hide Inv, FreeChain, Alloc3, Readable, StageOk, PrepareState, CompleteState, FinishState;
    InvParts(s);
    if e.Prepare? {
      FreeUnowned(s, Alloc3(s.free).a, h);
      PrepareReqs(s, e.b, e.op);
    } else if e.Finish? {
      FinishReqs(s, e.h);
    } else if e.Publish? {
      PendingEarly(s, s.pending);
    } else if e.DevTake? {
      TakesFirst(s);
      QueuedEarly(s, s.avq[0]);
    } else if e.DevComplete? {
      TakenEarly(s, e.h);
      CompleteReqs(s, e.h);
    }
    hide Rings, Known, ChainOk, BufsDistinct;
  }

  lemma PrepareReqs(s: State, b: int, op: Op)
    requires Sized(s) && Alloc3(s.free).Three?
    ensures var x, s' := Alloc3(s.free), PrepareState(s, b, op);
            && x.a in s'.reqs && s'.reqs == s.reqs[x.a := s'.reqs[x.a]]
            && s'.pending == x.a && s'.reqs[x.a].b == b && s'.reqs[x.a].op == op
  {
    hide Alloc3;
  }

  lemma CompleteReqs(s: State, h: int)
    requires Sized(s) && Readable(s, h) && h in s.reqs
    ensures var r := CompleteState(s, h).reqs;
            h in r && r == s.reqs[h := s.reqs[h].(stage := Used, moved := r[h].moved)]
  {}

  lemma FinishReqs(s: State, h: int)
    requires Sized(s) && 0 <= h < NUM && FreeChain(s.free, s.desc, h).Freed? && h in s.reqs
    ensures FinishState(s, h).reqs == s.reqs - {h}
  {
    hide FreeChain;
  }

  lemma PendingEarly(s: State, h: int)
    requires Inv(s) && h in s.reqs && s.pending == h
    ensures !s.reqs[h].stage.Used? && !s.reqs[h].stage.Acked?
  {
    hide Rings, ChainOk, OwnerOk;
    assert StageOk(s, h);
  }

  lemma QueuedEarly(s: State, h: int)
    requires Inv(s) && h in s.reqs && h in s.avq
    ensures !s.reqs[h].stage.Used? && !s.reqs[h].stage.Acked?
  {
    hide Rings, ChainOk, OwnerOk;
    assert StageOk(s, h);
  }

  lemma TakenEarly(s: State, h: int)
    requires Inv(s) && h in s.reqs && h in s.devHas
    ensures !s.reqs[h].stage.Used? && !s.reqs[h].stage.Acked?
  {
    hide Rings, ChainOk, OwnerOk;
    assert StageOk(s, h);
  }

  /** h was completed at step i and has not been finished since, up to step j. */
  ghost predicate CompletedAt(ev: seq<Event>, i: int, j: int, h: int) {
    0 <= i < j <= |ev| && ev[i] == DevComplete(h) && forall m :: i < m < j ==> ev[m] != Finish(h)
  }

  predicate IsDone(s: State, h: int) { h in s.reqs && (s.reqs[h].stage.Used? || s.reqs[h].stage.Acked?) }

  /** Only the device's completion makes a request done. */
  lemma DoneBefore(s: State, e: Event, h: int)
    requires Inv(s) && Enabled(s, e) && IsDone(Apply(s, e), h) && e != DevComplete(h)
    ensures e != Finish(h) && IsDone(s, h)
  {
    hide Inv, FreeChain, Alloc3, Readable, PrepareState, CompleteState, FinishState, ChainOk;
    InvParts(s);
    if e.Prepare? {
      PrepareReqs(s, e.b, e.op);
      PrepareNew(s, e.b, e.op);
    } else if e.Finish? {
      FinishReqs(s, e.h);
    } else if e.DevComplete? {
      CompleteReqs(s, e.h);
    } else if e.Intr? {
      IntrWakesOwn(s);
      assert s.usq[0] in s.usq && StageOk(s, s.usq[0]);
    }
    hide Rings, Known, StageOk, BufsDistinct;
  }

  lemma PrepareNew(s: State, b: int, op: Op)
    requires Sized(s) && Alloc3(s.free).Three?
    ensures var x, r := Alloc3(s.free), PrepareState(s, b, op).reqs; x.a in r && r[x.a].stage.Prepared?
  {
    hide Alloc3;
  }

  lemma {:induction false} DoneWasCompleted(run: seq<State>, ev: seq<Event>, j: nat, h: int)
    requires IsRun(run, ev) && j < |run| && IsDone(run[j], h)
    ensures exists i :: CompletedAt(ev, i, j, h)
  {
    hide Inv, Apply, Enabled;
    if j > 0 {
      if ev[j - 1] == DevComplete(h) {
        assert CompletedAt(ev, j - 1, j, h);
      } else {
        RunInv(run, ev, j - 1);
        DoneBefore(run[j - 1], ev[j - 1], h);
        DoneWasCompleted(run, ev, j - 1, h);
        var i :| CompletedAt(ev, i, j - 1, h);
        assert CompletedAt(ev, i, j, h);
      }
    }
  }

  /** virtio_disk_rw(b, op) submitted the chain h at step m and has not returned up to step j. */
  ghost predicate SubmittedAt(run: seq<State>, ev: seq<Event>, m: int, j: int, h: int, b: int, op: Op) {
    && 0 <= m < j <= |ev| && |run| == |ev| + 1 && ev[m] == Prepare(b, op) && run[m + 1].pending == h
    && forall k :: m < k < j ==> ev[k] != Finish(h)
  }

  /** A request in the table is the one being submitted, or was there before. */
  lemma AskedBefore(s: State, e: Event, h: int)
    requires Inv(s) && Enabled(s, e) && h in Apply(s, e).reqs
    ensures var s' := Apply(s, e);
            || (e.Prepare? && s'.pending == h && s'.reqs[h].b == e.b && s'.reqs[h].op == e.op)
            || (h in s.reqs && e != Finish(h) && s'.reqs[h].b == s.reqs[h].b && s'.reqs[h].op == s.reqs[h].op)
  {
    hide Inv, FreeChain, Alloc3, Readable, PrepareState, CompleteState, FinishState, InFlight;
    InvParts(s);
    if e.Finish? { FinishReqs(s, e.h); }
    if h in s.reqs && e != Finish(h) {
      RequestKept(s, e, h);
    } else if e.Prepare? {
      PrepareReqs(s, e.b, e.op);
    } else if e.DevComplete? {
      CompleteReqs(s, e.h);
    } else if e.DevTake? {
      TakesFirst(s);
    } else if e.Intr? {
      IntrWakesOwn(s);
    }
    hide Rings, Known, ChainOk, StageOk, BufsDistinct, OwnerOk;
  }

  /** What a request asks for is what virtio_disk_rw was called with. */
  lemma {:induction false} Asked(run: seq<State>, ev: seq<Event>, j: nat, h: int) returns (m: nat, b: int, op: Op)
    requires IsRun(run, ev) && j < |run| && h in run[j].reqs
    ensures m < j && SubmittedAt(run, ev, m, j, h, b, op)
    ensures run[j].reqs[h].b == b && run[j].reqs[h].op == op
  {
    hide Inv, Apply, Enabled;
    assert j > 0;
    RunInv(run, ev, j - 1);
    var s, e := run[j - 1], ev[j - 1];
    AskedBefore(s, e, h);
    if h in s.reqs && e != Finish(h) && run[j].reqs[h].b == s.reqs[h].b && run[j].reqs[h].op == s.reqs[h].op {
      m, b, op := Asked(run, ev, j - 1, h);
    } else {
      m, b, op := j - 1, e.b, e.op;
    }
  }

  /**
    In every run, a virtio_disk_rw that returns at step j was called at some step m with a
    buffer b and an operation op, and the device completed the request at a step i between.
    After a read, b holds what op's sector held at step i; a write put b's data on that sector
    at step i.
   */
  lemma ReadGetsSector(run: seq<State>, ev: seq<Event>, j: nat, h: int) returns (m: nat, i: nat, b: int, op: Op)
    requires IsRun(run, ev) && j < |ev| && ev[j] == Finish(h)
    ensures m < i < j && SubmittedAt(run, ev, m, j, h, b, op) && CompletedAt(ev, i, j, h)
    ensures !op.write ==> Look(run[j].memory, b) == Look(run[i].platter, op.sector)
    ensures op.write ==> Look(run[i + 1].platter, op.sector) == Look(run[i].memory, b)
  {
    hide Inv, Apply, Init, FreeChain, Look;
    RunInv(run, ev, j);
    FinishDone(run[j], h);
    DoneWasCompleted(run, ev, j, h);
    var c :| CompletedAt(ev, c, j, h);
    i := c;
    RunInv(run, ev, i);
    CompleteMoved(run[i], h);
    MovedKept(run, ev, i, j, h);
    hide Enabled, ChainOk;
    m, b, op := Asked(run, ev, i, h);
  }

  lemma CompleteMoved(s: State, h: int)
    requires Inv(s) && Enabled(s, DevComplete(h))
    ensures var s' := Apply(s, DevComplete(h));
            && h in s'.reqs && s'.reqs[h].b == s.reqs[h].b && s'.reqs[h].op == s.reqs[h].op && s'.reqs[h].stage.Used?
            && (!s.reqs[h].op.write ==> s'.reqs[h].moved == Look(s.platter, s.reqs[h].op.sector))
            && (s.reqs[h].op.write ==> Look(s'.platter, s.reqs[h].op.sector) == Look(s.memory, s.reqs[h].b))
  {
    assert ChainOk(s, h);
  }

  lemma {:induction false} MovedKept(run: seq<State>, ev: seq<Event>, i: nat, j: nat, h: int)
    requires IsRun(run, ev) && i < j < |run| && ev[i] == DevComplete(h)
    requires forall m :: i < m < j ==> ev[m] != Finish(h)
    ensures h in run[i + 1].reqs && h in run[j].reqs
    ensures run[j].reqs[h].b == run[i + 1].reqs[h].b && run[j].reqs[h].op == run[i + 1].reqs[h].op
    ensures run[j].reqs[h].moved == run[i + 1].reqs[h].moved
    ensures run[j].reqs[h].stage.Used? || run[j].reqs[h].stage.Acked?
    decreases j
  {
    hide Inv, Apply, Enabled, Init;
    if j == i + 1 {
      RunInv(run, ev, i);
      CompleteMoved(run[i], h);
    } else {
      MovedKept(run, ev, i, j - 1, h);
      RunInv(run, ev, j - 1);
      RequestKept(run[j - 1], ev[j - 1], h);
    }
  }

  /** While a request is in flight, driver or device can take a step that brings one forward. */
  lemma NeverStuck(s: State, h: int) returns (e: Event)
    requires Inv(s) && h in s.reqs
    ensures Sized(s) && Enabled(s, e) && !e.Prepare? && !e.Touch?
  {
    hide BufsDistinct, FreeChain, Alloc3, Readable, OwnerOk, NoDup;
    assert StageOk(s, h);
    var st := s.reqs[h].stage;
    SeenAhead(s.nTaken, |s.avq|);
    SeenAhead(s.nSeen, |s.usq|);
    if s.pending != -1 {
      assert StageOk(s, s.pending) && ChainOk(s, s.pending);
      e := Publish;
    } else if st.Queued? {
      e := DevTake;
    } else if st.Taken? {
      DeviceObeys(s, h);
      e := DevComplete(h);
    } else if st.Used? {
      IntrWakesOwn(s);
      e := Intr;
    } else {
      FinishDone(s, h);
      e := Finish(h);
    }
  }

  // ---------------------------------------------------------------------------------
  // The interrupt handler
  // ---------------------------------------------------------------------------------

  /** s is s0 with the first n reported requests acknowledged. */
  ghost predicate AckedUpTo(s0: State, s: State, n: nat) {
    && n <= |s0.usq| && s.usq == s0.usq[n..] && s.reqs.Keys == s0.reqs.Keys && s.usedIdx == s0.usedIdx
    && (forall h :: h in s0.reqs ==> s.reqs[h] == if h in s0.usq[..n] then s0.reqs[h].(stage := Acked) else s0.reqs[h])
    && s.free == s0.free && s.desc == s0.desc && s.memory == s0.memory && s.platter == s0.platter
  }

  lemma AckStep(s0: State, s: State, n: nat, s': State)
    requires Inv(s0) && Inv(s) && AckedUpTo(s0, s, n) && s.usq != [] && Enabled(s, Intr) && s' == Apply(s, Intr)
    requires s.usedRing[s.seenIdx % NUM] == s.usq[0]
    ensures AckedUpTo(s0, s', n + 1)
  {
    hide Inv, Alloc3, FreeChain;
    var x := s0.usq[n];
    assert s.usq[0] == x;
    assert s0.usq[..n + 1] == s0.usq[..n] + [x];
    assert forall h :: h in s0.usq[..n + 1] <==> h in s0.usq[..n] || h == x;
    assert s'.usq == s0.usq[n + 1..];
  }

  lemma IntrSized(s: State)
    requires Inv(s)
    ensures Sized(s)
  {}

  /** virtio_disk_intr(): ends, and acknowledges every request reported so far and no other. */
  method Interrupt(s0: State) returns (s: State)
    requires Inv(s0) && s0.pending == -1
    ensures Inv(s) && AckedUpTo(s0, s, |s0.usq|) && s.seenIdx == s.usedIdx
    ensures forall h :: h in s0.usq && h in s0.reqs ==> s0.reqs[h].b !in s.busy
  {
    hide Inv, Apply, Enabled;
    s := s0;
    IntrSized(s);
    ghost var n: nat := 0;
    assert s0.usq[0..] == s0.usq && s0.usq[..0] == [];
    while s.seenIdx != s.usedIdx
      invariant Inv(s) && s.pending == -1 && Sized(s) && AckedUpTo(s0, s, n)
      decreases |s0.usq| - n
    {
      IntrWakesOwn(s);
      IntrFrame(s);
      ghost var before := s;
      s := Apply(s, Intr);
      StepInv(before, Intr);
      AckStep(s0, before, n, s);
      IntrSized(s);
      n := n + 1;
    }
    AllAcked(s0, s, n);
  }

  lemma IntrFrame(s: State)
    requires Inv(s) && Enabled(s, Intr)
    ensures Apply(s, Intr).pending == s.pending
  {}

  lemma AllAcked(s0: State, s: State, n: nat)
    requires Inv(s0) && Inv(s) && AckedUpTo(s0, s, n) && s.seenIdx == s.usedIdx
    ensures n == |s0.usq| && forall h :: h in s0.usq && h in s0.reqs ==> s0.reqs[h].b !in s.busy
  {
    SeenAhead(s.nSeen, |s.usq|);
    assert s0.usq[..|s0.usq|] == s0.usq;
    forall h | h in s0.usq && h in s0.reqs ensures s0.reqs[h].b !in s.busy {
      hide Rings, ChainOk, OwnerOk;
      assert StageOk(s, h);
    }
  }

  // ---------------------------------------------------------------------------------
  // The descriptor routines
  // ---------------------------------------------------------------------------------

  class Descriptors {
    const free: array<bool>
    const desc: array<Desc>

    ghost predicate Valid()
      reads this
    {
      free.Length == NUM && desc.Length == NUM
    }

    constructor ()
      ensures Valid() && free[..] == seq(NUM, _ => true) && fresh(free) && fresh(desc)
    {
      free := new bool[NUM](_ => true);
      desc := new Desc[NUM](_ => ZERO_DESC);
    }

    method AllocDesc() returns (r: int)
      requires Valid()
      modifies free
      ensures r == Lowest(old(free[..]), 0)
      ensures free[..] == if r == -1 then old(free[..]) else old(free[..])[r := false]
    {
      for i := 0 to NUM
        invariant free[..] == old(free[..]) && Lowest(free[..], 0) == Lowest(free[..], i)
      {
        if free[i] {
          free[i] := false;
          return i;
        }
      }
      r := -1;
    }

    /** free_desc(); false where it panics. */
    method FreeDesc(i: int) returns (ok: bool)
      requires Valid() && 0 <= i
      modifies free, desc
      ensures ok <==> i < NUM && !old(free[..])[i]
      ensures !ok ==> free[..] == old(free[..]) && desc[..] == old(desc[..])
      ensures ok ==> free[..] == old(free[..])[i := true] && desc[..] == old(desc[..])[i := ZERO_DESC]
    {
      if i >= NUM {
        return false;
      }
      if free[i] {
        return false;
      }
      desc[i] := ZERO_DESC;
      free[i] := true;
      ok := true;
    }

    /** alloc3_desc(): on failure every descriptor is as free as before. */
    method Alloc3Desc() returns (r: Three)
      requires Valid()
      modifies free, desc
      ensures r == Alloc3(old(free[..]))
      ensures r.NoThree? ==> free[..] == old(free[..])
      ensures r.Three? ==> free[..] == old(free[..])[r.a := false][r.b := false][r.c := false]
      ensures r.Three? ==> desc[..] == old(desc[..])
    {
      var idx := new int[3](_ => -1);
      ghost var f0 := free[..];
      var i := 0;
      while i < 3
        invariant 0 <= i <= 3 && fresh(idx) && desc[..] == old(desc[..])
        invariant free[..] == TakenFrom(f0, idx[0], idx[1], idx[2], i)
        invariant i >= 1 ==> 0 <= idx[0] < NUM && idx[0] == Lowest(f0, 0)
        invariant i >= 2 ==> 0 <= idx[1] < NUM && idx[1] == Lowest(f0[idx[0] := false], 0)
        invariant i >= 3 ==> 0 <= idx[2] < NUM && idx[2] == Lowest(f0[idx[0] := false][idx[1] := false], 0)
      {
        idx[i] := AllocDesc();
        if idx[i] < 0 {
          ghost var taken := idx[..];
          for j := 0 to i
            invariant fresh(idx) && idx[..] == taken
            invariant free[..] == if j >= i then f0 else TakenFrom(f0, idx[j], idx[j + 1], idx[2], i - j)
          {
            var ok := FreeDesc(idx[j]);
            assert ok;
          }
          return NoThree;
        }
        i := i + 1;
      }
      r := Three(idx[0], idx[1], idx[2]);
    }

    /** free_chain() from descriptor i; false where free_desc panics. */
    method FreeChainFrom(start: int) returns (ok: bool)
      requires Valid() && 0 <= start < NUM && forall k :: 0 <= k < NUM ==> 0 <= desc[k].next < NUM
      modifies free, desc
      ensures ok <==> FreeChain(old(free[..]), old(desc[..]), start).Freed?
      ensures ok ==> FreeChain(old(free[..]), old(desc[..]), start) == Freed(free[..], desc[..])
    {
      var i := start;
      while true
        invariant 0 <= i < NUM && forall k :: 0 <= k < NUM ==> 0 <= desc[k].next < NUM
        invariant FreeChain(old(free[..]), old(desc[..]), start) == FreeChain(free[..], desc[..], i)
        decreases |BusySet(free[..])|
      {
        var flag, nxt := desc[i].hasNext, desc[i].next;
        ghost var f, d := free[..], desc[..];
        ok := FreeDesc(i);
        if !ok {
          return;
        }
        BusyShrinks(f, i);
        if flag {
          i := nxt;
        } else {
          return;
        }
      }
    }
  }

  /** f with the first n of three descriptors taken. */
  ghost function TakenFrom(f: seq<bool>, a: int, b: int, c: int, n: int): (r: seq<bool>) {
    if n < 1 || !(0 <= a < |f|) then f else
    if n < 2 || !(0 <= b < |f|) then f[a := false] else
    if n < 3 || !(0 <= c < |f|) then f[a := false][b := false] else f[a := false][b := false][c := false]
  }
}
