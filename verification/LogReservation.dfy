/**
  Reservations in the log: what begin_op's test buys when every operation keeps to
  MAXOPBLOCKS new blocks, and exactly when log_write then panics.
 */
module LogReservation {
  import opened Basics
  import opened LogMachine
  import opened LogRuns

  // ---------------------------------------------------------------------------------
  // Runs of operations that keep to their reservations
  // ---------------------------------------------------------------------------------

  /** A log_write within its operation's reservation: a block already listed, or a new one in budget. */
  predicate Within(s: State, op: nat, b: int) { op < |s.ops| && (b in s.lh || s.ops[op] < MAXOPBLOCKS) }

  predicate EventWithin(s: State, e: Event) { e.LogWrite? ==> Within(s, e.op, e.b) }

  ghost predicate Thrifty(run: seq<State>, ev: seq<Event>, n: nat) {
    n <= |ev| && n <= |run| && forall i :: 0 <= i < n ==> EventWithin(run[i], ev[i])
  }

  /** Blocks reserved by outstanding operations and not yet used. */
  function Unused(ops: seq<nat>): (r: int) {
    if ops == [] then 0 else MAXOPBLOCKS - ops[0] + Unused(ops[1..])
  }

  ghost predicate Reserved(s: State) {
    && (forall i :: 0 <= i < |s.ops| ==> s.ops[i] <= MAXOPBLOCKS)
    && (s.phase.Idle? ==> |s.lh| + Unused(s.ops) <= LOGSIZE)
  }

  lemma {:induction false} UnusedConcat(f: seq<nat>, g: seq<nat>)
    ensures Unused(f + g) == Unused(f) + Unused(g)
  {
    if f == [] {
      assert f + g == g;
    } else {
      UnusedConcat(f[1..], g);
      assert (f + g)[1..] == f[1..] + g;
    }
  }

  /** One operation and the others. */
  lemma UnusedSplit(ops: seq<nat>, i: nat, n: nat)
    requires i < |ops|
    ensures Unused(ops[..i] + ops[i + 1..]) == Unused(ops) - (MAXOPBLOCKS - ops[i])
    ensures Unused(ops[i := n]) == Unused(ops) + ops[i] - n
  {
    var f, g := ops[..i], ops[i + 1..];
    assert ops == f + ([ops[i]] + g) && ops[i := n] == f + ([n] + g);
    UnusedConcat(f, [ops[i]] + g);
    UnusedConcat(f, [n] + g);
    UnusedConcat(f, g);
    UnusedConcat([ops[i]], g);
    UnusedConcat([n], g);
    assert Unused([n]) == MAXOPBLOCKS - n && Unused([ops[i]]) == MAXOPBLOCKS - ops[i];
  }

  lemma {:induction false} UnusedBound(ops: seq<nat>)
    requires forall i :: 0 <= i < |ops| ==> ops[i] <= MAXOPBLOCKS
    ensures 0 <= Unused(ops) <= |ops| * MAXOPBLOCKS
  {
    if ops != [] { UnusedBound(ops[1..]); }
  }

  lemma ReservedBegin(s: State, s': State)
    requires Reserved(s) && s.outstanding == |s.ops| && s.phase.Idle?
    requires |s.lh| + (s.outstanding + 1) * MAXOPBLOCKS <= LOGSIZE
    requires s' == s.(outstanding := s.outstanding + 1, ops := s.ops + [0])
    ensures Reserved(s')
  {
    UnusedConcat(s.ops, [0]);
    UnusedBound(s.ops);
    assert Unused([0]) == MAXOPBLOCKS;
  }

  lemma ReservedWrite(s: State, op: nat, b: int, s': State)
    requires Reserved(s) && Within(s, op, b) && b !in s.lh && s'.phase == s.phase
    requires s'.lh == s.lh + [b] && s'.ops == s.ops[op := s.ops[op] + 1]
    ensures Reserved(s')
  {
    UnusedSplit(s.ops, op, s.ops[op] + 1);
  }

  lemma ReservedEnd(s: State, op: nat, s': State)
    requires Reserved(s) && op < |s.ops| && s.phase.Idle?
    requires s'.lh == s.lh && s'.ops == s.ops[..op] + s.ops[op + 1..]
    ensures Reserved(s')
  {
    UnusedSplit(s.ops, op, 0);
  }

  /** Outside those three, the operations stay and an idle log does not grow. */
  lemma ReservedOther(c: Config, s: State, e: Event, s': State)
    requires Inv(c, s) && Inv(c, s') && Reserved(s) && Enabled(c, s, e) && s' == Apply(c, s, e)
    requires !e.BeginOp? && !e.EndOp? && !(e.LogWrite? && e.b !in s.lh)
    ensures Reserved(s')
  {
    hide PinsAre, Logged, Installed, MemInv, Decode, Encode, HeaderBlock;
    assert s'.outstanding == 0 ==> s'.ops == [];
    assert s'.phase.Idle? ==> (s'.ops == s.ops && |s'.lh| <= |s.lh| && s.phase.Idle?) || s'.ops == [];
  }

  lemma ReservedStep(c: Config, s: State, e: Event)
    requires Inv(c, s) && Enabled(c, s, e) && Reserved(s) && EventWithin(s, e)
    ensures Inv(c, Apply(c, s, e)) && Reserved(Apply(c, s, e))
  {
    hide Inv, Reserved, Within, Abs, StoreApply, StoreEnabled;
    var s' := Apply(c, s, e);
    StepRefines(c, s, e);
    InvShaped(c, s);
    if e.BeginOp? {
      ReservedBegin(s, s');
    } else if e.EndOp? {
      ReservedEnd(s, e.op, s');
    } else if e.LogWrite? && e.b !in s.lh {
      ReservedWrite(s, e.op, e.b, s');
    } else {
      ReservedOther(c, s, e, s');
    }
  }

  lemma {:induction false} ThriftyReserved(c: Config, run: seq<State>, ev: seq<Event>, i: nat)
    requires IsRun(c, run, ev) && i <= |ev| && Thrifty(run, ev, i)
    ensures Inv(c, run[i]) && Reserved(run[i])
  {
    hide Inv, Enabled, Apply, EventWithin;
    if i == 0 {
      RunInv(c, run, ev, 0);
    } else {
      ThriftyReserved(c, run, ev, i - 1);
      ReservedStep(c, run[i - 1], ev[i - 1]);
    }
  }

  /**
    In every interleaving of operations that keep to their reservations, the blocks logged and
    the unused reservations together fit in LOGSIZE.
   */
  lemma ReservationBound(c: Config, run: seq<State>, ev: seq<Event>, i: nat)
    requires IsRun(c, run, ev) && i <= |ev| && Thrifty(run, ev, i)
    ensures run[i].phase.Idle? ==> |run[i].lh| + Unused(run[i].ops) <= LOGSIZE
    ensures forall k :: 0 <= k < |run[i].ops| ==> run[i].ops[k] <= MAXOPBLOCKS
  {
    hide IsRun, Inv, Thrifty;
    ThriftyReserved(c, run, ev, i);
  }

  // ---------------------------------------------------------------------------------
  // When log_write panics
  // ---------------------------------------------------------------------------------

  /** A state that operations keeping to their reservations can reach. */
  ghost predicate Reachable(c: Config, s: State) {
    exists run, ev :: IsRun(c, run, ev) && Thrifty(run, ev, |ev|) && EndsIn(run, ev, s)
  }

  ghost predicate EndsIn(run: seq<State>, ev: seq<Event>, s: State) { |run| == |ev| + 1 && run[|ev|] == s }

  lemma ReachableInv(c: Config, s: State)
    requires Reachable(c, s)
    ensures Inv(c, s) && Reserved(s)
  {
    hide IsRun, Inv, Thrifty, Reserved;
    var run, ev :| IsRun(c, run, ev) && Thrifty(run, ev, |ev|) && EndsIn(run, ev, s);
    ThriftyReserved(c, run, ev, |ev|);
  }

  lemma ReachableStep(c: Config, s: State, e: Event)
    requires Reachable(c, s) && Enabled(c, s, e) && EventWithin(s, e)
    ensures Reachable(c, Apply(c, s, e))
  {
    hide Enabled, Apply, EventWithin, IsRun;
    var run, ev :| IsRun(c, run, ev) && Thrifty(run, ev, |ev|) && EndsIn(run, ev, s);
    RunSnoc(c, run, ev, e);
    assert Thrifty(run + [Apply(c, s, e)], ev + [e], |ev + [e]|);
    assert EndsIn(run + [Apply(c, s, e)], ev + [e], Apply(c, s, e));
  }

  lemma InitReachable(c: Config, s: State)
    requires Init(c, s)
    ensures Reachable(c, s)
  {
    var none: seq<Event> := [];
    assert IsRun(c, [s], none) && Thrifty([s], none, 0) && EndsIn([s], none, s);
  }

  /** A log_write that a well-behaved operation may attempt. */
  ghost predicate Attempt(c: Config, s: State, op: nat, b: int) {
    Reachable(c, s) && s.phase.Idle? && c.Home(b) && Within(s, op, b)
  }

  lemma {:induction false} UnusedPositive(ops: seq<nat>, op: nat)
    requires op < |ops| && ops[op] < MAXOPBLOCKS
    requires forall i :: 0 <= i < |ops| ==> ops[i] <= MAXOPBLOCKS
    ensures Unused(ops) >= 1
  {
    UnusedBound(ops[1..]);
    if op > 0 { UnusedPositive(ops[1..], op - 1); }
  }

  /**
    The exact test: such a write panics if and only if the on-disk log has no room for one
    more block, or the block is already listed in a log of LOGSIZE blocks.
   */
  lemma PanicExactly(c: Config, s: State, op: nat, b: int)
    requires Attempt(c, s, op, b)
    ensures LogWritePanics(c, s) <==> |s.lh| >= c.size - 1 || (b in s.lh && |s.lh| == LOGSIZE)
  {
    hide Reachable, Inv;
    ReachableInv(c, s);
    InvShaped(c, s);
    UnusedBound(s.ops);
    if b !in s.lh { UnusedPositive(s.ops, op); }
  }

  function HomeBlock(c: Config, i: nat): (b: int) { if i < c.start then i else i + c.size }

  function HomeBlocks(c: Config, n: nat): (r: seq<int>)
    ensures |r| == n && forall i :: 0 <= i < n ==> r[i] == HomeBlock(c, i)
  {
    if n == 0 then [] else HomeBlocks(c, n - 1) + [HomeBlock(c, n - 1)]
  }

  /** n new blocks spread over three operations, ten each at most. */
  function Spread(n: nat): (r: seq<nat>)
    ensures |r| == 3
  {
    if n <= 10 then [n, 0, 0] else if n <= 20 then [10, n - 10, 0] else [10, 10, n - 20]
  }

  /** An idle log in which three operations have logged n blocks between them. */
  ghost predicate Filled(c: Config, s: State, n: nat) {
    && Reachable(c, s) && s.phase.Idle? && s.outstanding == 3
    && s.lh == HomeBlocks(c, n) && s.ops == Spread(n)
  }

  lemma Booted(c: Config, d: seq<Block>) returns (s: State)
    requires c.Valid() && |d| == c.nblocks && HeaderBlock(d[c.start])
    requires Decode(d[c.start]) == []
    ensures Reachable(c, s) && s.phase.Idle? && s.outstanding == 0 && s.lh == [] && s.ops == []
  {
    hide Reachable;
    s := State(d, d, [], {}, 0, [], Boot);
    InitReachable(c, s);
    ReachableStep(c, s, ReadHead);
    s := Apply(c, s, ReadHead);
    ReachableStep(c, s, RecoverClear);
    s := Apply(c, s, RecoverClear);
  }

  lemma Opened(c: Config, s: State) returns (s': State)
    requires Reachable(c, s) && s.phase.Idle? && s.lh == []
    requires s.outstanding == |s.ops| <= 2
    ensures Reachable(c, s') && s'.phase.Idle? && s'.lh == []
    ensures s'.outstanding == s.outstanding + 1 && s'.ops == s.ops + [0]
  {
    hide Reachable, Inv;
    ReachableInv(c, s);
    InvShaped(c, s);
    ReachableStep(c, s, BeginOp);
    s' := Apply(c, s, BeginOp);
  }

  lemma FilledStart(c: Config, d: seq<Block>) returns (s: State)
    requires c.Valid() && |d| == c.nblocks && HeaderBlock(d[c.start])
    requires Decode(d[c.start]) == []
    ensures Filled(c, s, 0)
  {
    hide Reachable, Decode;
    s := Booted(c, d);
    s := Opened(c, s);
    s := Opened(c, s);
    s := Opened(c, s);
  }

  lemma FilledEvent(c: Config, s: State, n: nat) returns (e: Event)
    requires Filled(c, s, n) && n < LOGSIZE && n < c.size - 1 && n + c.size < c.nblocks
    ensures e.LogWrite? && e.b == HomeBlock(c, n) && e.b !in s.lh && e.op < 3
    ensures s.ops[e.op := s.ops[e.op] + 1] == Spread(n + 1)
    ensures Enabled(c, s, e) && EventWithin(s, e)
  {
    hide Reachable, Inv;
    ReachableInv(c, s);
    InvShaped(c, s);
    e := LogWrite(if n < 10 then 0 else if n < 20 then 1 else 2, HomeBlock(c, n), s.disk[c.start]);
  }

  lemma FilledNext(c: Config, s: State, n: nat) returns (s': State)
    requires Filled(c, s, n) && n < LOGSIZE && n < c.size - 1 && n + c.size < c.nblocks
    ensures Filled(c, s', n + 1)
  {
    hide Enabled, Reachable, Spread, EventWithin;
    var e := FilledEvent(c, s, n);
    ReachableStep(c, s, e);
    s' := Apply(c, s, e);
  }

  lemma {:induction false} FilledUpTo(c: Config, d: seq<Block>, n: nat) returns (s: State)
    requires c.Valid() && |d| == c.nblocks && HeaderBlock(d[c.start])
    requires Decode(d[c.start]) == []
    requires n <= LOGSIZE && n <= c.size - 1 && n + c.size <= c.nblocks
    ensures Filled(c, s, n)
  {
    hide Filled, Decode;
    if n == 0 {
      s := FilledStart(c, d);
    } else {
      s := FilledUpTo(c, d, n - 1);
      s := FilledNext(c, s, n - 1);
    }
  }

  /** Three operations of ten blocks at most fill the log with n blocks. */
  lemma FilledFromEmpty(c: Config, n: nat) returns (s: State)
    requires c.Valid() && n <= LOGSIZE && n <= c.size - 1 && n + c.size <= c.nblocks
    ensures Filled(c, s, n)
  {
    var zero := Block(seq(256, _ => 0));
    s := FilledUpTo(c, seq(c.nblocks, _ => zero), n);
  }

  /** A well-behaved operation can reach the panic with a block that is new, or with one already listed. */
  ghost predicate PanicReachable(c: Config, listed: bool) {
    exists s, op, b :: Attempt(c, s, op, b) && LogWritePanics(c, s) && (b in s.lh <==> listed)
  }

  lemma SmallLogPanics(c: Config)
    requires c.Valid() && c.size <= LOGSIZE && 2 * c.size <= c.nblocks
    ensures PanicReachable(c, false)
  {
    hide Reachable;
    var n := c.size - 1;
    var s := FilledFromEmpty(c, n);
    var op := if n < 10 then 0 else if n < 20 then 1 else 2;
    assert Attempt(c, s, op, HomeBlock(c, n));
    assert HomeBlock(c, n) !in s.lh;
  }

  /** A block already listed is no safer: at a full log its log_write panics, whatever the log's size. */
  lemma ListedPanics(c: Config)
    requires c.Valid() && 2 <= c.size && c.size + c.Capacity() <= c.nblocks
    ensures PanicReachable(c, true)
  {
    hide Reachable;
    var s := FilledFromEmpty(c, c.Capacity());
    assert HomeBlock(c, 0) == s.lh[0];
    assert Attempt(c, s, 0, HomeBlock(c, 0));
  }

  // Counting home blocks

  function Below(n: nat): (r: set<int>)
    ensures |r| == n && forall i :: i in r <==> 0 <= i < n
  {
    if n == 0 then {} else Below(n - 1) + {n - 1}
  }

  function HomeIndex(c: Config, b: int): (i: int) { if b < c.start then b else b - c.size }

  function Indices(c: Config, lh: seq<int>): (r: set<int>) {
    if lh == [] then {} else Indices(c, lh[..|lh| - 1]) + {HomeIndex(c, lh[|lh| - 1])}
  }

  lemma {:induction false} IndexNew(c: Config, lh: seq<int>, b: int)
    requires c.Valid() && c.Home(b) && b !in lh && forall i :: 0 <= i < |lh| ==> c.Home(lh[i])
    ensures HomeIndex(c, b) !in Indices(c, lh)
  {
    if lh != [] {
      assert lh[|lh| - 1] in lh;
      IndexNew(c, lh[..|lh| - 1], b);
    }
  }

  lemma {:induction false} IndicesCount(c: Config, lh: seq<int>)
    requires c.Valid() && NoDup(lh) && forall i :: 0 <= i < |lh| ==> c.Home(lh[i])
    ensures |Indices(c, lh)| == |lh|
    ensures forall x :: x in Indices(c, lh) ==> 0 <= x < c.nblocks - c.size
  {
    if lh != [] {
      var rest, b := lh[..|lh| - 1], lh[|lh| - 1];
      IndicesCount(c, rest);
      assert c.Home(b) && b !in rest;
      IndexNew(c, rest, b);
      hide NoDup;
    }
  }

  /** There are nblocks - size blocks outside the log. */
  lemma HomeRoom(c: Config, lh: seq<int>)
    requires c.Valid() && NoDup(lh) && forall i :: 0 <= i < |lh| ==> c.Home(lh[i])
    ensures |lh| <= c.nblocks - c.size
  {
    IndicesCount(c, lh);
    SubsetSize(Indices(c, lh), Below(c.nblocks - c.size));
  }

  /** What a panic within reservations takes: room on the disk for that many listed blocks. */
  lemma PanicNeeds(c: Config, s: State, op: nat, b: int)
    requires Attempt(c, s, op, b) && LogWritePanics(c, s)
    ensures b !in s.lh ==> c.size <= LOGSIZE && 2 * c.size <= c.nblocks
    ensures b in s.lh ==> 2 <= c.size && c.size + c.Capacity() <= c.nblocks
  {
    hide Reachable, PhaseInv, MemInv;
    PanicExactly(c, s, op, b);
    ReachableInv(c, s);
    HomeRoom(c, s.lh);
    if b !in s.lh {
      RoomForNew(c, s, op, b);
      HomeRoom(c, s.lh + [b]);
    }
  }

  /** A new block within its reservation finds fewer than LOGSIZE blocks in the log. */
  lemma RoomForNew(c: Config, s: State, op: nat, b: int)
    requires Attempt(c, s, op, b) && b !in s.lh
    ensures |s.lh| < LOGSIZE
  {
    hide Reachable, Inv;
    ReachableInv(c, s);
    UnusedPositive(s.ops, op);
  }

  /**
    With a block that is new, operations that keep to MAXOPBLOCKS can reach "too big a
    transaction" exactly when the on-disk log has at most LOGSIZE blocks (and the disk has
    blocks enough to fill it). mkfs makes it LOGSIZE.
   */
  lemma NewBlockPanicIff(c: Config)
    requires c.Valid()
    ensures PanicReachable(c, false) <==> c.size <= LOGSIZE && 2 * c.size <= c.nblocks
  {
    hide Attempt;
    if PanicReachable(c, false) {
      var s, op, b :| Attempt(c, s, op, b) && LogWritePanics(c, s) && b !in s.lh;
      PanicNeeds(c, s, op, b);
    }
    if c.size <= LOGSIZE && 2 * c.size <= c.nblocks { SmallLogPanics(c); }
  }

  /** With a block already listed no log size is safe: the panic is reachable whenever a full log is. */
  lemma ListedPanicIff(c: Config)
    requires c.Valid()
    ensures PanicReachable(c, true) <==> 2 <= c.size && c.size + c.Capacity() <= c.nblocks
  {
    hide Attempt;
    if PanicReachable(c, true) {
      var s, op, b :| Attempt(c, s, op, b) && LogWritePanics(c, s) && b in s.lh;
      PanicNeeds(c, s, op, b);
    }
    if 2 <= c.size && c.size + c.Capacity() <= c.nblocks { ListedPanics(c); }
  }
}
