/**
  Whole runs of the log: crash atomicity, for operations of any size.
 */
module LogRuns {
  import opened LogMachine

  /** `run[i + 1]` is what event `ev[i]` makes of `run[i]`, from power-on. */
  ghost predicate IsRun(c: Config, run: seq<State>, ev: seq<Event>) {
    && |run| == |ev| + 1
    && Init(c, run[0])
    && (forall i :: 0 <= i < |ev| ==>
          Enabled(c, run[i], ev[i]) && run[i + 1] == Apply(c, run[i], ev[i]))
  }

  /** The atomic store after a list of events. */
  ghost function StoreAfter(st: Store, ev: seq<Event>): Store {
    if ev == [] then st else StoreApply(StoreAfter(st, ev[..|ev| - 1]), ev[|ev| - 1])
  }

  lemma {:induction false} RunInv(c: Config, run: seq<State>, ev: seq<Event>, i: nat)
    requires IsRun(c, run, ev) && i <= |ev|
    ensures Inv(c, run[i])
  {
    hide Enabled, Apply;
    if i > 0 {
      RunInv(c, run, ev, i - 1);
      StepRefines(c, run[i - 1], ev[i - 1]);
    }
  }

  /** Every run of the log is, event by event, a run of the atomic store. */
  lemma {:induction false} RunRefines(c: Config, run: seq<State>, ev: seq<Event>, i: nat)
    requires IsRun(c, run, ev) && i <= |ev|
    ensures Inv(c, run[i])
    ensures Abs(c, run[i]) == StoreAfter(Abs(c, run[0]), ev[..i])
    ensures i < |ev| ==> StoreEnabled(Abs(c, run[i]), ev[i])
  {
    hide Enabled, Apply, Abs, StoreApply, StoreEnabled, Inv;
    RunInv(c, run, ev, i);
    if i < |ev| { StepRefines(c, run[i], ev[i]); }
    if i > 0 {
      RunRefines(c, run, ev, i - 1);
      StepRefines(c, run[i - 1], ev[i - 1]);
      assert ev[..i][..i - 1] == ev[..i - 1];
    }
  }

  // ---------------------------------------------------------------------------------
  // Crash atomicity
  // ---------------------------------------------------------------------------------

  /**
    The blocks that a list of events logs, each as its buffer stands at the end: as the last
    log_write left it, or the last unlogged change after a log_write.
   */
  ghost function Latest(ev: seq<Event>): (m: Contents) {
    if ev == [] then map[]
    else
      var m := Latest(ev[..|ev| - 1]);
      var e := ev[|ev| - 1];
      if e.LogWrite? then m[e.b := e.data]
      else if e.Scribble? && e.b in m then m[e.b := e.data]
      else m
  }

  lemma LatestSnoc(seg: seq<Event>, e: Event)
    ensures Latest(seg + [e]) ==
            if e.LogWrite? || (e.Scribble? && e.b in Latest(seg)) then Latest(seg)[e.b := e.data] else Latest(seg)
  {
    assert (seg + [e])[..|seg|] == seg;
  }

  /** The contents after all log_writes of a list of events, in order. */
  ghost function Writes(m: Contents, ev: seq<Event>): (r: Contents) {
    if ev == [] then m
    else
      var r := Writes(m, ev[..|ev| - 1]);
      var e := ev[|ev| - 1];
      if e.LogWrite? then r[e.b := e.data] else r
  }

  ghost predicate NoScribble(ev: seq<Event>) { forall i :: 0 <= i < |ev| ==> !ev[i].Scribble? }

  /** Where every change is logged, the latest logged blocks are the writes in order. */
  lemma {:induction false} LatestIsWrites(m: Contents, ev: seq<Event>)
    requires NoScribble(ev)
    ensures m + Latest(ev) == Writes(m, ev)
  {
    if ev != [] {
      LatestIsWrites(m, ev[..|ev| - 1]);
    }
  }

  /** An unlogged change to a block already logged goes to disk with it, and is not among the writes. */
  lemma ScribbleCounts(m: Contents, op: nat, b: int, x: Block, y: Block)
    ensures var seg := [LogWrite(op, b, x), Scribble(b, y)];
            m + Latest(seg) == Writes(m, seg) <==> x == y
  {
    var one := [LogWrite(op, b, x)];
    var seg := [LogWrite(op, b, x), Scribble(b, y)];
    assert seg[..1] == one && one[..0] == [];
    assert Latest(one) == map[b := x] && Latest(seg) == map[b := x][b := y];
    assert Writes(m, one) == m[b := x] && Writes(m, seg) == m[b := x];
    assert (m + Latest(seg))[b] == y && Writes(m, seg)[b] == x;
    if x == y { assert m + Latest(seg) == m[b := x]; }
  }

  predicate RecoveryEvent(e: Event) {
    e.Crash? || e.ReadHead? || e.RecoverBlock? || e.RecoverClear? || e.Evict?
  }

  /** While the listed blocks are being installed, or after. */
  predicate PastCommit(p: Phase) { p.Installing? || p.Cleared? }

  /** Memory holds each logged block as it was last left. */
  ghost predicate HoldsLatest(st: Store, m: Contents) {
    && st.listed == m.Keys
    && (forall b :: b in m ==> b in st.pending && st.pending[b] == m[b])
  }

  /**
    What holds after the events `seg` of a transaction that began with contents `before`: the
    blocks logged so far are listed and in memory, and the durable contents are `before`, or
    that with all of them once the header has been written.
   */
  ghost predicate SoFar(c: Config, s: State, before: Contents, seg: seq<Event>) {
    && Inv(c, s) && !InRecovery(s.phase)
    && (if WriteHead in seg then PastCommit(s.phase) && Abs(c, s).durable == before + Latest(seg)
        else Abs(c, s).durable == before && HoldsLatest(Abs(c, s), Latest(seg)))
  }

  lemma PhaseStep(c: Config, s: State, e: Event)
    requires Inv(c, s) && Enabled(c, s, e) && !e.Crash? && !e.EndCommit?
    requires !InRecovery(s.phase)
    ensures !InRecovery(Apply(c, s, e).phase)
    ensures e.WriteHead? || PastCommit(s.phase) ==> PastCommit(Apply(c, s, e).phase)
    ensures PastCommit(s.phase) ==> !e.LogWrite? && !e.Scribble? && !e.WriteHead?
    ensures e.ClearHead? ==> PastCommit(s.phase)
    ensures e.Evict? ==> e.b !in s.pins
  {
    hide PhaseInv, MemInv, GoodHeader;
  }

  /** Before the header write the listed blocks are all pinned. */
  lemma UnpinnedUnlisted(c: Config, s: State, b: int)
    requires Inv(c, s) && !InRecovery(s.phase) && !s.phase.Installing? && b !in s.pins
    ensures Shaped(c, s) && b !in Abs(c, s).listed
  {
    hide MemInv, GoodHeader, Decode, Logged, Replay, HomeView;
  }

  /** One step of the store before the header write. */
  lemma EarlyStep(st: Store, e: Event, before: Contents, m: Contents)
    requires st.durable == before && HoldsLatest(st, m) && StoreEnabled(st, e)
    requires !e.Crash? && !e.WriteHead? && !e.ClearHead? && (e.Evict? ==> e.b !in st.listed)
    ensures var m' := if e.LogWrite? || (e.Scribble? && e.b in m) then m[e.b := e.data] else m;
            StoreApply(st, e).durable == before && HoldsLatest(StoreApply(st, e), m')
  {}

  lemma CommitMoves(st: Store, m: Contents)
    requires HoldsLatest(st, m) && st.durable.Keys == st.pending.Keys
    ensures Moved(st) == st.durable + m
  {
    var a, b := Moved(st), st.durable + m;
    assert forall x :: x in a <==> x in b;
    assert forall x :: x in a ==> a[x] == b[x];
  }

  lemma AbsKeys(c: Config, s: State)
    requires Shaped(c, s)
    ensures Abs(c, s).durable.Keys == Abs(c, s).pending.Keys
  {}

  lemma SoFarStep(c: Config, s: State, e: Event, before: Contents, seg: seq<Event>)
    requires SoFar(c, s, before, seg)
    requires Enabled(c, s, e) && !e.Crash? && !e.EndCommit?
    requires s.phase.Installing? ==> WriteHead in seg
    ensures SoFar(c, Apply(c, s, e), before, seg + [e])
  {
    hide Inv, Enabled, Apply, Abs, HoldsLatest, StoreEnabled, Moved, Latest;
    InvShaped(c, s);
    StepRefines(c, s, e);
    PhaseStep(c, s, e);
    LatestSnoc(seg, e);
    if WriteHead !in seg {
      if e.Evict? { UnpinnedUnlisted(c, s, e.b); }
      if e.WriteHead? {
        AbsKeys(c, s);
        CommitMoves(Abs(c, s), Latest(seg));
      } else {
        assert !e.ClearHead? by { NotClear(c, s, e); }
        EarlyStep(Abs(c, s), e, before, Latest(seg));
      }
    }
  }

  lemma NotClear(c: Config, s: State, e: Event)
    requires Enabled(c, s, e) && !s.phase.Installing?
    ensures !e.ClearHead? && !e.InstallBlock?
  {}

  lemma SoFarStart(c: Config, s: State)
    requires Inv(c, s) && s.phase.Idle? && s.lh == []
    ensures SoFar(c, s, HomeView(c, s.disk), [])
  {
    hide Inv, Replay, HomeView;
    EmptyHeader(c, s);
    assert Listed(s.lh) == {};
  }

  /** Blocks are installed only behind a header write. */
  lemma InstallAfterHead(c: Config, s: State, e: Event)
    requires Enabled(c, s, e) && Apply(c, s, e).phase.Installing?
    ensures s.phase.Installing? || e.WriteHead?
  {}

  lemma {:induction false} TransactionSoFar(
    c: Config, run: seq<State>, ev: seq<Event>, before: Contents, t: nat, i: nat)
    requires IsRun(c, run, ev) && t <= i <= |ev|
    requires SoFar(c, run[t], before, []) && run[t].phase.Idle?
    requires forall j :: t <= j < i ==> !ev[j].Crash? && !ev[j].EndCommit?
    ensures SoFar(c, run[i], before, ev[t..i])
    ensures run[i].phase.Installing? ==> WriteHead in ev[t..i]
    decreases i
  {
    hide Apply, Enabled, Inv, SoFar, Latest, Init;
    if i == t {
      assert ev[t..t] == [];
    } else {
      TransactionSoFar(c, run, ev, before, t, i - 1);
      assert run[i] == Apply(c, run[i - 1], ev[i - 1]);
      assert ev[t..i] == ev[t..i - 1] + [ev[i - 1]];
      SoFarStep(c, run[i - 1], ev[i - 1], before, ev[t..i - 1]);
      if run[i].phase.Installing? { InstallAfterHead(c, run[i - 1], ev[i - 1]); }
    }
  }

  /** Recovery, from a crash on, keeps what is durable, and memory equal to the disk. */
  lemma RecoveryStep(c: Config, s: State, e: Event)
    requires Inv(c, s) && Enabled(c, s, e) && RecoveryEvent(e) && (e.Crash? || s.mem == s.disk)
    ensures Inv(c, Apply(c, s, e)) && Abs(c, Apply(c, s, e)).durable == Abs(c, s).durable
    ensures Apply(c, s, e).mem == Apply(c, s, e).disk
    ensures InRecovery(Apply(c, s, e).phase) || Apply(c, s, e).lh == [] || e.Evict?
    ensures e.Evict? ==> Apply(c, s, e) == s
  {
    hide Inv, Abs;
    InvShaped(c, s);
    StepRefines(c, s, e);
    if e.Evict? { EvictInv(c, s, e.b, Apply(c, s, e)); }
    if e.RecoverClear? { ClearStep(c, s, Apply(c, s, e)); }
    InvShaped(c, Apply(c, s, e));
  }

  lemma {:induction false} RecoveryKeepsDurable(c: Config, run: seq<State>, ev: seq<Event>, k: nat, j: nat)
    requires IsRun(c, run, ev) && k <= j <= |ev|
    requires forall i :: k <= i < j ==> RecoveryEvent(ev[i])
    requires k < j ==> InRecovery(run[k].phase) || ev[k].Crash?
    ensures Inv(c, run[k]) && Inv(c, run[j])
    ensures Abs(c, run[j]).durable == Abs(c, run[k]).durable
    ensures k < j ==> run[j].mem == run[j].disk && (InRecovery(run[j].phase) || run[j].lh == [])
  {
    hide Enabled, Apply, Abs, InRecovery, RecoveryEvent, Inv, Init;
    RunInv(c, run, ev, k);
    if k < j {
      RecoveryKeepsDurable(c, run, ev, k, j - 1);
      if k == j - 1 && !ev[k].Crash? { RecoveryClean(c, run[k]); }
      RecoveryStep(c, run[j - 1], ev[j - 1]);
      assert run[j] == Apply(c, run[j - 1], ev[j - 1]);
    }
  }

  /**
    Crash atomicity. A transaction starts at an idle moment t; the machine crashes at any
    later moment k; recovery runs, itself crashing any number of times and recycling buffers
    as it likes, and completes at moment j. The home blocks then hold what they held at t, or
    that with each block the transaction logged, as its buffer stood at the header write: the
    latter exactly when the header write happened before k.
   */
  lemma CrashAtomicity(c: Config, run: seq<State>, ev: seq<Event>, t: nat, k: nat, j: nat)
    requires IsRun(c, run, ev) && t <= k < j <= |ev|
    requires run[t].phase.Idle? && run[t].lh == []
    requires forall i :: t <= i < k ==> !ev[i].Crash? && !ev[i].EndCommit?
    requires ev[k].Crash? && (forall i :: k < i < j ==> RecoveryEvent(ev[i]))
    requires run[j].phase.Idle?
    ensures |run[t].disk| == |run[j].disk| == |run[j].mem| == c.nblocks
    ensures HomeView(c, run[j].disk) ==
            if WriteHead in ev[t..k] then HomeView(c, run[t].disk) + Latest(ev[t..k])
            else HomeView(c, run[t].disk)
    ensures run[j].mem == run[j].disk && run[j].lh == []
  {
    hide Apply, Enabled, Abs, Init, Latest, HomeView;
    DurableAt(c, run, ev, t, k);
    RecoveredAt(c, run, ev, k, j);
  }

  /** Where every change of the transaction is logged: none of its writes, or all of them in order. */
  lemma CrashAtomicWrites(c: Config, run: seq<State>, ev: seq<Event>, t: nat, k: nat, j: nat)
    requires IsRun(c, run, ev) && t <= k < j <= |ev|
    requires run[t].phase.Idle? && run[t].lh == []
    requires forall i :: t <= i < k ==> !ev[i].Crash? && !ev[i].EndCommit?
    requires ev[k].Crash? && (forall i :: k < i < j ==> RecoveryEvent(ev[i]))
    requires run[j].phase.Idle? && NoScribble(ev[t..k])
    ensures |run[t].disk| == |run[j].disk| == c.nblocks
    ensures HomeView(c, run[j].disk) ==
            if WriteHead in ev[t..k] then Writes(HomeView(c, run[t].disk), ev[t..k])
            else HomeView(c, run[t].disk)
  {
    hide Init, Enabled, Apply, Latest, HomeView, Writes;
    CrashAtomicity(c, run, ev, t, k, j);
    LatestIsWrites(HomeView(c, run[t].disk), ev[t..k]);
  }

  lemma DurableAt(c: Config, run: seq<State>, ev: seq<Event>, t: nat, k: nat)
    requires IsRun(c, run, ev) && t <= k <= |ev|
    requires run[t].phase.Idle? && run[t].lh == []
    requires forall i :: t <= i < k ==> !ev[i].Crash? && !ev[i].EndCommit?
    ensures Shaped(c, run[t]) && Shaped(c, run[k])
    ensures Abs(c, run[k]).durable ==
            if WriteHead in ev[t..k] then HomeView(c, run[t].disk) + Latest(ev[t..k])
            else HomeView(c, run[t].disk)
  {
    hide Apply, Enabled, Init, Inv, Abs, Latest, HomeView, HoldsLatest;
    RunInv(c, run, ev, t);
    RunInv(c, run, ev, k);
    InvShaped(c, run[t]);
    InvShaped(c, run[k]);
    SoFarStart(c, run[t]);
    TransactionSoFar(c, run, ev, HomeView(c, run[t].disk), t, k);
  }

  lemma RecoveredAt(c: Config, run: seq<State>, ev: seq<Event>, k: nat, j: nat)
    requires IsRun(c, run, ev) && k < j <= |ev|
    requires forall i :: k <= i < j ==> RecoveryEvent(ev[i])
    requires InRecovery(run[k].phase) || ev[k].Crash?
    requires run[j].phase.Idle?
    ensures Shaped(c, run[k]) && Shaped(c, run[j]) && run[j].lh == [] && run[j].mem == run[j].disk
    ensures HomeView(c, run[j].disk) == Abs(c, run[k]).durable
  {
    hide Apply, Enabled, Init, Inv, Replay, HomeView, RecoveryEvent;
    RecoveryKeepsDurable(c, run, ev, k, j);
    InvShaped(c, run[k]);
    EmptyHeader(c, run[j]);
  }

  /**
    A transaction that commits while operations keep coming and going: at the end the home
    blocks are as before it, with each block it logged as its buffer stood at the header write.
   */
  lemma CommitIsComplete(c: Config, run: seq<State>, ev: seq<Event>, t: nat, k: nat)
    requires IsRun(c, run, ev) && t <= k < |ev| && ev[k].EndCommit?
    requires run[t].phase.Idle? && run[t].lh == []
    requires forall i :: t <= i < k ==> !ev[i].Crash? && !ev[i].EndCommit?
    ensures |run[t].disk| == |run[k].disk| == c.nblocks
    ensures HomeView(c, run[k].disk) == HomeView(c, run[t].disk) + Latest(ev[t..k])
    ensures run[k].outstanding == 0 && run[k].lh == []
  {
    hide Apply, Init, Latest, HomeView, Replay, Inv;
    RunInv(c, run, ev, t);
    RunInv(c, run, ev, k);
    InvShaped(c, run[t]);
    InvShaped(c, run[k]);
    SoFarStart(c, run[t]);
    TransactionSoFar(c, run, ev, HomeView(c, run[t].disk), t, k);
    assert run[k].phase.Cleared? && run[k].lh == [] by { EndsCleared(c, run[k], ev[k]); }
    EmptyHeader(c, run[k]);
    if WriteHead !in ev[t..k] {
      assert Listed(run[k].lh) == {};
      assert Latest(ev[t..k]) == map[];
    }
  }

  lemma EndsCleared(c: Config, s: State, e: Event)
    requires Inv(c, s) && Enabled(c, s, e) && e.EndCommit?
    ensures s.phase.Cleared? && s.lh == []
  {
    hide MemInv, GoodHeader, Decode;
  }

  /** And where every change is logged, those are all the writes in order. */
  lemma CommitIsAllWrites(c: Config, run: seq<State>, ev: seq<Event>, t: nat, k: nat)
    requires IsRun(c, run, ev) && t <= k < |ev| && ev[k].EndCommit?
    requires run[t].phase.Idle? && run[t].lh == []
    requires forall i :: t <= i < k ==> !ev[i].Crash? && !ev[i].EndCommit?
    requires NoScribble(ev[t..k])
    ensures |run[t].disk| == |run[k].disk| == c.nblocks
    ensures HomeView(c, run[k].disk) == Writes(HomeView(c, run[t].disk), ev[t..k])
  {
    hide Init, Enabled, Apply, Latest, HomeView, Writes;
    CommitIsComplete(c, run, ev, t, k);
    LatestIsWrites(HomeView(c, run[t].disk), ev[t..k]);
  }

  /** In every run: committing implies nothing outstanding, and the pins are the blocks still to install. */
  lemma PinsAndOps(c: Config, run: seq<State>, ev: seq<Event>, i: nat)
    requires IsRun(c, run, ev) && i <= |ev|
    ensures run[i].outstanding == |run[i].ops|
    ensures !run[i].phase.Idle? ==> run[i].outstanding == 0
    ensures run[i].phase.Idle? || run[i].phase.WritingLog? ==>
              run[i].pins == (set b | b in run[i].lh)
    ensures run[i].phase.Installing? ==>
              run[i].phase.tail <= |run[i].lh|
              && run[i].pins == (set b | b in run[i].lh[run[i].phase.tail..])
  {
    hide Init, Enabled, Apply, GoodHeader, MemInv, Logged, Installed, Decode;
    RunInv(c, run, ev, i);
    var s := run[i];
    var t := if s.phase.Installing? then s.phase.tail else 0;
    if s.phase.Idle? || s.phase.WritingLog? || s.phase.Installing? {
      PinsAsSet(s.pins, s.lh, t);
      assert s.lh[0..] == s.lh;
    }
  }

  lemma PinsAsSet(pins: set<int>, lh: seq<int>, t: nat)
    requires PinsAre(pins, lh, t)
    ensures pins == (set b | b in lh[t..])
  {
    forall b | b in pins ensures b in lh[t..] {
      var i :| t <= i < |lh| && lh[i] == b;
      assert lh[t..][i - t] == b;
    }
  }

  lemma RunSnoc(c: Config, run: seq<State>, ev: seq<Event>, e: Event)
    requires IsRun(c, run, ev) && Enabled(c, run[|ev|], e)
    ensures IsRun(c, run + [Apply(c, run[|ev|], e)], ev + [e])
    ensures (run + [Apply(c, run[|ev|], e)])[|ev + [e]|] == Apply(c, run[|ev|], e)
  {
    hide Enabled, Apply, Init;
  }
}
