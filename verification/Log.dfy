/**
  kernel/log.c as it is written: a mutable log with copying loops. The ghost `run` records
  the machine state after every disk write and every change of the log's own state, so
  that whatever LogRuns proves about runs holds at each point where this code can crash.
 */
module Log {
  import opened LogMachine
  import LogRuns

  ghost function Repeat(e: Event, n: nat): (r: seq<Event>) { seq(n, _ => e) }

  /** commit()'s disk writes, in order. */
  ghost function CommitEvents(n: nat): (r: seq<Event>) {
    if n == 0 then []
    else Repeat(WriteLogBlock, n) + [WriteHead] + Repeat(InstallBlock, n) + [ClearHead]
  }

  lemma PrefixTrans(a: seq<State>, b: seq<State>, d: seq<State>)
    requires a <= b && b <= d
    ensures a <= d
  {}

  lemma CommitSequence(e0: seq<Event>, n: nat)
    requires n > 0
    ensures e0 + Repeat(WriteLogBlock, n) + [WriteHead] + Repeat(InstallBlock, n) + [ClearHead] == e0 + CommitEvents(n)
  {
    hide Repeat;
  }

  lemma NoCommitEvents()
    ensures CommitEvents(0) == []
  {}

  lemma RepeatSnoc(e: Event, n: nat)
    ensures Repeat(e, n + 1) == Repeat(e, n) + [e]
  {}

  class LogDevice {
    const c: Config
    var disk: seq<Block>
    var mem: seq<Block>
    var lh: seq<int>
    var pins: set<int>
    var outstanding: int
    var committing: bool
    ghost var ops: seq<nat>
    ghost var phase: Phase
    ghost var ev: seq<Event>
    ghost var run: seq<State>

    ghost function Now(): State
      reads this
    {
      State(disk, mem, lh, pins, outstanding, ops, phase)
    }

    ghost predicate Valid()
      reads this
    {
      && Shaped(c, Now())
      && LogRuns.IsRun(c, run, ev) && |run| == |ev| + 1 && run[|ev|] == Now()
      && (committing <==> phase.WritingLog? || phase.Installing? || phase.Cleared?)
    }

    /** Power-on: nothing is in memory, the disk is whatever it is. */
    constructor (c: Config, disk: seq<Block>)
      requires c.Valid() && |disk| == c.nblocks && LogMachine.HeaderBlock(disk[c.start])
      requires GoodHeader(c, Decode(disk[c.start]))
      ensures Valid() && phase.Boot? && this.c == c && this.disk == disk && ev == []
    {
      this.c, this.disk, this.mem, this.lh, this.pins := c, disk, disk, [], {};
      this.outstanding, this.committing, this.ops, this.phase := 0, false, [], Boot;
      this.ev, this.run := [], [State(disk, disk, [], {}, 0, [], Boot)];
    }

    /** Appends one step to the recorded run. */
    ghost method Record(e: Event, before: State)
      requires LogRuns.IsRun(c, run, ev) && run[|ev|] == before
      requires Enabled(c, before, e) && Now() == Apply(c, before, e)
      modifies this`ev, this`run
      ensures LogRuns.IsRun(c, run, ev) && |run| == |ev| + 1 && run[|ev|] == Now()
      ensures ev == old(ev) + [e] && old(run) <= run
    {
      LogRuns.RunSnoc(c, run, ev, e);
      ev, run := ev + [e], run + [Now()];
    }

    /** One turn of begin_op's waiting loop; `admitted` is false where it sleeps. */
    method BeginOp() returns (admitted: bool)
      requires Valid() && !InRecovery(phase)
      modifies this
      ensures old(run) <= run
      ensures Valid()
      ensures admitted <==> !old(committing) && |lh| + (old(outstanding) + 1) * MAXOPBLOCKS <= LOGSIZE
      ensures outstanding == old(outstanding) + (if admitted then 1 else 0)
      ensures ev == old(ev) + (if admitted then [LogMachine.BeginOp] else [])
      ensures disk == old(disk) && mem == old(mem) && lh == old(lh) && phase == old(phase)
    {
      if committing || |lh| + (outstanding + 1) * MAXOPBLOCKS > LOGSIZE {
        admitted := false;
      } else {
        ghost var before := Now();
        outstanding := outstanding + 1;
        ops := ops + [0];
        Record(LogMachine.BeginOp, before);
        admitted := true;
      }
    }

    /** log_write, after the caller has put `data` in the buffer of block b. */
    method LogWrite(ghost op: nat, b: int, data: Block) returns (ok: bool)
      requires Valid() && op < |ops| && c.Home(b)
      modifies this
      ensures old(run) <= run
      ensures Valid() && phase == old(phase) && disk == old(disk)
      ensures ok <==> !LogWritePanics(c, old(Now()))
      ensures !ok ==> Now() == old(Now()) && ev == old(ev)
      ensures ok ==> mem == old(mem)[b := data] && ev == old(ev) + [LogMachine.LogWrite(op, b, data)]
      ensures ok ==> lh == if b in old(lh) then old(lh) else old(lh) + [b]
    {
      hide LogRuns.IsRun;
      if |lh| >= LOGSIZE || |lh| >= c.size - 1 || outstanding < 1 {
        ok := false;
        return;
      }
      ghost var before := Now();
      var i := 0;
      while i < |lh| && lh[i] != b
        invariant 0 <= i <= |lh| && b !in lh[..i]
      {
        i := i + 1;
      }
      mem := mem[b := data];
      if i == |lh| {
        assert lh[..i] == lh;
        lh := lh + [b];
        pins := pins + {b};
        ops := ops[op := ops[op] + 1];
      } else {
        assert lh[i := b] == lh;
        lh := lh[i := b];
      }
      Record(LogMachine.LogWrite(op, b, data), before);
      ok := true;
    }

    /** A running operation changes the buffer of block b and releases it without log_write. */
    method Scribble(b: int, data: Block)
      requires Valid() && c.Home(b) && outstanding >= 1
      modifies this
      ensures old(run) <= run && Valid()
      ensures disk == old(disk) && lh == old(lh) && mem == old(mem)[b := data] && phase == old(phase)
      ensures ev == old(ev) + [LogMachine.Scribble(b, data)]
    {
      hide LogRuns.IsRun;
      ghost var before := Now();
      mem := mem[b := data];
      Record(LogMachine.Scribble(b, data), before);
    }

    /** The cache recycles the buffer of an unpinned block. */
    method Recycle(b: int)
      requires Valid() && 0 <= b < c.nblocks && b !in pins
      modifies this
      ensures old(run) <= run && Valid()
      ensures disk == old(disk) && lh == old(lh) && mem == old(mem)[b := disk[b]] && phase == old(phase)
      ensures ev == old(ev) + [Evict(b)]
    {
      hide LogRuns.IsRun;
      ghost var before := Now();
      mem := mem[b := disk[b]];
      Record(Evict(b), before);
    }

    /** One turn of write_log. */
    method WriteLogOne(tail: nat)
      requires Valid() && tail < |lh| && phase == WritingLog(tail)
      modifies this
      ensures old(run) <= run
      ensures Valid() && lh == old(lh) && phase == WritingLog(tail + 1)
      ensures ev == old(ev) + [WriteLogBlock]
    {
      hide LogRuns.IsRun, Enabled, Apply;
      WriteLogTurn(c, run, ev, tail);
      ghost var before := Now();
      var data := mem[lh[tail]];
      disk := disk[c.start + tail + 1 := data];
      mem := mem[c.start + tail + 1 := data];
      phase := WritingLog(tail + 1);
      Record(WriteLogBlock, before);
    }

    /** Copies the modified buffers to the log. */
    method WriteLog()
      requires Valid() && phase == WritingLog(0)
      modifies this
      ensures old(run) <= run
      ensures Valid() && phase == WritingLog(|lh|) && lh == old(lh)
      ensures ev == old(ev) + Repeat(WriteLogBlock, |lh|)
    {
      hide Valid;
      var tail := 0;
      while tail < |lh|
        invariant 0 <= tail <= |lh| && lh == old(lh)
        invariant Valid() && phase == WritingLog(tail) && old(run) <= run
        invariant ev == old(ev) + Repeat(WriteLogBlock, tail)
      {
        WriteLogOne(tail);
        RepeatSnoc(WriteLogBlock, tail);
        tail := tail + 1;
      }
    }

    /** The block write_head builds over the old header buffer. */
    method BuildHeader() returns (b: Block)
      requires |lh| <= LOGSIZE && c.start < |mem| && LOGSIZE < |mem[c.start].words|
      ensures b == Encode(lh, mem[c.start])
    {
      var w := mem[c.start].words;
      w := w[0 := |lh|];
      var i := 0;
      while i < |lh|
        invariant 0 <= i <= |lh| && |w| == |mem[c.start].words|
        invariant w == [|lh|] + lh[..i] + mem[c.start].words[1 + i..]
      {
        w := w[1 + i := lh[i]];
        i := i + 1;
      }
      assert lh[..i] == lh;
      b := Block(w);
    }

    /** The write after which the transaction is committed. */
    method WriteHeadCommit()
      requires Valid() && phase == WritingLog(|lh|)
      modifies this
      ensures old(run) <= run
      ensures Valid() && phase == Installing(0) && lh == old(lh)
      ensures ev == old(ev) + [WriteHead]
    {
      hide LogRuns.IsRun, Encode, Inv;
      LogRuns.RunInv(c, run, ev, |ev|);
      HeaderRoom(c, Now());
      ghost var before := Now();
      var b := BuildHeader();
      disk, mem := disk[c.start := b], mem[c.start := b];
      phase := Installing(0);
      Record(WriteHead, before);
    }

    /** lh.n = 0 followed by write_head. */
    method ClearLog()
      requires Valid() && (phase == Installing(|lh|) || phase == Recovering(|lh|))
      modifies this
      ensures old(run) <= run
      ensures Valid() && lh == []
      ensures phase == if old(phase).Installing? then Cleared else Idle
      ensures ev == old(ev) + [if old(phase).Installing? then ClearHead else RecoverClear]
    {
      ghost var before := Now();
      ghost var e := if phase.Installing? then ClearHead else RecoverClear;
      hide LogRuns.IsRun, Encode, Enabled, Apply;
      ClearEnabled(c, run, ev, e);
      lh := [];
      var b := BuildHeader();
      disk, mem := disk[c.start := b], mem[c.start := b];
      phase := if before.phase.Installing? then Cleared else Idle;
      Record(e, before);
    }

    /** One turn of install_trans. */
    method InstallOne(tail: nat, recovering: bool)
      requires Valid() && tail < |lh|
      requires phase == if recovering then Recovering(tail) else Installing(tail)
      modifies this
      ensures old(run) <= run
      ensures Valid() && lh == old(lh)
      ensures phase == if recovering then Recovering(tail + 1) else Installing(tail + 1)
      ensures ev == old(ev) + [if recovering then RecoverBlock else InstallBlock]
    {
      hide LogRuns.IsRun, Enabled, Apply;
      ghost var before := Now();
      InstallTurn(c, run, ev, tail, recovering);
      var data := mem[c.start + tail + 1];
      disk, mem := disk[lh[tail] := data], mem[lh[tail] := data];
      if recovering {
        phase := Recovering(tail + 1);
        Record(RecoverBlock, before);
      } else {
        pins := pins - {lh[tail]};
        phase := Installing(tail + 1);
        Record(InstallBlock, before);
      }
    }

    /** Copies the logged blocks to their home locations. */
    method InstallTrans(recovering: bool)
      requires Valid() && phase == if recovering then Recovering(0) else Installing(0)
      modifies this
      ensures old(run) <= run
      ensures Valid() && lh == old(lh)
      ensures phase == if recovering then Recovering(|lh|) else Installing(|lh|)
      ensures ev == old(ev) + Repeat(if recovering then RecoverBlock else InstallBlock, |lh|)
    {
      hide Valid;
      ghost var e := if recovering then RecoverBlock else InstallBlock;
      var tail := 0;
      while tail < |lh|
        invariant 0 <= tail <= |lh| && lh == old(lh) && Valid() && old(run) <= run
        invariant phase == if recovering then Recovering(tail) else Installing(tail)
        invariant ev == old(ev) + Repeat(e, tail)
      {
        InstallOne(tail, recovering);
        RepeatSnoc(e, tail);
        tail := tail + 1;
      }
    }

    method Commit()
      requires Valid() && phase == if |lh| > 0 then WritingLog(0) else Cleared
      modifies this
      ensures old(run) <= run
      ensures Valid() && phase == Cleared && lh == []
      ensures ev == old(ev) + CommitEvents(|old(lh)|)
    {
      hide LogRuns.IsRun, Repeat, CommitEvents, Shaped;
      ghost var n := |lh|;
      if |lh| > 0 {
        WriteLog();
        ghost var r1 := run;
        WriteHeadCommit();
        PrefixTrans(old(run), r1, run);
        ghost var r2 := run;
        InstallTrans(false);
        PrefixTrans(old(run), r2, run);
        ghost var r3 := run;
        ClearLog();
        PrefixTrans(old(run), r3, run);
        CommitSequence(old(ev), n);
      } else {
        assert CommitEvents(0) == [] by { NoCommitEvents(); }
      }
    }

    /** The first half of end_op, under the lock. */
    method LeaveOp(op: nat) returns (doCommit: bool)
      requires Valid() && phase.Idle? && op < |ops|
      modifies this
      ensures old(run) <= run
      ensures Valid() && outstanding == old(outstanding) - 1 && doCommit == (outstanding == 0)
      ensures phase == if !doCommit then Idle else if |lh| > 0 then WritingLog(0) else Cleared
      ensures ev == old(ev) + [LogMachine.EndOp(op)]
      ensures lh == old(lh) && disk == old(disk) && mem == old(mem)
    {
      hide LogRuns.IsRun;
      ghost var before := Now();
      outstanding := outstanding - 1;
      ops := ops[..op] + ops[op + 1..];
      doCommit := outstanding == 0;
      if doCommit {
        committing := true;
        phase := if |lh| > 0 then WritingLog(0) else Cleared;
      }
      Record(LogMachine.EndOp(op), before);
    }

    /** end_op, including the commit that the last operation runs. */
    method EndOp(op: nat)
      requires Valid() && phase.Idle? && op < |ops|
      modifies this
      ensures old(run) <= run
      ensures Valid() && phase == Idle
      ensures old(outstanding) != 1 ==>
                ev == old(ev) + [LogMachine.EndOp(op)] && lh == old(lh) && disk == old(disk)
      ensures old(outstanding) == 1 ==>
                ev == old(ev) + [LogMachine.EndOp(op)] + CommitEvents(|old(lh)|) + [EndCommit]
      ensures old(outstanding) == 1 ==> lh == [] && HomeView(c, disk) == old(Overlay(c, disk, mem, lh))
      ensures HomeView(c, mem) == old(HomeView(c, mem))
    {
      hide LogRuns.IsRun, CommitEvents, HomeView, Overlay;
      var doCommit := LeaveOp(op);
      if doCommit {
        Commit();
        ghost var before := Now();
        committing := false;
        phase := Idle;
        Record(EndCommit, before);
        assert run[|old(ev)|] == old(run)[|old(ev)|];
        CommitEffect(c, run, ev, |old(ev)|, |old(lh)|, op);
      }
    }

    /** read_head's loop over the header buffer. */
    method HeaderNumbers() returns (numbers: seq<int>)
      requires c.start < |mem| && HeaderBlock(mem[c.start])
      ensures numbers == Decode(mem[c.start])
    {
      var w := mem[c.start].words;
      var n := w[0];
      numbers := [];
      var i := 0;
      while i < n
        invariant 0 <= i && (if 0 < n then i <= n else i == 0)
        invariant i <= LOGSIZE && numbers == w[1..1 + i]
      {
        numbers := numbers + [w[1 + i]];
        i := i + 1;
      }
    }

    method ReadHead()
      requires Valid() && phase.Boot?
      modifies this
      ensures old(run) <= run
      ensures Valid() && phase == Recovering(0) && disk == old(disk)
      ensures lh == Decode(disk[c.start])
      ensures ev == old(ev) + [LogMachine.ReadHead]
    {
      ghost var before := Now();
      BootMemory(c, run, ev);
      hide LogRuns.IsRun, Inv;
      lh := HeaderNumbers();
      phase := Recovering(0);
      Record(LogMachine.ReadHead, before);
    }

    /** Run at every boot. */
    method RecoverFromLog()
      requires Valid() && phase.Boot?
      modifies this
      ensures old(run) <= run
      ensures Valid() && phase == Idle && lh == []
      ensures ev == old(ev) + [LogMachine.ReadHead]
                    + Repeat(RecoverBlock, |Decode(old(disk)[c.start])|) + [RecoverClear]
      ensures HomeView(c, disk) == old(Replay(c, disk)) && mem == disk
    {
      hide LogRuns.IsRun, Repeat, Decode, HomeView, Replay;
      ghost var k := |ev|;
      ReadHead();
      InstallTrans(true);
      ClearLog();
      assert run[k] == old(run)[k];
      RecoverEffect(c, run, ev, k, |Decode(old(disk)[c.start])|);
    }
  }

  // ---------------------------------------------------------------------------------
  // Reading the effect of a method off the run it recorded
  // ---------------------------------------------------------------------------------

  lemma ClearEnabled(c: Config, run: seq<State>, ev: seq<Event>, e: Event)
    requires LogRuns.IsRun(c, run, ev)
    requires var s := run[|ev|]; s.phase == Installing(|s.lh|) || s.phase == Recovering(|s.lh|)
    requires e == if run[|ev|].phase.Installing? then ClearHead else RecoverClear
    ensures Enabled(c, run[|ev|], e) && Shaped(c, run[|ev|]) && HeaderFits(c, run[|ev|])
    ensures var s := run[|ev|]; var b := Encode([], s.mem[c.start]);
            Apply(c, s, e) == s.(disk := s.disk[c.start := b], mem := s.mem[c.start := b], lh := [],
                                 phase := if s.phase.Installing? then Cleared else Idle)
  {
    hide Encode, Decode, GoodHeader, Logged, Installed, PinsAre;
    LogRuns.RunInv(c, run, ev, |ev|);
    HeaderRoom(c, run[|ev|]);
  }

  lemma HeaderRoom(c: Config, s: State)
    requires Inv(c, s) && (s.phase.WritingLog? || s.phase.Installing? || s.phase.Recovering?)
    ensures Shaped(c, s) && HeaderFits(c, s)
  {
    hide Decode, Logged, Installed;
    assert c.start !in s.lh;
  }

  lemma BootMemory(c: Config, run: seq<State>, ev: seq<Event>)
    requires LogRuns.IsRun(c, run, ev) && run[|ev|].phase.Boot?
    ensures Shaped(c, run[|ev|]) && run[|ev|].mem[c.start] == run[|ev|].disk[c.start]
    ensures HeaderBlock(run[|ev|].mem[c.start])
  {
    LogRuns.RunInv(c, run, ev, |ev|);
  }

  lemma TailEnabled(c: Config, run: seq<State>, ev: seq<Event>, t: nat)
    requires LogRuns.IsRun(c, run, ev) && t < |run[|ev|].lh|
    ensures TailInRange(c, run[|ev|], t) && Shaped(c, run[|ev|])
  {
    hide Inv, Init, Enabled, Apply;
    LogRuns.RunInv(c, run, ev, |ev|);
    InvShaped(c, run[|ev|]);
    assert c.Home(run[|ev|].lh[t]);
  }

  lemma WriteLogTurn(c: Config, run: seq<State>, ev: seq<Event>, t: nat)
    requires LogRuns.IsRun(c, run, ev) && t < |run[|ev|].lh| && run[|ev|].phase == WritingLog(t)
    ensures TailInRange(c, run[|ev|], t) && Shaped(c, run[|ev|]) && Enabled(c, run[|ev|], WriteLogBlock)
    ensures var s := run[|ev|]; var data := s.mem[s.lh[t]];
            Apply(c, s, WriteLogBlock) ==
            s.(disk := s.disk[c.start + t + 1 := data], mem := s.mem[c.start + t + 1 := data],
                phase := WritingLog(t + 1))
  {
    TailEnabled(c, run, ev, t);
    hide LogRuns.IsRun;
  }

  lemma InstallTurn(c: Config, run: seq<State>, ev: seq<Event>, t: nat, recovering: bool)
    requires LogRuns.IsRun(c, run, ev) && t < |run[|ev|].lh|
    requires run[|ev|].phase == if recovering then Recovering(t) else Installing(t)
    ensures TailInRange(c, run[|ev|], t) && Shaped(c, run[|ev|])
    ensures var e := if recovering then RecoverBlock else InstallBlock;
            var s := run[|ev|]; var data := s.mem[c.start + t + 1];
            && Enabled(c, s, e)
            && Apply(c, s, e) == s.(disk := s.disk[s.lh[t] := data], mem := s.mem[s.lh[t] := data],
                                    pins := if recovering then s.pins else s.pins - {s.lh[t]},
                                    phase := if recovering then Recovering(t + 1) else Installing(t + 1))
  {
    TailEnabled(c, run, ev, t);
    hide LogRuns.IsRun;
  }

  predicate CommitEvent(e: Event) {
    e.WriteLogBlock? || e.WriteHead? || e.InstallBlock? || e.ClearHead? || e.EndCommit?
  }

  /** Where a commit is: before its header write nothing durable has moved, after it the listed blocks have. */
  ghost predicate Committing(c: Config, s0: State, s: State, head: bool)
    requires Shaped(c, s0) && Shaped(c, s)
  {
    && Abs(c, s).pending == Abs(c, s0).pending
    && if head then Abs(c, s).durable == Moved(Abs(c, s0)) && !s.phase.WritingLog?
       else (Abs(c, s).durable == Abs(c, s0).durable && Abs(c, s).listed == Abs(c, s0).listed && !s.phase.Installing?)
  }

  lemma CommittingStep(c: Config, s0: State, s: State, e: Event, head: bool)
    requires Shaped(c, s0) && Inv(c, s) && Shaped(c, s) && Enabled(c, s, e)
    requires CommitEvent(e) && Committing(c, s0, s, head)
    ensures Inv(c, Apply(c, s, e)) && Shaped(c, Apply(c, s, e))
    ensures Committing(c, s0, Apply(c, s, e), head || e.WriteHead?)
  {
    hide Inv, Abs, Bwrite, Encode;
    StepRefines(c, s, e);
    InvShaped(c, Apply(c, s, e));
  }

  lemma EndOpCommitting(c: Config, s: State, op: nat)
    requires Inv(c, s) && Enabled(c, s, LogMachine.EndOp(op))
    ensures Shaped(c, s) && Inv(c, Apply(c, s, LogMachine.EndOp(op))) && Shaped(c, Apply(c, s, LogMachine.EndOp(op)))
    ensures Committing(c, s, Apply(c, s, LogMachine.EndOp(op)), false)
  {
    hide Inv, Abs;
    StepRefines(c, s, LogMachine.EndOp(op));
    InvShaped(c, s);
    InvShaped(c, Apply(c, s, LogMachine.EndOp(op)));
  }

  lemma {:induction false} CommitKeeps(c: Config, run: seq<State>, ev: seq<Event>, k: nat, j: nat)
    requires LogRuns.IsRun(c, run, ev) && k < j <= |ev| && ev[k].EndOp?
    requires forall i :: k < i < j ==> CommitEvent(ev[i])
    ensures Shaped(c, run[k]) && Inv(c, run[j]) && Shaped(c, run[j])
    ensures Committing(c, run[k], run[j], WriteHead in ev[k..j])
  {
    hide Inv, Enabled, Apply, Committing, Init, CommitEvent;
    assert run[j] == Apply(c, run[j - 1], ev[j - 1]);
    assert ev[k..j] == ev[k..j - 1] + [ev[j - 1]];
    if j == k + 1 {
      LogRuns.RunInv(c, run, ev, k);
      assert ev[k..j] == [ev[k]];
      EndOpCommitting(c, run[k], ev[k].op);
    } else {
      CommitKeeps(c, run, ev, k, j - 1);
      CommittingStep(c, run[k], run[j - 1], ev[j - 1], WriteHead in ev[k..j - 1]);
    }
  }

  lemma CommitKinds(seg: seq<Event>, op: nat, n: nat)
    requires seg == [LogMachine.EndOp(op)] + CommitEvents(n) + [EndCommit]
    ensures seg[0].EndOp? && forall i :: 0 < i < |seg| ==> CommitEvent(seg[i])
    ensures WriteHead in seg <==> n > 0
  {
    if n > 0 { assert seg[n + 1] == WriteHead; }
  }

  lemma CommitEffect(c: Config, run: seq<State>, ev: seq<Event>, k: nat, n: nat, op: nat)
    requires LogRuns.IsRun(c, run, ev) && k < |ev| && n == |run[k].lh|
    requires ev[k..] == [LogMachine.EndOp(op)] + CommitEvents(n) + [EndCommit]
    requires run[k].phase.Idle? && run[|ev|].phase.Idle?
    ensures Shaped(c, run[k]) && Shaped(c, run[|ev|])
    ensures HomeView(c, run[|ev|].disk) == Overlay(c, run[k].disk, run[k].mem, run[k].lh)
    ensures HomeView(c, run[|ev|].mem) == HomeView(c, run[k].mem)
  {
    hide Enabled, Apply, Inv, HomeView, Replay, Init, Overlay, Moved, CommitEvents;
    var seg := ev[k..];
    CommitKinds(seg, op, n);
    forall i | k < i < |ev| ensures CommitEvent(ev[i]) { assert ev[i] == seg[i - k]; }
    assert ev[k] == seg[0] && ev[k..|ev|] == seg;
    CommitKeeps(c, run, ev, k, |ev|);
    LogRuns.RunInv(c, run, ev, k);
    EmptyHeader(c, run[k]);
    EmptyHeader(c, run[|ev|]);
    MovedIsOverlay(c, run[k]);
    if n == 0 { OverlaySelf(c, run[k].disk, run[k].mem, []); }
  }

  lemma RecoverEffect(c: Config, run: seq<State>, ev: seq<Event>, k: nat, n: nat)
    requires LogRuns.IsRun(c, run, ev) && k <= |ev|
    requires ev[k..] == [LogMachine.ReadHead] + Repeat(RecoverBlock, n) + [RecoverClear]
    requires run[k].phase.Boot? && run[|ev|].phase.Idle?
    ensures Shaped(c, run[k]) && Shaped(c, run[|ev|])
    ensures HomeView(c, run[|ev|].disk) == Replay(c, run[k].disk) && run[|ev|].mem == run[|ev|].disk
  {
    hide Enabled, Apply, HomeView, Replay;
    forall i | k <= i < |ev| ensures LogRuns.RecoveryEvent(ev[i]) {
      assert ev[i] == ev[k..][i - k];
    }
    LogRuns.RecoveredAt(c, run, ev, k, |ev|);
  }
}
