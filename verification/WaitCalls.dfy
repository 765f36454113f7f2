/**
  What one call of fork, exit or wait does, whatever the other processes do meanwhile: the
  life of a process from fork to the wait that frees it, whose child it is, and what a
  wait that returns, or sleeps, has seen.
 */
module WaitCalls {
  import opened WaitExit

  ghost predicate HasChild(s: State, p: nat) {
    exists c :: 0 <= c < |s.parent| && s.parent[c] == p
  }

  ghost predicate HasZombie(s: State, p: nat)
    requires Shaped(s)
  {
    exists c :: 0 <= c < |s.parent| && s.parent[c] == p && s.st[c].Zombie?
  }

  // ---------------------------------------------------------------------------------
  // Invariant
  // ---------------------------------------------------------------------------------

  /** havekids is set exactly when the scan has passed a child of p. */
  ghost predicate KidsAt(s: State, p: nat)
    requires Shaped(s) && p < |s.pc|
  {
    s.pc[p].WaitScan? ==>
      (s.pc[p].havekids <==> exists c :: 0 <= c < |s.pc| && c < s.pc[p].next && s.parent[c] == p)
  }

  /** fork has made p the parent. */
  ghost predicate AdoptedAt(s: State, p: nat)
    requires Shaped(s) && p < |s.pc|
  {
    s.pc[p].ForkLeave? || s.pc[p].ForkStart? ==> s.pc[p].child < |s.pc| && s.parent[s.pc[p].child] == p
  }

  /** Whether an exiting process may still be the parent of c. */
  predicate MayParent(pc: Pc, c: nat) {
    match pc
    case Reparent(j) => j <= c
    case WakeInit(j, _) => j < c
    case _ => !pc.WakeParent? && !pc.ExitLock? && !pc.ExitMark? && !AfterExit(pc)
  }

  ghost predicate GivenAt(s: State, p: nat, c: nat)
    requires Shaped(s) && p < |s.pc| && c < |s.pc|
  {
    s.parent[c] == p ==> MayParent(s.pc[p], c)
  }

  ghost predicate CallInv(s: State) {
    && Shaped(s)
    && (forall p :: 0 <= p < |s.pc| ==> KidsAt(s, p))
    && (forall p :: 0 <= p < |s.pc| ==> AdoptedAt(s, p))
    && (forall p, c :: 0 <= p < |s.pc| && 0 <= c < |s.pc| ==> GivenAt(s, p, c))
  }

  /** What the step of p that changes parents does to them. */
  ghost predicate Parents(s: State, p: nat, s': State) {
    && Shaped(s) && Shaped(s') && |s'.pc| == |s.pc| && p < |s.pc|
    && forall c :: 0 <= c < |s.pc| && s'.parent[c] != s.parent[c] ==>
         || (s.pc[p] == ForkAdopt(c) && s'.parent[c] == p)
         || (s.pc[p] == Reparent(c) && s.parent[c] == p && s'.parent[c] == INIT)
         || (s.pc[p].WaitScan? && s.pc[p].next == c && s.parent[c] == p && s.st[c].Zombie?
             && s'.st[c].Unused? && s'.parent[c] == -1)
  }

  lemma ParentsWait(s: State, p: nat)
    requires Shaped(s) && p < |s.pc| && InWait(s.pc[p])
    ensures Parents(s, p, WaitStep(s, p))
  {}

  lemma ParentsExit(s: State, p: nat)
    requires Shaped(s) && p < |s.pc| && !InWait(s.pc[p]) && !InFork(s.pc[p])
    ensures Parents(s, p, ExitStep(s, p))
  {}

  lemma ParentsFork(s: State, p: nat)
    requires Shaped(s) && p < |s.pc| && InFork(s.pc[p]) && s.pc[p].child < |s.pc|
    ensures Parents(s, p, ForkStep(s, p))
  {}

  lemma ParentsAny(s: State, e: Event)
    requires LockInv(s) && StatusInv(s) && Enabled(s, e)
    ensures Parents(s, e.p, Apply(s, e))
  {
    hide WaitStep, ExitStep, ForkStep, StepEnabled, InWait, InFork, LockInv;
    assert StatusAt(s, e.p);
    hide StatusAt;
    if !e.Step? {
    } else if InWait(s.pc[e.p]) {
      ParentsWait(s, e.p);
    } else if InFork(s.pc[e.p]) {
      ParentsFork(s, e.p);
    } else {
      ParentsExit(s, e.p);
    }
  }

  /** Only the holder of wait_lock changes a parent. */
  lemma ParentsKept(s: State, e: Event, q: nat)
    requires LockInv(s) && StatusInv(s) && Enabled(s, e) && q < |s.pc| && q != e.p && HoldsWaitLock(s.pc[q])
    ensures Shaped(Apply(s, e)) && Apply(s, e).parent == s.parent && |Apply(s, e).pc| == |s.pc|
    ensures Apply(s, e).pc[q] == s.pc[q] || Apply(s, e).pc[q].Outside?
  {
    hide Apply, StatusInv, Enabled;
    ParentsAny(s, e);
    assert LocksAt(s, q) && LocksAt(s, e.p);
    FactsAny(s, e, q);
  }

  lemma KidsWait(s: State, p: nat)
    requires Shaped(s) && p < |s.pc| && InWait(s.pc[p]) && KidsAt(s, p)
    ensures var s' := WaitStep(s, p); Shaped(s') && |s'.pc| == |s.pc| && KidsAt(s', p)
  {
    var s' := WaitStep(s, p);
    if s.pc[p].WaitScan? && s'.pc[p].WaitScan? {
      var k := s.pc[p].next;
      assert s'.parent == s.parent && s'.pc[p].next == k + 1;
      if s'.pc[p].havekids && !s.pc[p].havekids { assert s'.parent[k] == p; }
    }
  }

  lemma KidsSelf(s: State, e: Event)
    requires StatusInv(s) && Enabled(s, e) && KidsAt(s, e.p)
    ensures Shaped(Apply(s, e)) && |Apply(s, e).pc| == |s.pc| && KidsAt(Apply(s, e), e.p)
  {
    hide WaitStep, ForkStep, ExitStep, KidsAt;
    if !e.Step? {
      KidsStart(s, e);
    } else if InWait(s.pc[e.p]) {
      KidsWait(s, e.p);
    } else if InFork(s.pc[e.p]) {
      KidsFork(s, e.p);
    } else {
      KidsExit(s, e.p);
    }
  }

  lemma KidsStart(s: State, e: Event)
    requires Enabled(s, e) && !e.Step? && KidsAt(s, e.p)
    ensures Shaped(Apply(s, e)) && |Apply(s, e).pc| == |s.pc| && KidsAt(Apply(s, e), e.p)
  {}

  lemma KidsFork(s: State, p: nat)
    requires Shaped(s) && p < |s.pc| && InFork(s.pc[p]) && StepEnabled(s, p)
    ensures var s' := ForkStep(s, p); Shaped(s') && |s'.pc| == |s.pc| && KidsAt(s', p)
  {}

  lemma KidsExit(s: State, p: nat)
    requires Shaped(s) && p < |s.pc| && !InWait(s.pc[p]) && !InFork(s.pc[p])
    ensures var s' := ExitStep(s, p); Shaped(s') && |s'.pc| == |s.pc| && KidsAt(s', p)
  {}

  lemma KidsStep(s: State, e: Event, q: nat)
    requires LockInv(s) && StatusInv(s) && Enabled(s, e) && q < |s.pc| && KidsAt(s, q)
    ensures Shaped(Apply(s, e)) && |Apply(s, e).pc| == |s.pc| && KidsAt(Apply(s, e), q)
  {
    hide Apply, Enabled, LockInv, StatusInv;
    FactsAny(s, e, q);
    if q == e.p {
      KidsSelf(s, e);
    } else if HoldsWaitLock(s.pc[q]) {
      ParentsKept(s, e, q);
    }
  }

  lemma AdoptedFork(s: State, p: nat, q: nat)
    requires Shaped(s) && p < |s.pc| && q < |s.pc| && InFork(s.pc[p]) && StepEnabled(s, p)
    requires StatusAt(s, p) && StatusAt(s, q) && ForksApart(s, p, q) && AdoptedAt(s, q)
    ensures var s' := ForkStep(s, p); Shaped(s') && |s'.pc| == |s.pc| && AdoptedAt(s', q)
  {}

  lemma AdoptedStart(s: State, e: Event, q: nat)
    requires StatusInv(s) && Enabled(s, e) && !e.Step? && q < |s.pc| && AdoptedAt(s, q)
    ensures Shaped(Apply(s, e)) && |Apply(s, e).pc| == |s.pc| && AdoptedAt(Apply(s, e), q)
  {
    hide StatusInv;
  }

  lemma AdoptedStep(s: State, e: Event, q: nat)
    requires LockInv(s) && StatusInv(s) && Enabled(s, e) && q < |s.pc| && AdoptedAt(s, q)
    ensures Shaped(Apply(s, e)) && |Apply(s, e).pc| == |s.pc| && AdoptedAt(Apply(s, e), q)
  {
    hide WaitStep, ExitStep, ForkStep, StepEnabled, InWait, LockInv;
    var p := e.p;
    assert StatusAt(s, p) && StatusAt(s, q) && ForksApart(s, p, q);
    ParentsAny(s, e);
    if !e.Step? {
      AdoptedStart(s, e, q);
    } else if InWait(s.pc[p]) {
      WaitShape(s, p);
      WaitOwn(s, p);
      hide InFork;
      PcKinds(WaitStep(s, p).pc[p]);
      NotForking(WaitStep(s, p).pc[p]);
      NotForking(s.pc[q]);
    } else if InFork(s.pc[p]) {
      AdoptedFork(s, p, q);
    } else {
      hide InFork;
      ExitShape(s, p);
      ExitOwn(s, p);
      PcKinds(ExitStep(s, p).pc[p]);
      PcAll(s.pc[p]);
      NotForking(ExitStep(s, p).pc[p]);
      NotForking(s.pc[q]);
    }
  }

  lemma NotForking(pc: Pc)
    ensures pc.ForkLeave? || pc.ForkStart? ==> InFork(pc)
  {}

  lemma GivenExit(s: State, p: nat, c: nat)
    requires Shaped(s) && p < |s.pc| && c < |s.pc| && !InWait(s.pc[p]) && !InFork(s.pc[p])
    requires GivenAt(s, p, c) && (InExit(s.pc[p]) ==> p != INIT)
    ensures var s' := ExitStep(s, p); Shaped(s') && |s'.pc| == |s.pc| && GivenAt(s', p, c)
  {
    hide InWait, InFork;
  }

  lemma GivenSelf(s: State, e: Event, c: nat)
    requires StatusInv(s) && Enabled(s, e) && c < |s.pc| && GivenAt(s, e.p, c)
    ensures Shaped(Apply(s, e)) && |Apply(s, e).pc| == |s.pc| && GivenAt(Apply(s, e), e.p, c)
  {
    hide WaitStep, ExitStep, ForkStep, StepEnabled, InWait;
    var p := e.p;
    assert StatusAt(s, p);
    hide StatusInv;
    if !e.Step? {
      hide StatusAt;
    } else if InWait(s.pc[p]) {
      WaitOwn(s, p);
      PcKinds(WaitStep(s, p).pc[p]);
      Parental(WaitStep(s, p).pc[p], c);
    } else if InFork(s.pc[p]) {
      ForkGives(s, p);
      Parental(ForkStep(s, p).pc[p], c);
    } else {
      GivenExit(s, p, c);
    }
  }

  lemma ForkGives(s: State, p: nat)
    requires Shaped(s) && p < |s.pc| && InFork(s.pc[p]) && StatusAt(s, p) && StepEnabled(s, p)
    ensures var s' := ForkStep(s, p);
            Shaped(s') && |s'.pc| == |s.pc| && !AfterExit(s'.pc[p]) && !InExit(s'.pc[p])
  {}

  lemma Parental(pc: Pc, c: nat)
    ensures !InExit(pc) && !AfterExit(pc) ==> MayParent(pc, c)
    ensures pc.Outside? ==> MayParent(pc, c)
  {}

  lemma GivenStep(s: State, e: Event, q: nat, c: nat)
    requires LockInv(s) && StatusInv(s) && Enabled(s, e) && q < |s.pc| && c < |s.pc| && GivenAt(s, q, c)
    ensures Shaped(Apply(s, e)) && |Apply(s, e).pc| == |s.pc| && GivenAt(Apply(s, e), q, c)
  {
    hide Apply, Enabled, LockInv, MayParent;
    FactsAny(s, e, q);
    ParentsAny(s, e);
    assert StatusAt(s, INIT) && StatusAt(s, q);
    if q == e.p {
      GivenSelf(s, e, c);
    } else {
      var s' := Apply(s, e);
      hide StatusInv;
      Parental(s'.pc[q], c);
      Parental(s.pc[q], c);
      if s'.parent[c] == q && s.parent[c] != q { assert q == INIT; }
    }
  }

  lemma CallStep(s: State, e: Event)
    requires LockInv(s) && StatusInv(s) && CallInv(s) && Enabled(s, e)
    ensures CallInv(Apply(s, e))
  {
    hide Apply, LockInv, StatusInv, KidsAt, AdoptedAt, GivenAt;
    var s' := Apply(s, e);
    KidsStep(s, e, e.p);
    forall p | 0 <= p < |s'.pc| ensures KidsAt(s', p) { KidsStep(s, e, p); }
    forall p | 0 <= p < |s'.pc| ensures AdoptedAt(s', p) { AdoptedStep(s, e, p); }
    forall p, c | 0 <= p < |s'.pc| && 0 <= c < |s'.pc| ensures GivenAt(s', p, c) { GivenStep(s, e, p, c); }
  }

  lemma {:induction false} RunCalls(run: seq<State>, ev: seq<Event>, i: nat)
    requires IsRun(run, ev) && i <= |ev|
    ensures Inv(run[i]) && CallInv(run[i])
  {
    RunInv(run, ev, i);
    if i > 0 {
      hide Apply, Enabled, CallInv, Init;
      RunCalls(run, ev, i - 1);
      CallStep(run[i - 1], ev[i - 1]);
    }
  }

  // ---------------------------------------------------------------------------------
  // wait
  // ---------------------------------------------------------------------------------

  /** wait frees the zombie c, a child of p that has left the CPU for good, and nothing else. */
  ghost predicate Reaps(s: State, p: nat, s': State, c: nat) {
    && Shaped(s) && Shaped(s') && |s'.pc| == |s.pc| && c < |s.pc|
    && s.parent[c] == p && s.st[c].Zombie? && s.pc[c].Dead?
    && s'.st == s.st[c := Unused] && s'.parent == s.parent[c := -1] && s'.killed == s.killed[c := false]
  }

  ghost predicate ReapsOne(s: State, p: nat, s': State) {
    exists c: nat :: Reaps(s, p, s', c)
  }

  /** Everything the end of a scan of p may be: what a zombie, a child or a kill leads to. */
  ghost predicate ScanEnds(s: State, p: nat, e: Event, s': State) {
    && Shaped(s) && Shaped(s') && |s'.pc| == |s.pc| && p < |s.pc| && e.p == p
    && (s'.pc[p].WaitLeave? || s'.pc[p].Dozing?)
    && (s'.pc[p].Dozing? <==> HasChild(s, p) && !HasZombie(s, p) && !s.killed[p])
    && (HasZombie(s, p) && e.Step? ==> ReapsOne(s, p, s'))
    && (!HasZombie(s, p) || e.CopyoutFails? ==> s'.st == s.st && s'.parent == s.parent && s'.killed == s.killed)
    && (e.CopyoutFails? ==> HasZombie(s, p))
  }

  /** Only a fork that starts q, or q itself, moves q. */
  lemma OwnMove(s: State, e: Event, q: nat)
    requires Inv(s) && Enabled(s, e) && q < |s.pc| && s.st[q].Live?
    ensures Shaped(Apply(s, e)) && |Apply(s, e).pc| == |s.pc|
    ensures Apply(s, e).pc[q] != s.pc[q] ==> e.p == q && !e.Kill?
  {
    hide WaitStep, ExitStep, InWait, StepEnabled, LockInv, WakeInv;
    var p := e.p;
    assert StatusAt(s, p);
    hide StatusInv;
    if !e.Step? {
      hide StatusAt;
    } else if InWait(s.pc[p]) {
      WaitShape(s, p);
    } else if !InFork(s.pc[p]) {
      ExitShape(s, p);
    }
  }

  /** The scan of p has come to a zombie of p, or to the end of the table. */
  lemma ScanStep(s: State, p: nat)
    requires Shaped(s) && p < |s.pc| && s.pc[p].WaitScan? && StepEnabled(s, p)
    requires !WaitStep(s, p).pc[p].WaitScan?
    requires KidsAt(s, p) && forall c :: 0 <= c < |s.pc| ==> ScannedAt(s, p, c)
    requires forall c :: 0 <= c < |s.pc| ==> LocksAt(s, c) && StatusAt(s, c)
    ensures ScanEnds(s, p, Step(p), WaitStep(s, p))
  {
    hide LocksAt, StatusAt;
    var k := s.pc[p].next;
    if k < |s.pc| {
      assert s.parent[k] == p && s.st[k].Zombie?;
      assert LocksAt(s, k) && StatusAt(s, k);
      ReapedDead(s, k);
      assert Reaps(s, p, WaitStep(s, p), k);
    } else {
      forall c | 0 <= c < |s.parent| && s.parent[c] == p ensures !s.st[c].Zombie? {
        assert ScannedAt(s, p, c);
      }
    }
  }

  lemma ScanFails(s: State, p: nat)
    requires Enabled(s, CopyoutFails(p)) && p < |s.pc|
    ensures ScanEnds(s, p, CopyoutFails(p), Apply(s, CopyoutFails(p)))
  {
    var k := s.pc[p].next;
    assert s.parent[k] == p && s.st[k].Zombie?;
  }

  /**
    A scan that ends: wait goes to sleep exactly when it has children, none of them a
    zombie, and is not killed; a zombie is freed unless its status cannot be reported;
    without one nothing changes.
   */
  lemma ScanOutcome(run: seq<State>, ev: seq<Event>, i: nat, p: nat)
    requires IsRun(run, ev) && i < |ev| && p < |run[i].pc| && run[i].pc[p].WaitScan?
    ensures |run[i + 1].pc| == |run[i].pc|
    ensures !run[i + 1].pc[p].WaitScan? ==> ScanEnds(run[i], p, ev[i], run[i + 1])
  {
    RunCalls(run, ev, i);
    var s, e := run[i], ev[i];
    assert StatusAt(s, p) && run[i + 1] == Apply(s, e);
    hide IsRun, StepEnabled, WaitStep, ForkStep, ExitStep, LocksAt, StatusAt, ScannedAt, KidsAt;
    OwnMove(s, e, p);
    if !Apply(s, e).pc[p].WaitScan? {
      if e.CopyoutFails? { ScanFails(s, p); } else { ScanStep(s, p); }
    }
  }

  /** p is inside wait from step i on, up to state j. */
  ghost predicate InCall(run: seq<State>, ev: seq<Event>, i: nat, j: nat, p: nat) {
    && IsRun(run, ev) && i < j <= |ev| && ev[i] == Wait(p)
    && forall k :: i < k <= j && Shaped(run[k]) && p < |run[k].pc| ==> !run[k].pc[p].Outside?
  }

  lemma WaitMoves(s: State, p: nat)
    requires Shaped(s) && p < |s.pc| && InWait(s.pc[p])
    ensures var s' := WaitStep(s, p);
            && Shaped(s') && |s'.pc| == |s.pc| && (InWait(s'.pc[p]) || s'.pc[p].Outside?)
            && (s'.pc[p].Outside? <==> s.pc[p].WaitLeave?)
            && (s'.pc[p].WaitLeave? ==> s.pc[p].WaitScan?)
  {}

  /** How p moves inside wait. */
  lemma WaitMove(s: State, e: Event, p: nat)
    requires Inv(s) && Enabled(s, e) && p < |s.pc| && InWait(s.pc[p])
    ensures var s' := Apply(s, e);
            && Shaped(s') && |s'.pc| == |s.pc| && (InWait(s'.pc[p]) || s'.pc[p].Outside?)
            && (s'.pc[p].Outside? ==> s.pc[p].WaitLeave? && e == Step(p))
            && (s'.pc[p].WaitLeave? ==> s.pc[p].WaitLeave? || s.pc[p].WaitScan?)
  {
    hide WaitStep, ExitStep, ForkStep, StepEnabled, LockInv, WakeInv;
    assert StatusAt(s, p);
    hide StatusAt, StatusInv;
    OwnMove(s, e, p);
    if e == Step(p) { WaitMoves(s, p); }
  }

  /** From its Wait event to its return, p is inside wait. */
  lemma {:induction false} StaysInWait(run: seq<State>, ev: seq<Event>, i: nat, j: nat, p: nat)
    requires InCall(run, ev, i, j, p)
    ensures Shaped(run[j]) && p < |run[j].pc| && InWait(run[j].pc[p])
    ensures run[j].pc[p].WaitLeave? ==> j > i + 1
  {
    hide Apply, Enabled, Inv, InWait, Init;
    var s, e := run[j - 1], ev[j - 1];
    RunInv(run, ev, j - 1);
    assert run[j] == Apply(s, e) && Enabled(s, e);
    if j > i + 1 {
      StaysInWait(run, ev, i, j - 1, p);
      WaitMove(s, e, p);
    } else {
      WaitBegins(s, p);
    }
  }

  lemma WaitBegins(s: State, p: nat)
    requires Enabled(s, Wait(p))
    ensures var s' := Apply(s, Wait(p));
            Shaped(s') && p < |s'.pc| && InWait(s'.pc[p]) && s'.pc[p].WaitAcquire?
  {}

  /** p has left its scan at step m. */
  ghost predicate Outcome(run: seq<State>, ev: seq<Event>, m: nat, p: nat)
    requires m < |ev| && m + 1 < |run|
  {
    Shaped(run[m]) && p < |run[m].pc| && run[m].pc[p].WaitScan? && ScanEnds(run[m], p, ev[m], run[m + 1])
    && run[m + 1].pc[p].WaitLeave?
  }

  lemma {:induction false} LeaveOutcome(run: seq<State>, ev: seq<Event>, i: nat, j: nat, p: nat) returns (m: nat)
    requires InCall(run, ev, i, j, p) && Shaped(run[j]) && p < |run[j].pc| && run[j].pc[p].WaitLeave?
    ensures i < m < j && Outcome(run, ev, m, p)
  {
    StaysInWait(run, ev, i, j, p);
    var k := j - 1;
    RunInv(run, ev, k);
    assert run[j] == Apply(run[k], ev[k]) && Enabled(run[k], ev[k]);
    if k == i {
      m := i;
    } else {
      assert InCall(run, ev, i, k, p);
      StaysInWait(run, ev, i, k, p);
      hide Apply, Enabled, Inv, Init, ScanEnds, InWait;
      WaitMove(run[k], ev[k], p);
      if run[k].pc[p].WaitLeave? {
        m := LeaveOutcome(run, ev, i, k, p);
      } else {
        ScanOutcome(run, ev, k, p);
        m := k;
      }
    }
  }

  /**
    Every wait that returns has, since it was called, ended a scan by freeing one zombie
    child, or with nothing freed because it has no child, was killed, or could not report
    the status of a zombie.
   */
  lemma WaitReturns(run: seq<State>, ev: seq<Event>, i: nat, j: nat, p: nat) returns (m: nat)
    requires InCall(run, ev, i, j, p) && j < |ev|
    requires Shaped(run[j + 1]) && p < |run[j + 1].pc| && run[j + 1].pc[p].Outside?
    ensures i < m < j && Outcome(run, ev, m, p)
    ensures ReapsOne(run[m], p, run[m + 1])
         || (run[m + 1].st == run[m].st && run[m + 1].parent == run[m].parent
             && (ev[m] == CopyoutFails(p) || run[m].killed[p] || !HasChild(run[m], p)))
  {
    RunInv(run, ev, j);
    StaysInWait(run, ev, i, j, p);
    assert run[j + 1] == Apply(run[j], ev[j]) && Enabled(run[j], ev[j]);
    hide Apply, Enabled, Inv, Init, InWait, ReapsOne;
    WaitMove(run[j], ev[j], p);
    m := LeaveOutcome(run, ev, i, j, p);
  }

  // ---------------------------------------------------------------------------------
  // Sleeping in wait, and kill
  // ---------------------------------------------------------------------------------

  /** A step that makes the sleeping p RUNNABLE: a child's exit, a child given to init, or a kill. */
  ghost predicate Wakes(s: State, e: Event, p: nat) {
    Shaped(s) && p < |s.pc| && e.p < |s.pc| && s.sleeping[p]
    && (e == Kill(p)
        || (e.Step? && s.pc[e.p] == WakeParent(p) && s.parent[e.p] == p)
        || (e.Step? && s.pc[e.p].WakeInit? && s.pc[e.p].next == p == INIT))
  }

  predicate Drowsy(pc: Pc) { pc.Dozing? || pc.DozingLocked? || pc.Marking? }

  /** On the way to sleep, or asleep. */
  ghost predicate Abed(s: State, p: nat) {
    Shaped(s) && p < |s.pc| && (s.sleeping[p] || Drowsy(s.pc[p]))
  }

  predicate Awake(s: State, p: nat) { p < |s.sleeping| && !s.sleeping[p] }

  lemma AbedWait(s: State, p: nat)
    requires Shaped(s) && p < |s.pc| && InWait(s.pc[p]) && StepEnabled(s, p) && Abed(s, p) && LocksAt(s, p)
    ensures Abed(WaitStep(s, p), p)
  {}

  lemma AbedExit(s: State, p: nat, q: nat)
    requires Shaped(s) && p < |s.pc| && q < |s.pc| && !InWait(s.pc[p]) && !InFork(s.pc[p])
    requires Abed(s, q) && LocksAt(s, p) && LocksAt(s, q)
    ensures Abed(ExitStep(s, p), q) || (Wakes(s, Step(p), q) && Awake(ExitStep(s, p), q))
  {}

  /** Nothing but those steps ends a sleep. */
  lemma AbedStep(s: State, e: Event, q: nat)
    requires Inv(s) && Enabled(s, e) && q < |s.pc| && Abed(s, q)
    ensures Abed(Apply(s, e), q) || (Wakes(s, e, q) && Awake(Apply(s, e), q))
  {
    hide WaitStep, ExitStep, ForkStep, StepEnabled, InWait, Abed, Wakes;
    var p := e.p;
    assert LocksAt(s, p) && LocksAt(s, q) && StatusAt(s, p) && StatusAt(s, q);
    if !e.Step? {
      AbedStart(s, e, q);
    } else if InWait(s.pc[p]) {
      if p == q { AbedWait(s, p); } else { AbedAside(s, p, q); }
    } else if InFork(s.pc[p]) {
      AbedFork(s, p, q);
    } else {
      AbedExit(s, p, q);
    }
  }

  lemma AbedStart(s: State, e: Event, q: nat)
    requires Enabled(s, e) && !e.Step? && Abed(s, q)
    ensures Abed(Apply(s, e), q) || (Wakes(s, e, q) && Awake(Apply(s, e), q))
  {}

  lemma AbedAside(s: State, p: nat, q: nat)
    requires Shaped(s) && p < |s.pc| && InWait(s.pc[p]) && Abed(s, q) && p != q
    ensures Abed(WaitStep(s, p), q)
  {}

  lemma AbedFork(s: State, p: nat, q: nat)
    requires Shaped(s) && p < |s.pc| && InFork(s.pc[p]) && StepEnabled(s, p) && Abed(s, q)
    requires LocksAt(s, p) && LocksAt(s, q) && StatusAt(s, p) && StatusAt(s, q)
    ensures Abed(ForkStep(s, p), q)
  {}

  /** A wait that has gone to sleep scans again only after one of those steps. */
  lemma {:induction false} SleptAndWoken(run: seq<State>, ev: seq<Event>, i: nat, j: nat, p: nat) returns (m: nat)
    requires IsRun(run, ev) && i < j <= |ev| && Abed(run[i], p) && !Abed(run[j], p)
    ensures i <= m < j && Wakes(run[m], ev[m], p) && Awake(run[m + 1], p)
  {
    var k := j - 1;
    RunInv(run, ev, k);
    assert run[j] == Apply(run[k], ev[k]) && Enabled(run[k], ev[k]);
    if Abed(run[k], p) {
      hide Apply, Enabled, Inv, Init, Abed, Wakes;
      AbedStep(run[k], ev[k], p);
      m := k;
    } else {
      m := SleptAndWoken(run, ev, i, k, p);
    }
  }

  /** So a wait that has found nothing looks again only after its child's exit, a new child or a kill. */
  lemma ScansAgain(run: seq<State>, ev: seq<Event>, i: nat, j: nat, p: nat) returns (m: nat)
    requires IsRun(run, ev) && i < j <= |ev| && p < |run[i].pc| && p < |run[j].pc|
    requires run[i].pc[p].Dozing? && run[j].pc[p].WaitScan?
    ensures i <= m < j && Wakes(run[m], ev[m], p) && Awake(run[m + 1], p)
  {
    RunInv(run, ev, i);
    RunInv(run, ev, j);
    hide IsRun, Wakes;
    assert LocksAt(run[j], p);
    m := SleptAndWoken(run, ev, i, j, p);
  }

  /** killed is set by kill and cleared when the process is freed. */
  lemma KilledStep(s: State, e: Event, q: nat)
    requires Inv(s) && Enabled(s, e) && q < |s.pc|
    ensures var s' := Apply(s, e);
            && Shaped(s') && |s'.pc| == |s.pc|
            && (e == Kill(q) ==> s'.killed[q] && !s'.sleeping[q] && s'.pc == s.pc && s'.st == s.st)
            && (s'.killed[q] && !s.killed[q] ==> e == Kill(q))
            && (s.killed[q] && !s'.killed[q] ==> s.st[q].Zombie? && s'.st[q].Unused?)
  {
    hide WaitStep, ForkStep, ExitStep, StepEnabled, InWait, InFork;
    assert StatusAt(s, e.p);
    hide LockInv, StatusInv, WakeInv;
    if e.Step? && InWait(s.pc[e.p]) {
      KilledWait(s, e.p);
    } else if e.Step? && InFork(s.pc[e.p]) {
      ForkChild(s, e.p);
      KilledFork(s, e.p);
    } else if e.Step? {
      KilledExit(s, e.p);
    }
  }

  lemma KilledWait(s: State, p: nat)
    requires Shaped(s) && p < |s.pc| && InWait(s.pc[p])
    ensures var s' := WaitStep(s, p);
            && Shaped(s') && |s'.pc| == |s.pc|
            && forall q :: 0 <= q < |s.pc| && s'.killed[q] != s.killed[q] ==>
                 s.killed[q] && s.st[q].Zombie? && s'.st[q].Unused?
  {}

  lemma KilledFork(s: State, p: nat)
    requires Shaped(s) && p < |s.pc| && InFork(s.pc[p])
    requires s.pc[p].ForkAdopt? || s.pc[p].ForkStart? ==> s.pc[p].child < |s.pc|
    ensures var s' := ForkStep(s, p); Shaped(s') && |s'.pc| == |s.pc| && s'.killed == s.killed
  {}

  lemma ForkChild(s: State, p: nat)
    requires Shaped(s) && p < |s.pc| && InFork(s.pc[p]) && StatusAt(s, p)
    ensures s.pc[p].child < |s.pc|
  {}

  lemma KilledExit(s: State, p: nat)
    requires Shaped(s) && p < |s.pc| && !InWait(s.pc[p]) && !InFork(s.pc[p])
    ensures var s' := ExitStep(s, p); Shaped(s') && |s'.pc| == |s.pc| && s'.killed == s.killed
  {
    hide InWait, InFork;
  }

  ghost predicate DeadAsleep(s: State, p: nat) { Shaped(s) && Abed(s, p) && s.killed[p] }

  /** One step back from a killed process in bed. */
  lemma KilledBack(run: seq<State>, ev: seq<Event>, k: nat, p: nat)
    requires IsRun(run, ev) && k < |ev| && DeadAsleep(run[k + 1], p)
    ensures p < |run[k].pc| && (DeadAsleep(run[k], p) || (ev[k] == Kill(p) && run[k].pc[p].Dozing?))
  {
    RunCalls(run, ev, k);
    var s, e := run[k], ev[k];
    assert run[k + 1] == Apply(s, e) && Enabled(s, e);
    hide CallInv, Init, Enabled, Apply, Abed;
    KeptSize(s, e, p);
    AbedBefore(s, e, p);
    KilledStep(s, e, p);
    if s.killed[p] && !Abed(s, p) { ScanOutcome(run, ev, k, p); }
  }

  lemma KeptSize(s: State, e: Event, p: nat)
    requires Inv(s) && Enabled(s, e) && Abed(Apply(s, e), p)
    ensures p < |s.pc|
  {
    hide Apply, Enabled, LockInv, StatusInv, WakeInv;
    LockStep(s, e);
  }

  /**
    A process asleep in wait although it is killed: the kill came after the scan had looked
    at p->killed and before sleep had taken p->lock. It stays asleep until one of Wakes.
   */
  lemma {:induction false} KilledAsleep(run: seq<State>, ev: seq<Event>, i: nat, p: nat) returns (m: nat)
    requires IsRun(run, ev) && i <= |ev| && DeadAsleep(run[i], p)
    ensures m < i && ev[m] == Kill(p) && p < |run[m].pc| && run[m].pc[p].Dozing?
    ensures forall k :: m < k <= i ==> DeadAsleep(run[k], p)
  {
    hide Enabled, Apply, DeadAsleep;
    if i == 0 {
      AwakeAtFirst(run[0], p);
    } else {
      KilledBack(run, ev, i - 1, p);
      if DeadAsleep(run[i - 1], p) {
        m := KilledAsleep(run, ev, i - 1, p);
      } else {
        m := i - 1;
      }
    }
  }

  lemma AwakeAtFirst(s: State, p: nat)
    requires Init(s)
    ensures !DeadAsleep(s, p)
  {}

  /** A process goes to bed at the end of its scan, and kill only reaches it before it takes p->lock. */
  lemma AbedBefore(s: State, e: Event, p: nat)
    requires Inv(s) && Enabled(s, e) && p < |s.pc| && Abed(Apply(s, e), p)
    ensures Abed(s, p) || (s.pc[p].WaitScan? && p < |Apply(s, e).pc| && Apply(s, e).pc[p].Dozing?)
    ensures e == Kill(p) ==> s.pc[p].Dozing?
  {
    hide WaitStep, ExitStep, ForkStep, StepEnabled, InWait;
    assert LocksAt(s, p) && StatusAt(s, e.p);
    hide LockInv, StatusInv, WakeInv, LocksAt;
    if !e.Step? {
      BedStart(s, e, p);
    } else if InWait(s.pc[e.p]) {
      BedWait(s, e.p, p);
    } else if InFork(s.pc[e.p]) {
      BedFork(s, e.p, p);
    } else {
      BedExit(s, e.p, p);
    }
  }

  lemma BedStart(s: State, e: Event, q: nat)
    requires Enabled(s, e) && !e.Step? && q < |s.pc| && Abed(Apply(s, e), q) && LocksAt(s, q)
    ensures Abed(s, q) && (e == Kill(q) ==> s.pc[q].Dozing?)
  {}

  lemma BedWait(s: State, p: nat, q: nat)
    requires Shaped(s) && p < |s.pc| && q < |s.pc| && InWait(s.pc[p]) && Abed(WaitStep(s, p), q)
    ensures Abed(s, q) || (s.pc[q].WaitScan? && q < |WaitStep(s, p).pc| && WaitStep(s, p).pc[q].Dozing?)
  {}

  lemma BedFork(s: State, p: nat, q: nat)
    requires Shaped(s) && p < |s.pc| && q < |s.pc| && InFork(s.pc[p]) && StepEnabled(s, p)
    requires Abed(ForkStep(s, p), q)
    ensures Abed(s, q)
  {}

  lemma BedExit(s: State, p: nat, q: nat)
    requires Shaped(s) && p < |s.pc| && q < |s.pc| && !InWait(s.pc[p]) && !InFork(s.pc[p])
    requires Abed(ExitStep(s, p), q)
    ensures Abed(s, q)
  {
    hide InWait, InFork;
  }

  /** kill reaches a process that waits, awake or asleep, unless it is about to take p->lock in sleep. */
  lemma KillReaches(run: seq<State>, ev: seq<Event>, i: nat, p: nat)
    requires IsRun(run, ev) && i < |ev| && ev[i] == Kill(p) && p < |run[i].pc|
    ensures p < |run[i + 1].killed| && run[i + 1].killed[p]
    ensures Abed(run[i + 1], p) <==> run[i].pc[p].Dozing?
  {
    RunInv(run, ev, i);
    var s := run[i];
    assert run[i + 1] == Apply(s, Kill(p)) && Enabled(s, Kill(p));
    hide Inv, Init, Apply, Enabled;
    KillEffect(s, p);
  }

  lemma KillEffect(s: State, p: nat)
    requires Inv(s) && Enabled(s, Kill(p))
    ensures var s' := Apply(s, Kill(p));
            p < |s'.killed| && s'.killed[p] && (Abed(s', p) <==> s.pc[p].Dozing?)
  {
    hide StatusInv, WakeInv;
    assert LocksAt(s, p);
  }

  /** init and one child of it; init is at pc, asleep or not, killed or not. */
  function Pair(pc: Pc, asleep: bool, locked: bool, dead: bool, wl: int): (s: State) {
    State([pc, Outside], [Live, Live], [-1, 0], [asleep, false], [locked, false], [dead, false], wl)
  }

  ghost predicate Follows(s: State, e: Event, s': State) { Enabled(s, e) && s' == Apply(s, e) }

  lemma PairScans()
    ensures Follows(Pair(Outside, false, false, false, -1), Wait(0), Pair(WaitAcquire, false, false, false, -1))
    ensures Follows(Pair(WaitAcquire, false, false, false, -1), Step(0),
                    Pair(WaitScan(0, false), false, false, false, 0))
    ensures Follows(Pair(WaitScan(0, false), false, false, false, 0), Step(0),
                    Pair(WaitScan(1, false), false, false, false, 0))
    ensures Follows(Pair(WaitScan(1, false), false, false, false, 0), Step(0),
                    Pair(WaitScan(2, true), false, false, false, 0))
  {
    hide ForkStep, ExitStep;
  }

  lemma PairSleeps()
    ensures Follows(Pair(WaitScan(2, true), false, false, false, 0), Step(0), Pair(Dozing, false, false, false, 0))
    ensures Follows(Pair(Dozing, false, false, false, 0), Kill(0), Pair(Dozing, false, false, true, 0))
    ensures Follows(Pair(Dozing, false, false, true, 0), Step(0), Pair(DozingLocked, false, true, true, 0))
    ensures Follows(Pair(DozingLocked, false, true, true, 0), Step(0), Pair(Marking, false, true, true, -1))
    ensures Follows(Pair(Marking, false, true, true, -1), Step(0), Pair(Switching, true, true, true, -1))
  {
    hide ForkStep, ExitStep;
  }

  /** The window exists: a process goes to sleep in wait after it has been killed. */
  lemma KillMissed() returns (run: seq<State>, ev: seq<Event>)
    ensures IsRun(run, ev) && |run| == 10 && run[9].sleeping == [true, false] && run[9].killed == [true, false]
  {
    hide Apply, Enabled, Init;
    run := [Pair(Outside, false, false, false, -1), Pair(WaitAcquire, false, false, false, -1),
            Pair(WaitScan(0, false), false, false, false, 0), Pair(WaitScan(1, false), false, false, false, 0),
            Pair(WaitScan(2, true), false, false, false, 0), Pair(Dozing, false, false, false, 0),
            Pair(Dozing, false, false, true, 0), Pair(DozingLocked, false, true, true, 0),
            Pair(Marking, false, true, true, -1), Pair(Switching, true, true, true, -1)];
    ev := [Wait(0), Step(0), Step(0), Step(0), Step(0), Kill(0), Step(0), Step(0), Step(0)];
    PairInit();
    PairScans();
    PairSleeps();
  }

  lemma PairInit()
    ensures Init(Pair(Outside, false, false, false, -1))
  {
    assert Parented(Pair(Outside, false, false, false, -1), 1);
  }

  // ---------------------------------------------------------------------------------
  // The life of a process
  // ---------------------------------------------------------------------------------

  /** Every way a process's status can change, and what else then holds. */
  ghost predicate Lives(s: State, e: Event, s': State, c: nat) {
    && Shaped(s) && Shaped(s') && |s'.pc| == |s.pc| && e.p < |s.pc| && c < |s.pc|
    && (s'.st[c] != s.st[c] ==>
          && (forall d :: 0 <= d < |s.pc| && d != c ==> s'.st[d] == s.st[d])
          && ((s.st[c].Unused? && s'.st[c].Used? && e == Fork(e.p, c))
              || (s.st[c].Used? && s'.st[c].Live? && e.Step? && s.pc[e.p] == ForkStart(c)
                  && s'.pc[c].Outside? && s'.pc[e.p].Outside?)
              || (s.st[c].Live? && s'.st[c].Zombie? && e == Step(c) && s.pc[c].ExitMark?)
              || (s.st[c].Zombie? && s'.st[c].Unused? && e.Step? && s.pc[e.p].WaitScan? && Reaps(s, e.p, s', c))))
  }

  lemma LifeWait(s: State, p: nat, c: nat)
    requires Shaped(s) && p < |s.pc| && c < |s.pc| && InWait(s.pc[p]) && StepEnabled(s, p)
    requires LocksAt(s, c) && StatusAt(s, c)
    ensures Lives(s, Step(p), WaitStep(s, p), c)
  {
    if WaitStep(s, p).st[c] != s.st[c] { ReapedDead(s, c); }
  }

  lemma LifeFork(s: State, p: nat, c: nat)
    requires Shaped(s) && p < |s.pc| && c < |s.pc| && InFork(s.pc[p]) && StepEnabled(s, p) && StatusAt(s, p)
    ensures Lives(s, Step(p), ForkStep(s, p), c)
  {}

  lemma LifeExit(s: State, p: nat, c: nat)
    requires Shaped(s) && p < |s.pc| && c < |s.pc| && !InWait(s.pc[p]) && !InFork(s.pc[p]) && StatusAt(s, p)
    ensures Lives(s, Step(p), ExitStep(s, p), c)
  {}

  lemma LifeStep(s: State, e: Event, c: nat)
    requires Inv(s) && Enabled(s, e) && c < |s.pc|
    ensures Lives(s, e, Apply(s, e), c)
  {
    hide WaitStep, ExitStep, ForkStep, StepEnabled, InWait, InFork, Reaps;
    assert StatusAt(s, e.p) && StatusAt(s, c) && LocksAt(s, c);
    hide LockInv, StatusInv, WakeInv, StatusAt, LocksAt;
    if !e.Step? {
    } else if InWait(s.pc[e.p]) {
      LifeWait(s, e.p, c);
    } else if InFork(s.pc[e.p]) {
      LifeFork(s, e.p, c);
    } else {
      LifeExit(s, e.p, c);
    }
  }

  /** Living and zombie processes other than init have a living parent. */
  ghost predicate ParentAt(s: State, c: nat)
    requires Shaped(s) && c < |s.pc|
  {
    c != INIT && (s.st[c].Live? || s.st[c].Zombie?) ==> Parented(s, c)
  }

  ghost predicate ParentInv(s: State) {
    Shaped(s) && forall c :: 0 <= c < |s.pc| ==> ParentAt(s, c)
  }

  lemma ParentStep(s: State, e: Event, c: nat)
    requires Inv(s) && CallInv(s) && Enabled(s, e) && c < |s.pc| && ParentAt(s, c)
    ensures Shaped(Apply(s, e)) && |Apply(s, e).pc| == |s.pc| && ParentAt(Apply(s, e), c)
  {
    var s', p, q := Apply(s, e), e.p, s.parent[c];
    LifeStep(s, e, c);
    ParentsAny(s, e);
    StatusStep(s, e);
    assert StatusAt(s, p) && StatusAt(s, c) && AdoptedAt(s, p);
    if 0 <= q < |s.pc| {
      LifeStep(s, e, q);
      assert GivenAt(s, q, c);
    }
    hide Apply, Enabled, LockInv, StatusInv, WakeInv, CallInv, Reaps;
  }

  /** No process is ever without a living parent, init aside, so every zombie has one to free it. */
  lemma {:induction false} NoOrphans(run: seq<State>, ev: seq<Event>, i: nat)
    requires IsRun(run, ev) && i <= |ev|
    ensures ParentInv(run[i])
  {
    if i > 0 {
      var k := i - 1;
      RunCalls(run, ev, k);
      NoOrphans(run, ev, k);
      var s, s' := run[k], Apply(run[k], ev[k]);
      hide Apply, Enabled, Inv, CallInv, Init, ParentAt;
      ParentStep(s, ev[k], ev[k].p);
      forall c | 0 <= c < |s'.pc| ensures ParentAt(s', c) { ParentStep(s, ev[k], c); }
    }
  }

  /** What may change a status, or a parent, at any step of any run. */
  lemma LifeCycle(run: seq<State>, ev: seq<Event>, i: nat, c: nat)
    requires IsRun(run, ev) && i < |ev| && c < |run[i].pc|
    ensures Lives(run[i], ev[i], run[i + 1], c)
    ensures Parents(run[i], ev[i].p, run[i + 1])
  {
    RunCalls(run, ev, i);
    hide Lives, Parents, CallInv;
    LifeStep(run[i], ev[i], c);
    ParentsAny(run[i], ev[i]);
  }

  // ---------------------------------------------------------------------------------
  // fork
  // ---------------------------------------------------------------------------------

  /** p is inside the fork that began at step i with slot c, up to state j. */
  ghost predicate InForkCall(run: seq<State>, ev: seq<Event>, i: nat, j: nat, p: nat, c: nat) {
    && IsRun(run, ev) && i < j <= |ev| && ev[i] == Fork(p, c)
    && forall k :: i < k <= j && p < |run[k].pc| ==> !run[k].pc[p].Outside?
  }

  lemma ForkMoves(s: State, p: nat)
    requires Shaped(s) && p < |s.pc| && InFork(s.pc[p]) && s.pc[p].child < |s.pc|
    ensures var s' := ForkStep(s, p);
            && Shaped(s') && |s'.pc| == |s.pc|
            && ((InFork(s'.pc[p]) && s'.pc[p].child == s.pc[p].child) || (s'.pc[p].Outside? && s.pc[p].ForkStart?))
  {}

  lemma ForkMove(s: State, e: Event, p: nat)
    requires Inv(s) && Enabled(s, e) && p < |s.pc| && InFork(s.pc[p])
    ensures var s' := Apply(s, e);
            && Shaped(s') && |s'.pc| == |s.pc|
            && ((InFork(s'.pc[p]) && s'.pc[p].child == s.pc[p].child)
                || (s'.pc[p].Outside? && s.pc[p].ForkStart? && e == Step(p)))
  {
    hide WaitStep, ExitStep, ForkStep, StepEnabled, LockInv, WakeInv;
    assert StatusAt(s, p);
    hide StatusAt, StatusInv;
    OwnMove(s, e, p);
    PcKinds(s.pc[p]);
    if e == Step(p) { ForkMoves(s, p); }
  }

  lemma {:induction false} StaysInFork(run: seq<State>, ev: seq<Event>, i: nat, j: nat, p: nat, c: nat)
    requires InForkCall(run, ev, i, j, p, c)
    ensures Shaped(run[j]) && p < |run[j].pc| && InFork(run[j].pc[p]) && run[j].pc[p].child == c
  {
    hide Apply, Enabled, Inv, InFork, Init;
    var s, e := run[j - 1], ev[j - 1];
    RunInv(run, ev, j - 1);
    assert run[j] == Apply(s, e) && Enabled(s, e);
    if j > i + 1 {
      StaysInFork(run, ev, i, j - 1, p, c);
      ForkMove(s, e, p);
    } else {
      ForkBegins(s, p, c);
    }
  }

  lemma ForkBegins(s: State, p: nat, c: nat)
    requires Enabled(s, Fork(p, c))
    ensures var s' := Apply(s, Fork(p, c));
            && Shaped(s') && |s'.pc| == |s.pc| && p < |s'.pc| && InFork(s'.pc[p]) && s'.pc[p].child == c
            && c < |s.pc| && s.st[c].Unused?
  {}

  /** A fork that returns has turned a slot that was free into a running child of the caller. */
  lemma ForkReturns(run: seq<State>, ev: seq<Event>, i: nat, j: nat, p: nat, c: nat)
    requires InForkCall(run, ev, i, j, p, c) && j < |ev|
    requires p < |run[j + 1].pc| && run[j + 1].pc[p].Outside?
    ensures Shaped(run[i]) && c < |run[i].pc| && run[i].st[c].Unused?
    ensures Shaped(run[j + 1]) && c < |run[j + 1].pc|
    ensures run[j + 1].parent[c] == p && run[j + 1].st[c].Live? && run[j + 1].pc[c].Outside?
  {
    RunInv(run, ev, i);
    RunCalls(run, ev, j);
    StaysInFork(run, ev, i, j, p, c);
    var s, e := run[j], ev[j];
    assert run[j + 1] == Apply(s, e) && Enabled(s, e) && Enabled(run[i], ev[i]);
    assert AdoptedAt(s, p) && StatusAt(s, p);
    ForkBegins(run[i], p, c);
    hide Inv, CallInv, Init, Enabled, Apply;
    PcKinds(run[j + 1].pc[p]);
    ForkMove(s, e, p);
    ForkEnds(s, p);
  }

  lemma ForkEnds(s: State, p: nat)
    requires Enabled(s, Step(p)) && s.pc[p].ForkStart?
    ensures var s', c := Apply(s, Step(p)), s.pc[p].child;
            && Shaped(s') && c < |s'.pc| && s'.st == s.st[c := Live] && s'.parent == s.parent && s'.pc[c].Outside?
  {}

  // ---------------------------------------------------------------------------------
  // exit
  // ---------------------------------------------------------------------------------

  /** The children of p that reparent has passed are init's; every other parent is as in s0. */
  ghost predicate GivenFrom(s0: State, s: State, p: nat) {
    && Shaped(s0) && Shaped(s) && |s.pc| == |s0.pc| && p < |s.pc|
    && forall c :: 0 <= c < |s.pc| ==>
         s.parent[c] == if s0.parent[c] == p && !MayParent(s.pc[p], c) then INIT else s0.parent[c]
  }

  predicate Leaving(pc: Pc) {
    pc.Reparent? || pc.WakeInit? || pc.WakeParent? || pc.ExitLock? || pc.ExitMark? || pc.ExitLeave?
  }

  lemma GivenFromExit(s0: State, s: State, p: nat)
    requires GivenFrom(s0, s, p) && Leaving(s.pc[p]) && Leaving(ExitStep(s, p).pc[p])
    requires p != INIT && forall c :: 0 <= c < |s.pc| ==> GivenAt(s, p, c)
    ensures GivenFrom(s0, ExitStep(s, p), p)
  {}

  lemma LeavingIs(pc: Pc)
    requires Leaving(pc)
    ensures HoldsWaitLock(pc) && !InWait(pc) && !InFork(pc) && !pc.Outside? && (InExit(pc) || AfterExit(pc))
  {}

  lemma GivenFromStep(s0: State, s: State, e: Event, p: nat)
    requires Inv(s) && CallInv(s) && Enabled(s, e) && GivenFrom(s0, s, p) && Leaving(s.pc[p])
    requires p < |Apply(s, e).pc| && Leaving(Apply(s, e).pc[p])
    ensures GivenFrom(s0, Apply(s, e), p)
  {
    hide WaitStep, ExitStep, ForkStep, StepEnabled, InWait, InFork, Leaving, MayParent, GivenAt;
    assert StatusAt(s, p);
    assert forall c :: 0 <= c < |s.pc| ==> GivenAt(s, p, c);
    LeavingIs(s.pc[p]);
    if e == Step(p) {
      GivenFromExit(s0, s, p);
    } else if e.p != p {
      LeavingIs(Apply(s, e).pc[p]);
      ParentsKept(s, e, p);
      hide Apply, Inv, CallInv;
    }
  }

  /** exit: while p holds wait_lock nothing happens to parents but that its own children become init's. */
  lemma {:induction false} ChildrenGiven(run: seq<State>, ev: seq<Event>, i: nat, j: nat, p: nat)
    requires IsRun(run, ev) && i <= j <= |ev| && p < |run[i].pc| && run[i].pc[p] == Reparent(0)
    requires forall k :: i <= k <= j ==> p < |run[k].pc| && Leaving(run[k].pc[p])
    ensures GivenFrom(run[i], run[j], p)
    ensures run[j].pc[p].ExitLeave? ==> forall c :: 0 <= c < |run[j].pc| ==>
              run[j].parent[c] == if run[i].parent[c] == p then INIT else run[i].parent[c]
  {
    hide Apply, Enabled, Inv, CallInv, Init, Leaving, GivenFrom;
    if j > i {
      ChildrenGiven(run, ev, i, j - 1, p);
      RunCalls(run, ev, j - 1);
      var s, e := run[j - 1], ev[j - 1];
      assert run[j] == Apply(s, e) && Enabled(s, e);
      GivenFromStep(run[i], s, e, p);
    } else {
      RunCalls(run, ev, i);
      NoneGiven(run[i], p);
    }
    AllGiven(run[i], run[j], p);
  }

  lemma NoneGiven(s: State, p: nat)
    requires Inv(s) && p < |s.pc| && s.pc[p] == Reparent(0)
    ensures GivenFrom(s, s, p)
  {
    hide WakeInv, StatusInv;
  }

  lemma AllGiven(s0: State, s: State, p: nat)
    requires GivenFrom(s0, s, p)
    ensures s.pc[p].ExitLeave? ==> forall c :: 0 <= c < |s.pc| ==>
              s.parent[c] == if s0.parent[c] == p then INIT else s0.parent[c]
  {}

  // ---------------------------------------------------------------------------------
  // Progress
  // ---------------------------------------------------------------------------------

  lemma LockBlocks(s: State, w: nat)
    requires LockInv(s) && StatusInv(s) && w < |s.pc| && s.wl == w && !StepEnabled(s, w)
    ensures exists k :: 0 <= k < |s.pc| && s.plock[k] && k != w
  {
    assert LocksAt(s, w) && StatusAt(s, w);
  }

  lemma LockHolderMoves(s: State, k: nat)
    requires LockInv(s) && k < |s.pc| && s.plock[k] && s.wl != k
    ensures StepEnabled(s, k)
  {
    assert LocksAt(s, k);
  }

  lemma FreeMoves(s: State, p: nat)
    requires LockInv(s) && StatusInv(s) && p < |s.pc| && s.wl == -1 && !s.sleeping[p]
    requires !s.pc[p].Outside? && !s.pc[p].Dead?
    ensures StepEnabled(s, p)
  {
    assert LocksAt(s, p) && StatusAt(s, p);
    if s.pc[p].ForkStart? {
      assert LocksAt(s, s.pc[p].child) && StatusAt(s, s.pc[p].child);
    }
  }

  /** While a process is inside fork, exit or wait and not asleep, some process can take a step. */
  lemma NoDeadlock(run: seq<State>, ev: seq<Event>, i: nat, p: nat) returns (q: nat)
    requires IsRun(run, ev) && i <= |ev| && p < |run[i].pc| && p < |run[i].sleeping|
    requires !run[i].pc[p].Outside? && !run[i].pc[p].Dead? && !run[i].sleeping[p]
    ensures Enabled(run[i], Step(q))
  {
    RunInv(run, ev, i);
    var s := run[i];
    hide IsRun, StepEnabled, WakeInv, StatusInv;
    if s.wl == -1 {
      FreeMoves(s, p);
      q := p;
    } else if StepEnabled(s, s.wl) {
      q := s.wl;
    } else {
      LockBlocks(s, s.wl);
      q :| 0 <= q < |s.pc| && s.plock[q] && q != s.wl;
      LockHolderMoves(s, q);
    }
  }

  function Left(n: nat, k: nat): (r: nat) { if k < n then n - k else 0 }

  /** How many own steps a process may take before its call returns, or before it is back from sleep. */
  function Rank(pc: Pc, n: nat): (r: nat) {
    match pc
    case Outside => 0
    case Dead => 0
    case WaitAcquire => n + 9
    case WaitScan(k, _) => Left(n, k) + 8
    case Dozing => 7
    case DozingLocked => 6
    case Marking => 5
    case Switching => 4
    case Parked => 3
    case Waking => 1
    case WaitLeave => 1
    case ForkAcquire(_) => 4
    case ForkAdopt(_) => 3
    case ForkLeave(_) => 2
    case ForkStart(_) => 1
    case ExitAcquire => (n + 2) * n + n + 9
    case Reparent(j) => (n + 2) * Left(n, j) + n + 8
    case WakeInit(j, k) => (n + 2) * Left(n, j + 1) + n + 8 + Left(n, k) + 1
    case WakeParent(k) => Left(n, k) + 5
    case ExitLock => 4
    case ExitMark => 3
    case ExitLeave => 2
    case ExitSwitch => 1
  }

  lemma RankWait(s: State, p: nat)
    requires Shaped(s) && p < |s.pc| && InWait(s.pc[p]) && !s.pc[p].Waking?
    ensures var s' := WaitStep(s, p); p < |s'.pc| && Rank(s'.pc[p], |s.pc|) < Rank(s.pc[p], |s.pc|)
  {}

  lemma RankFork(s: State, p: nat)
    requires Shaped(s) && p < |s.pc| && InFork(s.pc[p]) && StepEnabled(s, p)
    ensures var s' := ForkStep(s, p); p < |s'.pc| && Rank(s'.pc[p], |s.pc|) < Rank(s.pc[p], |s.pc|)
  {}

  lemma RankExit(s: State, p: nat)
    requires Shaped(s) && p < |s.pc| && StepEnabled(s, p) && !InWait(s.pc[p]) && !InFork(s.pc[p])
    ensures var s' := ExitStep(s, p); p < |s'.pc| && Rank(s'.pc[p], |s.pc|) < Rank(s.pc[p], |s.pc|)
  {
    var n := |s.pc|;
    if s.pc[p].Reparent? && s.pc[p].next < n {
      var j := s.pc[p].next;
      assert (n + 2) * Left(n, j) == (n + 2) * Left(n, j + 1) + (n + 2);
    }
  }

  /** Every call takes boundedly many steps of its own, but for a wait that was woken. */
  lemma StepsBounded(s: State, p: nat)
    requires Enabled(s, Step(p)) && !s.pc[p].Waking?
    ensures var s' := Apply(s, Step(p)); p < |s'.pc| && Rank(s'.pc[p], |s.pc|) < Rank(s.pc[p], |s.pc|)
  {
    hide WaitStep, ForkStep, ExitStep, Rank, StepEnabled, InWait, InFork;
    if InWait(s.pc[p]) {
      RankWait(s, p);
    } else if InFork(s.pc[p]) {
      RankFork(s, p);
    } else {
      RankExit(s, p);
    }
  }
}
