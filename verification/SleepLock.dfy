/**
  Sleep-locks (kernel/sleeplock.c) over sleep and wakeup (kernel/proc.c), as interleaved
  steps of any number of processes on one lock. Every acquire or release of a spinlock and
  every write that another process can see is a step of its own.
 */
module SleepLock {

  /** Where a process is in acquiresleep, sleep, releasesleep or wakeup. */
  datatype Pc =
    | Outside
    | Acquiring      // acquiresleep: acquire(&lk->lk)
    | Testing        // while (lk->locked)
    | Taken          // locked and pid set, before release(&lk->lk)
    | Dozing         // sleep: acquire(&p->lock)
    | DozingLocked   // release(lk)
    | Marking        // p->chan = chan; p->state = SLEEPING
    | Switching      // sched(), which ends in the scheduler's release(&p->lock)
    | Parked         // off the CPU
    | Waking         // back from sched() with p->lock held
    | Reacquiring    // acquire(lk)
    | Holding        // has the sleep-lock
    | Releasing      // releasesleep: acquire(&lk->lk)
    | Clearing       // lk->locked = 0
    | Scanning(next: nat) // wakeup's loop over the process table, then release(&lk->lk)

  /** `spin` is the holder of lk->lk, or -1; `plock[p]` whether p->lock is held. */
  datatype State = State(
    pc: seq<Pc>, sleeping: seq<bool>, plock: seq<bool>, spin: int, locked: bool, pid: int)

  datatype Event = Acquire(p: nat) | Release(p: nat) | Step(p: nat) | Kill(p: nat)

  predicate Enabled(s: State, e: Event) {
    && e.p < |s.pc| == |s.sleeping| == |s.plock|
    && match e
       case Acquire(p) => s.pc[p].Outside?
       case Release(p) => s.pc[p].Holding?
       case Kill(p) => !s.plock[p]
       case Step(p) =>
         match s.pc[p]
         case Outside => false
         case Holding => false
         case Acquiring => s.spin == -1
         case Reacquiring => s.spin == -1
         case Releasing => s.spin == -1
         case Dozing => !s.plock[p]
         case Parked => !s.sleeping[p] && !s.plock[p]
         case Scanning(k) => k < |s.pc| && k != p ==> !s.plock[k]
         case _ => true
  }

  function At(s: State, p: nat, pc: Pc): (r: State)
    requires p < |s.pc|
  {
    s.(pc := s.pc[p := pc])
  }

  function Apply(s: State, e: Event): (s': State)
    requires Enabled(s, e)
  {
    var p := e.p;
    match e
    case Acquire(_) => At(s, p, Acquiring)
    case Release(_) => At(s, p, Releasing)
    case Kill(_) => s.(sleeping := s.sleeping[p := false])
    case Step(_) =>
      match s.pc[p]
      case Acquiring => At(s, p, Testing).(spin := p)
      case Testing =>
        if s.locked then At(s, p, Dozing) else At(s, p, Taken).(locked := true, pid := p)
      case Taken => At(s, p, Holding).(spin := -1)
      case Dozing => At(s, p, DozingLocked).(plock := s.plock[p := true])
      case DozingLocked => At(s, p, Marking).(spin := -1)
      case Marking => At(s, p, Switching).(sleeping := s.sleeping[p := true])
      case Switching => At(s, p, Parked).(plock := s.plock[p := false])
      case Parked => At(s, p, Waking).(plock := s.plock[p := true])
      case Waking => At(s, p, Reacquiring).(plock := s.plock[p := false])
      case Reacquiring => At(s, p, Testing).(spin := p)
      case Releasing => At(s, p, Clearing).(spin := p)
      case Clearing => At(s, p, Scanning(0)).(locked := false, pid := -1)
      case Scanning(k) =>
        if k >= |s.pc| then At(s, p, Outside).(spin := -1)
        else if k == p then At(s, p, Scanning(k + 1))
        else At(s, p, Scanning(k + 1)).(sleeping := s.sleeping[k := false])
      case Outside => s
      case Holding => s
  }

  // ---------------------------------------------------------------------------------
  // Invariant
  // ---------------------------------------------------------------------------------

  predicate HoldsSpin(pc: Pc) {
    pc.Testing? || pc.Taken? || pc.Dozing? || pc.DozingLocked? || pc.Clearing? || pc.Scanning?
  }

  predicate HoldsPlock(pc: Pc) {
    pc.DozingLocked? || pc.Marking? || pc.Switching? || pc.Waking?
  }

  /** Between taking the sleep-lock and clearing it. */
  predicate Owns(pc: Pc) { pc.Taken? || pc.Holding? || pc.Releasing? || pc.Clearing? }

  /** Has seen the lock held and is asleep or on its way there. */
  predicate Committed(s: State, p: nat)
    requires p < |s.pc| == |s.sleeping|
  {
    s.sleeping[p] || s.pc[p].Dozing? || s.pc[p].DozingLocked? || s.pc[p].Marking? || s.pc[p].Switching?
  }

  /** Some releaser's wakeup scan has yet to come to p. */
  predicate ScanAhead(s: State, p: nat) {
    0 <= s.spin < |s.pc| && s.pc[s.spin].Scanning? && s.pc[s.spin].next <= p
  }

  ghost predicate Shaped(s: State) { |s.pc| == |s.sleeping| == |s.plock| }

  ghost predicate SpinInv(s: State) {
    && Shaped(s)
    && (forall p :: 0 <= p < |s.pc| ==> (HoldsSpin(s.pc[p]) <==> s.spin == p))
    && (forall p :: 0 <= p < |s.pc| ==> (HoldsPlock(s.pc[p]) <==> s.plock[p]))
    && (forall p :: 0 <= p < |s.pc| && s.sleeping[p] ==> s.pc[p].Switching? || s.pc[p].Parked?)
    && (s.spin == -1 || 0 <= s.spin < |s.pc|)
  }

  ghost predicate OwnerInv(s: State) {
    && (forall p :: 0 <= p < |s.pc| ==> (Owns(s.pc[p]) <==> s.locked && s.pid == p))
    && (if s.locked then 0 <= s.pid < |s.pc| else s.pid == -1)
  }

  ghost predicate WakeInv(s: State)
    requires Shaped(s)
  {
    forall p :: 0 <= p < |s.pc| && Committed(s, p) ==> s.locked || ScanAhead(s, p)
  }

  ghost predicate Inv(s: State) { SpinInv(s) && OwnerInv(s) && WakeInv(s) }

  ghost predicate Init(s: State) {
    && Shaped(s) && s.spin == -1 && !s.locked && s.pid == -1
    && (forall p :: 0 <= p < |s.pc| ==> s.pc[p].Outside? && !s.sleeping[p] && !s.plock[p])
  }

  /** What one step of p does to p itself, and the little it may do to the rest. */
  ghost predicate Moved(s: State, s': State, p: nat) {
    && Shaped(s) && Shaped(s') && |s'.pc| == |s.pc| && p < |s.pc|
    && s'.pc == s.pc[p := s'.pc[p]] && s'.plock == s.plock[p := s'.plock[p]]
    && (forall q :: 0 <= q < |s.pc| && q != p && s'.sleeping[q] ==> s.sleeping[q])
    && (s'.spin == s.spin || s'.spin == -1 || s'.spin == p)
  }

  lemma StepMoved(s: State, e: Event)
    requires Enabled(s, e)
    ensures Moved(s, Apply(s, e), e.p)
  {}

  /** lk->lk changes hands only between p and nobody. */
  lemma SpinMoves(s: State, e: Event)
    requires Enabled(s, e) && (HoldsSpin(s.pc[e.p]) <==> s.spin == e.p)
    ensures var s' := Apply(s, e);
            && e.p < |s'.pc| && (HoldsSpin(s'.pc[e.p]) <==> s'.spin == e.p)
            && (s'.spin != s.spin ==> (s.spin == -1 || s.spin == e.p) && (s'.spin == -1 || s'.spin == e.p))
  {}

  lemma PlockMoves(s: State, e: Event)
    requires Enabled(s, e) && (HoldsPlock(s.pc[e.p]) <==> s.plock[e.p])
    ensures var s' := Apply(s, e);
            && e.p < |s'.pc| == |s'.plock| && (HoldsPlock(s'.pc[e.p]) <==> s'.plock[e.p])
  {}

  lemma SleepMoves(s: State, e: Event)
    requires Enabled(s, e) && (s.sleeping[e.p] ==> s.pc[e.p].Switching? || s.pc[e.p].Parked?)
    ensures var s' := Apply(s, e);
            && e.p < |s'.pc| == |s'.sleeping|
            && (s'.sleeping[e.p] ==> s'.pc[e.p].Switching? || s'.pc[e.p].Parked?)
  {}

  lemma SpinStepAt(s: State, e: Event, q: nat)
    requires SpinInv(s) && Enabled(s, e) && q < |s.pc|
    ensures var s' := Apply(s, e);
            && Shaped(s') && |s'.pc| == |s.pc|
            && (HoldsSpin(s'.pc[q]) <==> s'.spin == q)
            && (HoldsPlock(s'.pc[q]) <==> s'.plock[q])
            && (s'.sleeping[q] ==> s'.pc[q].Switching? || s'.pc[q].Parked?)
            && (s'.spin == -1 || 0 <= s'.spin < |s'.pc|)
  {
    hide Apply, Enabled, HoldsSpin, HoldsPlock;
    EventInRange(s, e);
    StepMoved(s, e);
    SpinMoves(s, e);
    PlockMoves(s, e);
    SleepMoves(s, e);
  }

  lemma SpinStep(s: State, e: Event)
    requires SpinInv(s) && Enabled(s, e)
    ensures SpinInv(Apply(s, e)) && |Apply(s, e).pc| == |s.pc|
  {
    hide Apply, Enabled, HoldsSpin, HoldsPlock;
    SpinStepAt(s, e, e.p) by { EventInRange(s, e); }
    forall q | 0 <= q < |s.pc| ensures
      && (HoldsSpin(Apply(s, e).pc[q]) <==> Apply(s, e).spin == q)
      && (HoldsPlock(Apply(s, e).pc[q]) <==> Apply(s, e).plock[q])
      && (Apply(s, e).sleeping[q] ==> Apply(s, e).pc[q].Switching? || Apply(s, e).pc[q].Parked?)
    {
      SpinStepAt(s, e, q);
    }
  }

  lemma EventInRange(s: State, e: Event)
    requires Enabled(s, e)
    ensures e.p < |s.pc|
  {}

  /** The sleep-lock changes hands only between p and nobody. */
  lemma OwnerMoves(s: State, e: Event)
    requires Enabled(s, e) && (Owns(s.pc[e.p]) <==> s.locked && s.pid == e.p)
    ensures var s' := Apply(s, e);
            && e.p < |s'.pc| && (Owns(s'.pc[e.p]) <==> s'.locked && s'.pid == e.p)
            && (s'.locked != s.locked || s'.pid != s.pid ==>
                  (!s.locked || s.pid == e.p) && (if s'.locked then s'.pid == e.p else s'.pid == -1))
  {}

  lemma OwnerStep(s: State, e: Event)
    requires Inv(s) && Enabled(s, e)
    ensures OwnerInv(Apply(s, e))
  {
    hide Apply, Enabled, Owns, SpinInv, WakeInv;
    EventInRange(s, e);
    StepMoved(s, e);
    OwnerMoves(s, e);
  }

  /** Only a test that finds the lock held commits a process, and only a release clears it. */
  lemma CommitMoves(s: State, e: Event)
    requires Enabled(s, e) && (s.sleeping[e.p] ==> s.pc[e.p].Switching? || s.pc[e.p].Parked?)
    ensures var s' := Apply(s, e);
            && e.p < |s'.pc| == |s'.sleeping|
            && (Committed(s', e.p) && !Committed(s, e.p) ==> s.locked && s'.locked)
            && (s.locked && !s'.locked ==> s'.pc[e.p] == Scanning(0) && s'.spin == s.spin && s.pc[e.p].Clearing?)
  {}

  /** A scan goes on, or has just passed process k and woken it. */
  lemma ScanMoves(s: State, e: Event, q: nat)
    requires Enabled(s, e) && q < |s.pc| && s.spin == e.p && s.pc[e.p].Scanning? && s.pc[e.p].next <= q
    requires !e.Acquire? && !e.Release?
    ensures var s' := Apply(s, e);
            && e.p < |s'.pc| == |s'.sleeping| == |s.pc|
            && (ScanAhead(s', q) || (q != e.p && !s'.sleeping[q] && s'.pc[q] == s.pc[q] && !s.plock[q]) || q == e.p)
  {}

  lemma WakeStepAt(s: State, e: Event, q: nat)
    requires Inv(s) && Enabled(s, e) && q < |s.pc|
    requires Shaped(Apply(s, e)) && |Apply(s, e).pc| == |s.pc| && SpinInv(Apply(s, e))
    ensures var s' := Apply(s, e); Committed(s', q) ==> s'.locked || ScanAhead(s', q)
  {
    hide Apply, Enabled, OwnerInv;
    EventInRange(s, e);
    var s', p := Apply(s, e), e.p;
    StepMoved(s, e);
    CommitMoves(s, e);
    SpinMoves(s, e);
    assert Committed(s', q) ==> Committed(s, q) || s'.locked;
    if Committed(s', q) && !s'.locked {
      if s.locked {
        assert HoldsSpin(s'.pc[p]) && s'.spin == p;
      } else {
        assert ScanAhead(s, q) && HoldsSpin(s.pc[s.spin]);
        if p == s.spin {
          ScanKeeps(s, e);
          ScanMoves(s, e, q);
          assert HoldsPlock(s.pc[q]) <==> s.plock[q];
          assert HoldsSpin(s.pc[q]) <==> s.spin == q;
        }
      }
    }
  }

  lemma ScanKeeps(s: State, e: Event)
    requires Enabled(s, e) && s.pc[e.p].Scanning?
    ensures !e.Acquire? && !e.Release?
  {}

  lemma WakeStep(s: State, e: Event)
    requires Inv(s) && Enabled(s, e)
    ensures Shaped(Apply(s, e)) && WakeInv(Apply(s, e))
  {
    hide Apply, Enabled, Committed, ScanAhead;
    SpinStep(s, e);
    forall q | 0 <= q < |Apply(s, e).pc| && Committed(Apply(s, e), q)
      ensures Apply(s, e).locked || ScanAhead(Apply(s, e), q)
    {
      WakeStepAt(s, e, q);
    }
  }

  lemma StepInv(s: State, e: Event)
    requires Inv(s) && Enabled(s, e)
    ensures Inv(Apply(s, e))
  {
    hide Apply, Enabled, SpinInv, OwnerInv, WakeInv;
    SpinStep(s, e);
    OwnerStep(s, e);
    WakeStep(s, e);
  }

  // ---------------------------------------------------------------------------------
  // Runs
  // ---------------------------------------------------------------------------------

  ghost predicate IsRun(run: seq<State>, ev: seq<Event>) {
    && |run| == |ev| + 1
    && Init(run[0])
    && (forall i :: 0 <= i < |ev| ==> Enabled(run[i], ev[i]) && run[i + 1] == Apply(run[i], ev[i]))
  }

  lemma {:induction false} RunInv(run: seq<State>, ev: seq<Event>, i: nat)
    requires IsRun(run, ev) && i <= |ev|
    ensures Inv(run[i])
  {
    if i > 0 {
      hide Apply, Enabled, Inv, Init;
      RunInv(run, ev, i - 1);
      StepInv(run[i - 1], ev[i - 1]);
    }
  }

  /** In every interleaving at most one process has the lock, and lk->pid names it. */
  lemma MutualExclusion(run: seq<State>, ev: seq<Event>, i: nat, p: nat, q: nat)
    requires IsRun(run, ev) && i <= |ev| && p < |run[i].pc| && q < |run[i].pc|
    requires Owns(run[i].pc[p]) && Owns(run[i].pc[q])
    ensures p == q && run[i].locked && run[i].pid == p
  {
    hide IsRun;
    RunInv(run, ev, i);
  }

  /** A process asleep on the lock has the lock held against it or a wakeup coming. */
  lemma NoLostWakeup(run: seq<State>, ev: seq<Event>, i: nat, p: nat)
    requires IsRun(run, ev) && i <= |ev| && p < |run[i].pc|
    ensures |run[i].sleeping| == |run[i].pc|
    ensures run[i].sleeping[p] ==> run[i].locked || ScanAhead(run[i], p)
  {
    RunInv(run, ev, i);
    hide IsRun, Init;
    assert run[i].sleeping[p] ==> Committed(run[i], p);
  }

  /** So when nobody is inside acquiresleep or releasesleep and the lock is free, all are awake. */
  lemma QuietLockNoSleepers(run: seq<State>, ev: seq<Event>, i: nat, p: nat)
    requires IsRun(run, ev) && i <= |ev| && p < |run[i].pc|
    requires run[i].spin == -1 && !run[i].locked
    ensures |run[i].sleeping| == |run[i].pc| && !run[i].sleeping[p]
  {
    NoLostWakeup(run, ev, i, p);
    hide IsRun;
  }

  // ---------------------------------------------------------------------------------
  // Nobody sleeps while nothing can happen
  // ---------------------------------------------------------------------------------

  /** q can take a step now, or is the holder and may release. */
  predicate CanMove(s: State, q: nat) {
    Enabled(s, Step(q)) || Enabled(s, Release(q))
  }

  /** A process holding its own p->lock is never blocked. */
  lemma PlockHolderMoves(s: State, q: nat)
    requires SpinInv(s) && q < |s.pc| && s.plock[q]
    ensures CanMove(s, q)
  {
    assert HoldsPlock(s.pc[q]);
  }

  /** The holder of lk->lk, or a process whose p->lock that holder's wakeup scan waits for. */
  predicate InTheWay(s: State, q: nat) {
    && 0 <= s.spin < |s.pc| == |s.plock| && q < |s.pc|
    && (q == s.spin || (s.pc[s.spin].Scanning? && s.pc[s.spin].next == q && s.plock[q]))
  }

  lemma SpinHolderMoves(s: State) returns (q: nat)
    requires SpinInv(s) && s.spin != -1
    ensures q < |s.pc| && CanMove(s, q) && InTheWay(s, q)
  {
    var r := s.spin;
    assert HoldsSpin(s.pc[r]);
    if s.pc[r].Scanning? && s.pc[r].next < |s.pc| && s.pc[r].next != r && s.plock[s.pc[r].next] {
      q := s.pc[r].next;
      PlockHolderMoves(s, q);
    } else {
      q := r;
      assert s.pc[r].Dozing? ==> !HoldsPlock(s.pc[r]);
    }
  }

  /**
    While anyone sleeps on the lock, a process on the way to the next wakeup can go on: the
    holder of lk->lk or one its scan waits for, and with lk->lk free the owner of the sleep-lock.
   */
  lemma NoDeadlock(run: seq<State>, ev: seq<Event>, i: nat, p: nat) returns (q: nat)
    requires IsRun(run, ev) && i <= |ev| && p < |run[i].pc|
    requires |run[i].sleeping| == |run[i].pc| && run[i].sleeping[p]
    ensures q < |run[i].pc| && CanMove(run[i], q)
    ensures InTheWay(run[i], q) || (run[i].spin == -1 && run[i].locked && run[i].pid == q && Owns(run[i].pc[q]))
  {
    RunInv(run, ev, i);
    NoLostWakeup(run, ev, i, p);
    hide IsRun, Init;
    var s := run[i];
    if s.spin != -1 {
      q := SpinHolderMoves(s);
    } else {
      q := s.pid;
      assert Owns(s.pc[q]) && !HoldsSpin(s.pc[q]);
    }
  }

  // ---------------------------------------------------------------------------------
  // One call
  // ---------------------------------------------------------------------------------

  /** Inside acquiresleep, without the lock. */
  predicate Trying(pc: Pc) {
    pc.Acquiring? || pc.Testing? || pc.Taken? || pc.Dozing? || pc.DozingLocked? || pc.Marking? || pc.Switching?
    || pc.Parked? || pc.Waking? || pc.Reacquiring?
  }

  lemma TryingStep(s: State, e: Event, p: nat)
    requires Enabled(s, e) && p < |s.pc| && Trying(s.pc[p])
    ensures var s' := Apply(s, e); p < |s'.pc| && (Trying(s'.pc[p]) || s'.pc[p].Holding?)
  {}

  /** p is at pc Holding and the lock is held in its name. */
  ghost predicate HasLock(s: State, p: nat) {
    p < |s.pc| && s.pc[p].Holding? && s.locked && s.pid == p
  }

  /** Whoever leaves acquiresleep has had the lock since calling it. */
  lemma {:induction false} AcquireHolds(run: seq<State>, ev: seq<Event>, i: nat, j: nat, p: nat) returns (m: nat)
    requires IsRun(run, ev) && i < j <= |ev| && ev[i] == Acquire(p) && p < |run[j].pc| && !Trying(run[j].pc[p])
    ensures i < m <= j && HasLock(run[m], p) && (run[j].pc[p].Outside? ==> m < j)
    decreases j
  {
    RunInv(run, ev, j);
    var k := j - 1;
    assert run[j] == Apply(run[k], ev[k]) && Enabled(run[k], ev[k]);
    SamePlaces(run, ev, k, j);
    hide Apply, Enabled, Init;
    if k > i && !Trying(run[k].pc[p]) {
      m := AcquireHolds(run, ev, i, k, p);
    } else if k > i {
      TryingStep(run[k], ev[k], p);
      assert Owns(run[j].pc[p]);
      m := j;
    } else {
      AcquireBegins(run[i], p);
    }
  }

  lemma AcquireBegins(s: State, p: nat)
    requires Enabled(s, Acquire(p))
    ensures p < |Apply(s, Acquire(p)).pc| && Trying(Apply(s, Acquire(p)).pc[p])
  {}

  lemma SamePlaces(run: seq<State>, ev: seq<Event>, i: nat, j: nat)
    requires IsRun(run, ev) && i <= j <= |ev|
    ensures |run[i].pc| == |run[j].pc|
    decreases j
  {
    if i < j {
      SamePlaces(run, ev, i, j - 1);
      StepMoved(run[j - 1], ev[j - 1]);
      hide Apply, Enabled;
    }
  }

  /** A step that makes the sleeping p RUNNABLE: the wakeup scan of a releaser comes to it, or a kill. */
  ghost predicate Wakes(s: State, e: Event, p: nat) {
    && p < |s.sleeping| && e.p < |s.pc| && s.sleeping[p]
    && (e == Kill(p) || (e == Step(e.p) && e.p != p && s.pc[e.p] == Scanning(p)))
  }

  /** A sleeper is woken by exactly those steps. */
  lemma WakesExactly(s: State, e: Event, p: nat)
    requires SpinInv(s) && Enabled(s, e) && p < |s.pc| && s.sleeping[p]
    ensures p < |Apply(s, e).sleeping| && (!Apply(s, e).sleeping[p] <==> Wakes(s, e, p))
  {}

  /** On the way to sleep, or asleep. */
  ghost predicate Abed(s: State, p: nat) {
    p < |s.pc| == |s.sleeping| && (s.sleeping[p] || s.pc[p].Dozing? || s.pc[p].DozingLocked? || s.pc[p].Marking?)
  }

  lemma AbedStep(s: State, e: Event, p: nat)
    requires SpinInv(s) && Enabled(s, e) && Abed(s, p)
    ensures Abed(Apply(s, e), p) || Wakes(s, e, p)
  {}

  /** Whoever has seen the lock held tests it again only after sleeping and being woken. */
  lemma {:induction false} SleptAndWoken(run: seq<State>, ev: seq<Event>, i: nat, j: nat, p: nat) returns (m: nat)
    requires IsRun(run, ev) && i < j <= |ev| && Abed(run[i], p) && !Abed(run[j], p)
    ensures i <= m < j && Wakes(run[m], ev[m], p)
    decreases j
  {
    var k := j - 1;
    RunInv(run, ev, k);
    assert run[j] == Apply(run[k], ev[k]) && Enabled(run[k], ev[k]);
    hide Apply, Enabled, Init, Abed, Wakes, OwnerInv, WakeInv;
    if Abed(run[k], p) {
      AbedStep(run[k], ev[k], p);
      m := k;
    } else {
      m := SleptAndWoken(run, ev, i, k, p);
    }
  }

  /** How many own steps a process may take before it leaves the call, or is back from sleep. */
  function Rank(pc: Pc, n: nat): (r: nat) {
    match pc
    case Outside => 0
    case Holding => 0
    case Acquiring => 8
    case Reacquiring => 8
    case Testing => 7
    case Dozing => 6
    case DozingLocked => 5
    case Marking => 4
    case Switching => 3
    case Parked => 2
    case Waking => 1
    case Taken => 1
    case Scanning(k) => if k < n then n - k + 1 else 1
    case Clearing => n + 2
    case Releasing => n + 3
  }

  /** Every call takes boundedly many steps of its own, but for a wait that was woken. */
  lemma StepsBounded(s: State, p: nat)
    requires Enabled(s, Step(p)) && !s.pc[p].Waking?
    ensures var s' := Apply(s, Step(p)); p < |s'.pc| && Rank(s'.pc[p], |s.pc|) < Rank(s.pc[p], |s.pc|)
  {}
}
