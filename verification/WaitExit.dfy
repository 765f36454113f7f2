/**
  fork, exit, reparent and wait (kernel/proc.c) as interleaved steps of all processes. Each
  acquire or release of wait_lock or of a p->lock is a step, and so is each process that
  a wakeup scan visits.
 */
module WaitExit {

  const INIT: nat := 0 // initproc

  datatype Status = Unused | Used | Live | Zombie

  /** Where a process is; the names follow the statements about to run. */
  datatype Pc =
    | Outside
    | WaitAcquire
    | WaitScan(next: nat, havekids: bool)  // the table scan, holding wait_lock
    | WaitLeave                            // release(&wait_lock) and return
    | Dozing                               // sleep: acquire(&p->lock)
    | DozingLocked                         // release(&wait_lock)
    | Marking                              // state = SLEEPING
    | Switching                            // sched(); the scheduler releases p->lock
    | Parked
    | Waking
    | ForkAcquire(child: nat)
    | ForkAdopt(child: nat)                // np->parent = p
    | ForkLeave(child: nat)
    | ForkStart(child: nat)                // np->state = RUNNABLE
    | ExitAcquire
    | Reparent(next: nat)
    | WakeInit(adopted: nat, next: nat)    // wakeup(initproc) inside reparent
    | WakeParent(next: nat)                // wakeup(p->parent)
    | ExitLock                             // acquire(&p->lock)
    | ExitMark                             // state = ZOMBIE
    | ExitLeave                            // release(&wait_lock)
    | ExitSwitch                           // sched(), for good
    | Dead

  /** `wl` holds wait_lock, or -1; `sleeping[p]` is SLEEPING on channel p. */
  datatype State = State(
    pc: seq<Pc>, st: seq<Status>, parent: seq<int>, sleeping: seq<bool>,
    plock: seq<bool>, killed: seq<bool>, wl: int)

  datatype Event =
    | Wait(p: nat) | Exit(p: nat) | Fork(p: nat, child: nat) | Kill(p: nat)
    | Step(p: nat)
    | CopyoutFails(p: nat) // wait finds a zombie but cannot report its status

  ghost predicate Shaped(s: State) {
    && |s.pc| == |s.st| == |s.parent| == |s.sleeping| == |s.plock| == |s.killed|
    && INIT < |s.pc|
  }

  /** wakeup(chan) may visit process k: it is p itself, or its lock is free. */
  predicate MayVisit(s: State, p: nat, k: nat)
    requires |s.pc| == |s.plock|
  {
    k < |s.pc| && k != p ==> !s.plock[k]
  }

  predicate StepEnabled(s: State, p: nat)
    requires p < |s.pc| == |s.plock| == |s.parent| == |s.sleeping|
  {
    match s.pc[p]
    case Outside => false
    case Dead => false
    case WaitAcquire => s.wl == -1
    case ForkAcquire(_) => s.wl == -1
    case ExitAcquire => s.wl == -1
    case WaitScan(k, _) => k < |s.pc| && s.parent[k] == p ==> !s.plock[k]
    case Dozing => !s.plock[p]
    case Parked => !s.sleeping[p] && !s.plock[p]
    case Waking => s.wl == -1
    case ForkAdopt(c) => c < |s.pc|
    case ForkStart(c) => c < |s.pc| && !s.plock[c]
    case WakeInit(_, k) => MayVisit(s, p, k)
    case WakeParent(k) => MayVisit(s, p, k)
    case ExitLock => !s.plock[p]
    case _ => true
  }

  ghost predicate Enabled(s: State, e: Event) {
    && Shaped(s) && e.p < |s.pc|
    && match e
       case Wait(p) => s.pc[p].Outside? && s.st[p].Live?
       case Exit(p) => s.pc[p].Outside? && s.st[p].Live? && p != INIT // else "init exiting"
       case Fork(p, c) => s.pc[p].Outside? && s.st[p].Live? && c < |s.pc| && s.st[c].Unused?
       case Kill(p) => !s.plock[p]
       case Step(p) => StepEnabled(s, p)
       case CopyoutFails(p) =>
         && s.pc[p].WaitScan? && s.pc[p].next < |s.pc| && s.parent[s.pc[p].next] == p
         && s.st[s.pc[p].next].Zombie? && StepEnabled(s, p)
  }

  function At(s: State, p: nat, pc: Pc): (r: State)
    requires p < |s.pc|
  {
    s.(pc := s.pc[p := pc])
  }

  /** One turn of wakeup(chan) by p at process k. */
  function Visit(s: State, p: nat, k: nat, chan: int): (r: State)
    requires k < |s.sleeping|
  {
    if k != p && k == chan then s.(sleeping := s.sleeping[k := false]) else s
  }

  /** One turn of wait's table scan at process k. */
  function ScanTurn(s: State, p: nat, k: nat, kids: bool): (r: State)
    requires p < |s.pc| == |s.st| == |s.parent| == |s.killed|
  {
    if k >= |s.pc| then
      (if !kids || s.killed[p] then At(s, p, WaitLeave) else At(s, p, Dozing))
    else if s.parent[k] != p then At(s, p, WaitScan(k + 1, kids))
    else if s.st[k].Zombie? then
      At(s, p, WaitLeave).(st := s.st[k := Unused], parent := s.parent[k := -1], killed := s.killed[k := false])
    else At(s, p, WaitScan(k + 1, true))
  }

  function WaitStep(s: State, p: nat): (r: State)
    requires p < |s.pc| == |s.st| == |s.parent| == |s.killed| == |s.sleeping| == |s.plock|
  {
    match s.pc[p]
    case WaitAcquire => At(s, p, WaitScan(0, false)).(wl := p)
    case WaitScan(k, kids) => ScanTurn(s, p, k, kids)
    case WaitLeave => At(s, p, Outside).(wl := -1)
    case Dozing => At(s, p, DozingLocked).(plock := s.plock[p := true])
    case DozingLocked => At(s, p, Marking).(wl := -1)
    case Marking => At(s, p, Switching).(sleeping := s.sleeping[p := true])
    case Switching => At(s, p, Parked).(plock := s.plock[p := false])
    case Parked => At(s, p, Waking)
    case Waking => At(s, p, WaitScan(0, false)).(wl := p)
    case _ => s
  }

  function ForkStep(s: State, p: nat): (r: State)
    requires p < |s.pc| == |s.st| == |s.parent|
    requires s.pc[p].ForkAdopt? || s.pc[p].ForkStart? ==> s.pc[p].child < |s.pc|
  {
    match s.pc[p]
    case ForkAcquire(c) => At(s, p, ForkAdopt(c)).(wl := p)
    case ForkAdopt(c) => At(s, p, ForkLeave(c)).(parent := s.parent[c := p])
    case ForkLeave(c) => At(s, p, ForkStart(c)).(wl := -1)
    case ForkStart(c) => At(s, p, Outside).(pc := s.pc[p := Outside][c := Outside], st := s.st[c := Live])
    case _ => s
  }

  function ExitStep(s: State, p: nat): (r: State)
    requires p < |s.pc| == |s.st| == |s.parent| == |s.sleeping| == |s.plock|
  {
    match s.pc[p]
    case ExitAcquire => At(s, p, Reparent(0)).(wl := p)
    case Reparent(j) =>
      if j >= |s.pc| then At(s, p, WakeParent(0))
      else if s.parent[j] == p then At(s, p, WakeInit(j, 0)).(parent := s.parent[j := INIT])
      else At(s, p, Reparent(j + 1))
    case WakeInit(j, k) =>
      if k >= |s.pc| then At(s, p, Reparent(j + 1))
      else Visit(At(s, p, WakeInit(j, k + 1)), p, k, INIT)
    case WakeParent(k) =>
      if k >= |s.pc| then At(s, p, ExitLock)
      else Visit(At(s, p, WakeParent(k + 1)), p, k, s.parent[p])
    case ExitLock => At(s, p, ExitMark).(plock := s.plock[p := true])
    case ExitMark => At(s, p, ExitLeave).(st := s.st[p := Zombie])
    case ExitLeave => At(s, p, ExitSwitch).(wl := -1)
    case ExitSwitch => At(s, p, Dead).(plock := s.plock[p := false])
    case _ => s
  }

  predicate InWait(pc: Pc) {
    pc.WaitAcquire? || pc.WaitScan? || pc.WaitLeave? || pc.Dozing? || pc.DozingLocked?
    || pc.Marking? || pc.Switching? || pc.Parked? || pc.Waking?
  }

  predicate InFork(pc: Pc) { pc.ForkAcquire? || pc.ForkAdopt? || pc.ForkLeave? || pc.ForkStart? }

  ghost function Apply(s: State, e: Event): (s': State)
    requires Enabled(s, e)
  {
    var p := e.p;
    match e
    case Wait(_) => At(s, p, WaitAcquire)
    case Exit(_) => At(s, p, ExitAcquire)
    case Fork(_, c) => At(s, p, ForkAcquire(c)).(st := s.st[c := Used])
    case Kill(_) => s.(killed := s.killed[p := true], sleeping := s.sleeping[p := false])
    case CopyoutFails(_) => At(s, p, WaitLeave)
    case Step(_) =>
      if InWait(s.pc[p]) then WaitStep(s, p)
      else if InFork(s.pc[p]) then ForkStep(s, p)
      else ExitStep(s, p)
  }

  // ---------------------------------------------------------------------------------
  // Invariant
  // ---------------------------------------------------------------------------------

  predicate HoldsWaitLock(pc: Pc) {
    pc.WaitScan? || pc.WaitLeave? || pc.Dozing? || pc.DozingLocked? || pc.ForkAdopt? || pc.ForkLeave?
    || pc.Reparent? || pc.WakeInit? || pc.WakeParent? || pc.ExitLock? || pc.ExitMark? || pc.ExitLeave?
  }

  predicate HoldsPlock(pc: Pc) {
    pc.DozingLocked? || pc.Marking? || pc.Switching? || pc.ExitMark? || pc.ExitLeave? || pc.ExitSwitch?
  }

  predicate InExit(pc: Pc) {
    pc.ExitAcquire? || pc.Reparent? || pc.WakeInit? || pc.WakeParent? || pc.ExitLock? || pc.ExitMark?
  }

  predicate AfterExit(pc: Pc) { pc.ExitLeave? || pc.ExitSwitch? || pc.Dead? }

  /** Has found no zombie and is asleep or on its way there. */
  predicate Committed(s: State, q: int)
    requires |s.pc| == |s.sleeping|
  {
    0 <= q < |s.pc| &&
    (s.sleeping[q] || s.pc[q].Dozing? || s.pc[q].DozingLocked? || s.pc[q].Marking? || s.pc[q].Switching?)
  }

  ghost predicate LocksAt(s: State, p: nat)
    requires Shaped(s) && p < |s.pc|
  {
    && (HoldsWaitLock(s.pc[p]) <==> s.wl == p)
    && (HoldsPlock(s.pc[p]) <==> s.plock[p])
    && (s.sleeping[p] ==> s.pc[p].Switching? || s.pc[p].Parked?)
  }

  /** Who is alive, and that nobody is its own parent. */
  ghost predicate StatusAt(s: State, p: nat)
    requires Shaped(s) && p < |s.pc|
  {
    && (InWait(s.pc[p]) || InFork(s.pc[p]) || InExit(s.pc[p]) ==> s.st[p].Live?)
    && (s.st[p].Zombie? ==> AfterExit(s.pc[p]))
    && (AfterExit(s.pc[p]) ==> !s.st[p].Live?)
    && (s.st[p].Unused? || s.st[p].Used? ==> s.pc[p].Outside? || s.pc[p].Dead?)
    && (InFork(s.pc[p]) ==> s.pc[p].child < |s.pc| && s.pc[p].child != p && s.st[s.pc[p].child].Used?)
    && (InExit(s.pc[p]) || AfterExit(s.pc[p]) ==> p != INIT)
    && s.parent[p] != p
  }

  /** A slot being filled by one fork is not filled by another. */
  ghost predicate ForksApart(s: State, p: nat, q: nat)
    requires Shaped(s) && p < |s.pc| && q < |s.pc|
  {
    InFork(s.pc[p]) && InFork(s.pc[q]) && s.pc[p].child == s.pc[q].child ==> p == q
  }

  /** An exiting process has seen to it that its parent will look again. */
  ghost predicate AwakeAt(s: State, x: nat)
    requires Shaped(s) && x < |s.pc|
  {
    && (s.pc[x].WakeParent? && s.parent[x] < s.pc[x].next ==> !Committed(s, s.parent[x]))
    && (s.pc[x].ExitLock? || s.pc[x].ExitMark? ==> !Committed(s, s.parent[x]))
  }

  /** A scanning parent has passed no zombie of its own. */
  ghost predicate ScannedAt(s: State, q: nat, c: nat)
    requires Shaped(s) && q < |s.pc| && c < |s.pc|
  {
    s.pc[q].WaitScan? && c < s.pc[q].next && s.parent[c] == q ==> !s.st[c].Zombie?
  }

  /** The wakeup(initproc) for child c has not come to init yet. */
  predicate Rescue(s: State, q: int, c: nat) {
    && 0 <= s.wl < |s.pc| && q == INIT
    && s.pc[s.wl].WakeInit? && s.pc[s.wl].adopted == c && s.pc[s.wl].next <= INIT
  }

  /** No process is committed to sleep over its own zombie child c. */
  ghost predicate NotLostAt(s: State, c: nat)
    requires Shaped(s) && c < |s.pc|
  {
    s.st[c].Zombie? && Committed(s, s.parent[c]) ==> Rescue(s, s.parent[c], c)
  }

  ghost predicate LockInv(s: State) {
    && Shaped(s) && (s.wl == -1 || 0 <= s.wl < |s.pc|)
    && (forall p :: 0 <= p < |s.pc| ==> LocksAt(s, p))
  }

  ghost predicate StatusInv(s: State) {
    && Shaped(s) && s.st[INIT].Live? && s.parent[INIT] == -1
    && (forall p :: 0 <= p < |s.pc| ==> StatusAt(s, p))
    && (forall p, q :: 0 <= p < |s.pc| && 0 <= q < |s.pc| ==> ForksApart(s, p, q))
  }

  ghost predicate WakeInv(s: State) {
    && Shaped(s)
    && (forall x :: 0 <= x < |s.pc| ==> AwakeAt(s, x))
    && (forall q, c :: 0 <= q < |s.pc| && 0 <= c < |s.pc| ==> ScannedAt(s, q, c))
    && (forall c :: 0 <= c < |s.pc| ==> NotLostAt(s, c))
  }

  ghost predicate Inv(s: State) { LockInv(s) && StatusInv(s) && WakeInv(s) }

  /** c has a parent that is alive. */
  ghost predicate Parented(s: State, c: nat)
    requires Shaped(s) && c < |s.pc|
  {
    0 <= s.parent[c] < |s.pc| && s.st[s.parent[c]].Live?
  }

  ghost predicate Init(s: State) {
    && Shaped(s) && s.wl == -1 && s.st[INIT].Live? && s.parent[INIT] == -1
    && (forall p :: 0 <= p < |s.pc| ==>
          s.pc[p].Outside? && !s.sleeping[p] && !s.plock[p] && s.parent[p] != p
          && (s.st[p].Live? || s.st[p].Unused?))
    && (forall p :: 0 <= p < |s.pc| && p != INIT && s.st[p].Live? ==> Parented(s, p))
  }

  // ---------------------------------------------------------------------------------
  // What one step can change
  // ---------------------------------------------------------------------------------

  /** The groups of program counters do not overlap. */
  lemma PcKinds(pc: Pc)
    ensures InWait(pc) ==> !InFork(pc) && !InExit(pc) && !AfterExit(pc) && !pc.Outside?
    ensures InFork(pc) ==> !InExit(pc) && !AfterExit(pc) && !pc.Outside?
    ensures InExit(pc) ==> !AfterExit(pc) && !pc.Outside?
    ensures AfterExit(pc) ==> !pc.Outside?
    ensures pc.Dead? ==> AfterExit(pc)
  {}

  /** A step of p changes the counter, lock and sleep flag of p, and at most one process's status and parent. */
  ghost predicate Shape(s: State, p: nat, s': State, k: nat) {
    && Shaped(s) && Shaped(s') && |s'.pc| == |s.pc| && p < |s.pc| && k < |s.pc|
    && s'.pc == s.pc[p := s'.pc[p]] && s'.plock == s.plock[p := s'.plock[p]]
    && (forall q :: 0 <= q < |s.pc| && q != p && s'.sleeping[q] ==> s.sleeping[q])
    && s'.st == s.st[k := s'.st[k]] && s'.parent == s.parent[k := s'.parent[k]]
    && (s'.wl == s.wl || s'.wl == -1 || s'.wl == p)
  }

  /** The child that wait's scan has come to, or p itself. */
  function Looked(s: State, p: nat): (k: nat)
    requires p < |s.pc|
    ensures k < |s.pc|
  {
    if s.pc[p].WaitScan? && s.pc[p].next < |s.pc| then s.pc[p].next
    else if s.pc[p].Reparent? && s.pc[p].next < |s.pc| then s.pc[p].next
    else p
  }

  lemma WaitShape(s: State, p: nat)
    requires Shaped(s) && p < |s.pc| && InWait(s.pc[p])
    ensures Shape(s, p, WaitStep(s, p), Looked(s, p))
  {}

  lemma WaitOwn(s: State, p: nat)
    requires Shaped(s) && p < |s.pc| && InWait(s.pc[p])
    ensures var s', k := WaitStep(s, p), Looked(s, p);
            && Shaped(s') && |s'.pc| == |s.pc| && (InWait(s'.pc[p]) || s'.pc[p].Outside?)
            && ((s'.st[k] == s.st[k] && s'.parent[k] == s.parent[k])
                || (s.pc[p].WaitScan? && s.pc[p].next == k && s.parent[k] == p && s.st[k].Zombie?
                    && s'.st[k].Unused? && s'.parent[k] == -1))
  {}

  lemma WaitLocks(s: State, p: nat)
    requires Shaped(s) && p < |s.pc| && InWait(s.pc[p]) && StepEnabled(s, p) && LocksAt(s, p)
    ensures var s' := WaitStep(s, p);
            && Shaped(s') && |s'.pc| == |s.pc| && LocksAt(s', p)
            && (s'.wl != s.wl ==> s.wl == -1 || s.wl == p)
  {}

  lemma ExitShape(s: State, p: nat)
    requires Shaped(s) && p < |s.pc| && !InWait(s.pc[p]) && !InFork(s.pc[p])
    ensures Shape(s, p, ExitStep(s, p), Looked(s, p))
  {
    hide InWait, InFork;
  }

  lemma ExitOwn(s: State, p: nat)
    requires Shaped(s) && p < |s.pc| && !InWait(s.pc[p]) && !InFork(s.pc[p])
    ensures var s', k := ExitStep(s, p), Looked(s, p);
            && Shaped(s') && |s'.pc| == |s.pc|
            && (s.pc[p].Outside? || s.pc[p].Dead? ==> s' == s)
            && (InExit(s.pc[p]) ==> InExit(s'.pc[p]) || (s.pc[p].ExitMark? && AfterExit(s'.pc[p])))
            && (AfterExit(s.pc[p]) ==> AfterExit(s'.pc[p]))
            && (s'.parent[k] == s.parent[k]
                || (k != p && s.parent[k] == p && s'.parent[k] == INIT && s'.st[k] == s.st[k])
                || (k == p && s.parent[p] == p))
            && (s'.st[k] == s.st[k] || (k == p && s.pc[p].ExitMark? && s'.st[p].Zombie? && AfterExit(s'.pc[p])))
            && (s.pc[p].ExitMark? ==> s'.st[p].Zombie?)
  {}

  lemma ExitLocks(s: State, p: nat)
    requires Shaped(s) && p < |s.pc| && !InWait(s.pc[p]) && !InFork(s.pc[p]) && StepEnabled(s, p) && LocksAt(s, p)
    ensures var s' := ExitStep(s, p);
            && Shaped(s') && |s'.pc| == |s.pc| && LocksAt(s', p)
            && (s'.wl != s.wl ==> s.wl == -1 || s.wl == p)
  {}

  // ---------------------------------------------------------------------------------
  // Locks
  // ---------------------------------------------------------------------------------

  lemma LocksWait(s: State, p: nat, q: nat)
    requires LockInv(s) && p < |s.pc| && q < |s.pc| && InWait(s.pc[p]) && StepEnabled(s, p)
    ensures var s' := WaitStep(s, p);
            Shaped(s') && |s'.pc| == |s.pc| && LocksAt(s', q) && (s'.wl == -1 || 0 <= s'.wl < |s'.pc|)
  {
    hide WaitStep, InWait, StepEnabled, HoldsWaitLock, HoldsPlock;
    assert LocksAt(s, p) && LocksAt(s, q);
    WaitShape(s, p);
    WaitLocks(s, p);
  }

  lemma LocksExit(s: State, p: nat, q: nat)
    requires LockInv(s) && p < |s.pc| && q < |s.pc| && StepEnabled(s, p)
    requires !InWait(s.pc[p]) && !InFork(s.pc[p])
    ensures var s' := ExitStep(s, p);
            Shaped(s') && |s'.pc| == |s.pc| && LocksAt(s', q) && (s'.wl == -1 || 0 <= s'.wl < |s'.pc|)
  {
    hide ExitStep, InWait, InFork, StepEnabled, HoldsWaitLock, HoldsPlock;
    assert LocksAt(s, p) && LocksAt(s, q);
    ExitShape(s, p);
    ExitLocks(s, p);
  }

  lemma LocksFork(s: State, p: nat, q: nat)
    requires LockInv(s) && StatusInv(s) && p < |s.pc| && q < |s.pc| && InFork(s.pc[p]) && StepEnabled(s, p)
    ensures var s' := ForkStep(s, p);
            Shaped(s') && |s'.pc| == |s.pc| && LocksAt(s', q) && (s'.wl == -1 || 0 <= s'.wl < |s'.pc|)
  {
    assert LocksAt(s, p) && LocksAt(s, q) && StatusAt(s, p);
    assert LocksAt(s, s.pc[p].child) && StatusAt(s, s.pc[p].child);
  }

  lemma LocksStart(s: State, e: Event, q: nat)
    requires LockInv(s) && Enabled(s, e) && !e.Step? && q < |s.pc|
    ensures var s' := Apply(s, e);
            Shaped(s') && |s'.pc| == |s.pc| && LocksAt(s', q) && (s'.wl == -1 || 0 <= s'.wl < |s'.pc|)
  {
    assert LocksAt(s, e.p) && LocksAt(s, q);
  }

  lemma LocksAny(s: State, e: Event, q: nat)
    requires LockInv(s) && StatusInv(s) && Enabled(s, e) && q < |s.pc|
    ensures var s' := Apply(s, e);
            Shaped(s') && |s'.pc| == |s.pc| && LocksAt(s', q) && (s'.wl == -1 || 0 <= s'.wl < |s'.pc|)
  {
    hide LocksAt, StatusInv, WaitStep, ExitStep, ForkStep, StepEnabled, InWait, InFork;
    if !e.Step? { LocksStart(s, e, q); }
    else if InWait(s.pc[e.p]) { LocksWait(s, e.p, q); }
    else if InFork(s.pc[e.p]) { LocksFork(s, e.p, q); }
    else { LocksExit(s, e.p, q); }
  }

  lemma LockStep(s: State, e: Event)
    requires LockInv(s) && StatusInv(s) && Enabled(s, e)
    ensures LockInv(Apply(s, e)) && |Apply(s, e).pc| == |s.pc|
  {
    hide LocksAt, StatusInv, Apply;
    var s' := Apply(s, e);
    LocksAny(s, e, e.p);
    forall q | 0 <= q < |s.pc| ensures LocksAt(s', q) {
      LocksAny(s, e, q);
    }
  }

  // ---------------------------------------------------------------------------------
  // Status
  // ---------------------------------------------------------------------------------

  lemma ScanUnlocked(s: State, p: nat)
    requires Shaped(s) && p < |s.pc| && StepEnabled(s, p) && s.pc[p].WaitScan? && s.pc[p].next < |s.pc|
    ensures s.parent[s.pc[p].next] == p ==> !s.plock[s.pc[p].next]
  {}

  /** A zombie whose lock is free has left the CPU for good. */
  lemma ReapedDead(s: State, k: nat)
    requires Shaped(s) && k < |s.pc| && LocksAt(s, k) && StatusAt(s, k) && s.st[k].Zombie? && !s.plock[k]
    ensures s.pc[k].Dead?
  {}

  lemma StatusWait(s: State, p: nat, q: nat)
    requires LockInv(s) && StatusInv(s) && p < |s.pc| && q < |s.pc|
    requires InWait(s.pc[p]) && StepEnabled(s, p)
    ensures var s' := WaitStep(s, p);
            && Shaped(s') && |s'.pc| == |s.pc| && StatusAt(s', q)
            && s'.st[INIT].Live? && s'.parent[INIT] == -1
            && (InFork(s'.pc[q]) ==> InFork(s.pc[q]) && s'.pc[q] == s.pc[q])
  {
    hide WaitStep, InWait, InExit, AfterExit, StepEnabled, LocksAt;
    var s', k := WaitStep(s, p), Looked(s, p);
    WaitShape(s, p);
    WaitOwn(s, p);
    PcKinds(s.pc[p]);
    PcKinds(s.pc[q]);
    PcKinds(s'.pc[p]);
    assert StatusAt(s, p) && StatusAt(s, q) && StatusAt(s, k) && LocksAt(s, k);
    if s.pc[p].WaitScan? && s.pc[p].next < |s.pc| { ScanUnlocked(s, p); }
    if s'.st[k] != s.st[k] { ReapedDead(s, k); }
    PcKinds(s.pc[k]);
  }

  lemma StatusExit(s: State, p: nat, q: nat)
    requires StatusInv(s) && p < |s.pc| && q < |s.pc| && StepEnabled(s, p)
    requires !InWait(s.pc[p]) && !InFork(s.pc[p])
    ensures var s' := ExitStep(s, p);
            && Shaped(s') && |s'.pc| == |s.pc| && StatusAt(s', q)
            && s'.st[INIT].Live? && s'.parent[INIT] == -1
            && (InFork(s'.pc[q]) ==> InFork(s.pc[q]) && s'.pc[q] == s.pc[q])
  {
    hide ExitStep, InWait, InExit, AfterExit, StepEnabled;
    var s', k := ExitStep(s, p), Looked(s, p);
    ExitShape(s, p);
    ExitOwn(s, p);
    PcKinds(s.pc[p]);
    PcKinds(s.pc[q]);
    PcKinds(s'.pc[p]);
    PcAll(s.pc[p]);
    assert StatusAt(s, p) && StatusAt(s, q) && StatusAt(s, k) && StatusAt(s, INIT);
    if s.pc[p].ExitMark? { ExitMarkIs(s.pc[p]); }
  }

  lemma PcAll(pc: Pc)
    ensures pc.Outside? || InWait(pc) || InFork(pc) || InExit(pc) || AfterExit(pc)
  {}

  lemma ExitMarkIs(pc: Pc)
    requires pc.ExitMark?
    ensures InExit(pc)
  {}

  lemma StatusFork(s: State, p: nat, q: nat)
    requires StatusInv(s) && p < |s.pc| && q < |s.pc| && InFork(s.pc[p]) && StepEnabled(s, p)
    ensures var s' := ForkStep(s, p);
            && Shaped(s') && |s'.pc| == |s.pc| && StatusAt(s', q)
            && s'.st[INIT].Live? && s'.parent[INIT] == -1
            && (InFork(s'.pc[q]) ==> InFork(s.pc[q]) && s'.pc[q].child == s.pc[q].child)
  {
    assert StatusAt(s, p) && StatusAt(s, q) && StatusAt(s, s.pc[p].child) && ForksApart(s, p, q);
    hide StatusInv, StatusAt;
    if s.pc[p].ForkStart? { StatusForkStart(s, p, q); } else { StatusForkOn(s, p, q); }
  }

  /** np becomes RUNNABLE. */
  lemma StatusForkStart(s: State, p: nat, q: nat)
    requires Shaped(s) && p < |s.pc| && q < |s.pc| && s.pc[p].ForkStart? && StepEnabled(s, p)
    requires s.st[INIT].Live? && s.parent[INIT] == -1
    requires StatusAt(s, p) && StatusAt(s, q) && StatusAt(s, s.pc[p].child) && ForksApart(s, p, q)
    ensures var s' := ForkStep(s, p);
            && Shaped(s') && |s'.pc| == |s.pc| && StatusAt(s', q)
            && s'.st[INIT].Live? && s'.parent[INIT] == -1
            && (InFork(s'.pc[q]) ==> InFork(s.pc[q]) && s'.pc[q].child == s.pc[q].child)
  {}

  lemma StatusForkOn(s: State, p: nat, q: nat)
    requires Shaped(s) && p < |s.pc| && q < |s.pc| && InFork(s.pc[p]) && !s.pc[p].ForkStart? && StepEnabled(s, p)
    requires s.st[INIT].Live? && s.parent[INIT] == -1
    requires StatusAt(s, p) && StatusAt(s, q) && StatusAt(s, s.pc[p].child)
    ensures var s' := ForkStep(s, p);
            && Shaped(s') && |s'.pc| == |s.pc| && StatusAt(s', q)
            && s'.st[INIT].Live? && s'.parent[INIT] == -1
            && (InFork(s'.pc[q]) ==> InFork(s.pc[q]) && s'.pc[q].child == s.pc[q].child)
  {}

  lemma StatusStart(s: State, e: Event, q: nat)
    requires StatusInv(s) && Enabled(s, e) && !e.Step? && q < |s.pc|
    ensures var s' := Apply(s, e);
            && Shaped(s') && |s'.pc| == |s.pc| && StatusAt(s', q)
            && s'.st[INIT].Live? && s'.parent[INIT] == -1
            && (InFork(s'.pc[q]) ==>
                  if e.Fork? && q == e.p then s'.pc[q].child == e.child
                  else InFork(s.pc[q]) && s'.pc[q] == s.pc[q])
  {
    assert StatusAt(s, e.p) && StatusAt(s, q);
    if e.Fork? { assert StatusAt(s, e.child); }
  }

  lemma StatusAny(s: State, e: Event, q: nat)
    requires LockInv(s) && StatusInv(s) && Enabled(s, e) && q < |s.pc|
    ensures var s' := Apply(s, e);
            && Shaped(s') && |s'.pc| == |s.pc| && StatusAt(s', q)
            && s'.st[INIT].Live? && s'.parent[INIT] == -1
            && (InFork(s'.pc[q]) ==>
                  if e.Fork? && q == e.p then s'.pc[q].child == e.child && s.st[e.child].Unused?
                  else InFork(s.pc[q]) && s'.pc[q].child == s.pc[q].child && s.st[s.pc[q].child].Used?)
  {
    hide StatusAt, WaitStep, ExitStep, ForkStep, StepEnabled, InWait, InFork, LockInv;
    if InFork(s.pc[q]) { ForkUsed(s, q); }
    if !e.Step? { StatusStart(s, e, q); }
    else if InWait(s.pc[e.p]) { StatusWait(s, e.p, q); }
    else if InFork(s.pc[e.p]) { StatusFork(s, e.p, q); }
    else { StatusExit(s, e.p, q); }
  }

  lemma ForkUsed(s: State, q: nat)
    requires StatusInv(s) && q < |s.pc| && InFork(s.pc[q])
    ensures s.pc[q].child < |s.pc| && s.st[s.pc[q].child].Used?
  {
    assert StatusAt(s, q);
  }

  lemma StatusStep(s: State, e: Event)
    requires LockInv(s) && StatusInv(s) && Enabled(s, e)
    ensures StatusInv(Apply(s, e)) && |Apply(s, e).pc| == |s.pc|
  {
    hide StatusAt, Apply, LockInv, InFork;
    var s' := Apply(s, e);
    StatusAny(s, e, e.p);
    forall q | 0 <= q < |s.pc| ensures StatusAt(s', q) {
      StatusAny(s, e, q);
    }
    forall p, q | 0 <= p < |s.pc| && 0 <= q < |s.pc| ensures ForksApart(s', p, q) {
      StatusAny(s, e, p);
      StatusAny(s, e, q);
      assert ForksApart(s, p, q);
    }
  }

  // ---------------------------------------------------------------------------------
  // Wakeups
  // ---------------------------------------------------------------------------------

  /** What a step of p can do to process c. */
  ghost predicate Facts(s: State, p: nat, s': State, c: nat) {
    && Shaped(s) && Shaped(s') && |s'.pc| == |s.pc| && p < |s.pc| && c < |s.pc|
    && (Committed(s', c) && !Committed(s, c) ==>
          c == p && s.pc[p].WaitScan? && s.pc[p].next >= |s.pc|)
    && (s'.st[c].Zombie? && !s.st[c].Zombie? ==> c == p && s.pc[p].ExitMark?)
    && (s'.parent[c] != s.parent[c] ==> HoldsWaitLock(s.pc[p]))
    && (s'.parent[c] != s.parent[c] && s'.st[c].Zombie? ==>
          s'.parent[c] == INIT && s'.pc[p] == WakeInit(c, 0) && s'.wl == p)
    && (c != p ==> s'.pc[c] == s.pc[c] || s'.pc[c].Outside?)
    && (s'.wl != s.wl ==> s.wl == -1 || s.wl == p)
  }

  lemma FactsWait(s: State, p: nat, c: nat)
    requires LockInv(s) && p < |s.pc| && c < |s.pc| && InWait(s.pc[p]) && StepEnabled(s, p)
    ensures Facts(s, p, WaitStep(s, p), c)
  {
    assert LocksAt(s, p) && LocksAt(s, c);
  }

  lemma FactsExit(s: State, p: nat, c: nat)
    requires LockInv(s) && p < |s.pc| && c < |s.pc| && StepEnabled(s, p)
    requires !InWait(s.pc[p]) && !InFork(s.pc[p])
    ensures Facts(s, p, ExitStep(s, p), c)
  {
    assert LocksAt(s, p) && LocksAt(s, c);
  }

  lemma FactsFork(s: State, p: nat, c: nat)
    requires LockInv(s) && StatusInv(s) && p < |s.pc| && c < |s.pc| && InFork(s.pc[p]) && StepEnabled(s, p)
    ensures Facts(s, p, ForkStep(s, p), c)
  {
    assert LocksAt(s, p) && StatusAt(s, p) && LocksAt(s, c);
  }

  lemma FactsStart(s: State, e: Event, c: nat)
    requires LockInv(s) && Enabled(s, e) && !e.Step? && c < |s.pc|
    ensures Facts(s, e.p, Apply(s, e), c)
  {
    assert LocksAt(s, e.p) && LocksAt(s, c);
  }

  lemma FactsAny(s: State, e: Event, c: nat)
    requires LockInv(s) && StatusInv(s) && Enabled(s, e) && c < |s.pc|
    ensures Facts(s, e.p, Apply(s, e), c)
  {
    hide Facts, WaitStep, ExitStep, ForkStep, StepEnabled, InWait, InFork, LockInv, StatusInv;
    if !e.Step? { FactsStart(s, e, c); }
    else if InWait(s.pc[e.p]) { FactsWait(s, e.p, c); }
    else if InFork(s.pc[e.p]) { FactsFork(s, e.p, c); }
    else { FactsExit(s, e.p, c); }
  }

  /** The exiter's own wakeup loop: whoever it has visited is not committed. */
  lemma VisitedAwake(s: State, x: nat, k: nat)
    requires LockInv(s) && x < |s.pc| && k < |s.pc| && k != x && s.wl == x && !s.plock[k]
    ensures !Committed(s.(sleeping := s.sleeping[k := false]), k)
  {
    assert LocksAt(s, k);
  }

  lemma AwakeSelf(s: State, x: nat)
    requires LockInv(s) && StatusInv(s) && x < |s.pc| && AwakeAt(s, x) && StepEnabled(s, x)
    requires !InWait(s.pc[x]) && !InFork(s.pc[x])
    ensures Shaped(ExitStep(s, x)) && |ExitStep(s, x).pc| == |s.pc| && AwakeAt(ExitStep(s, x), x)
  {
    assert LocksAt(s, x) && StatusAt(s, x);
    var k := s.parent[x];
    if s.pc[x].WakeParent? && 0 <= k < |s.pc| && s.pc[x].next == k {
      VisitedAwake(s, x, k);
    }
  }

  lemma AwakeStep(s: State, e: Event, x: nat)
    requires Inv(s) && Enabled(s, e) && x < |s.pc|
    ensures Shaped(Apply(s, e)) && |Apply(s, e).pc| == |s.pc| && AwakeAt(Apply(s, e), x)
  {
    var s' := Apply(s, e);
    FactsAny(s, e, x);
    assert AwakeAt(s, x) && LocksAt(s, x) && LocksAt(s, e.p) && StatusAt(s, x);
    if 0 <= s.parent[x] < |s.pc| { FactsAny(s, e, s.parent[x]); }
    if x == e.p {
      if e.Step? && !InWait(s.pc[x]) && !InFork(s.pc[x]) {
        AwakeSelf(s, x);
      } else {
        NotExiting(s, e);
      }
    } else {
      hide Apply, Enabled, Inv;
    }
  }

  predicate InWakeup(pc: Pc) { pc.WakeParent? || pc.ExitLock? || pc.ExitMark? }

  lemma WakeupIsExit(pc: Pc)
    ensures InWakeup(pc) ==> InExit(pc)
  {}

  lemma NotExiting(s: State, e: Event)
    requires Enabled(s, e) && (e.Step? ==> InWait(s.pc[e.p]) || InFork(s.pc[e.p]))
    requires AwakeAt(s, e.p) && (e.Step? && InFork(s.pc[e.p]) ==> s.pc[e.p].child != e.p)
    ensures Shaped(Apply(s, e)) && e.p < |Apply(s, e).pc| && AwakeAt(Apply(s, e), e.p)
  {
    hide InWait, InFork, InExit, AfterExit, StepEnabled;
    var p := e.p;
    if e.Step? && InWait(s.pc[p]) {
      hide WaitStep, ForkStep, ExitStep;
      WaitShape(s, p);
      WaitOwn(s, p);
      PcKinds(WaitStep(s, p).pc[p]);
      WakeupIsExit(WaitStep(s, p).pc[p]);
    } else if e.Step? {
      PcKinds(s.pc[p]);
      hide WaitStep, ExitStep;
      ForkLeaves(s, p);
    } else {
      hide WaitStep, ForkStep, ExitStep;
    }
  }

  lemma ForkLeaves(s: State, p: nat)
    requires Shaped(s) && p < |s.pc| && InFork(s.pc[p]) && StepEnabled(s, p) && s.pc[p].child != p
    ensures var s' := ForkStep(s, p); Shaped(s') && p < |s'.pc| && !InWakeup(s'.pc[p])
  {}

  lemma ScannedStep(s: State, e: Event, q: nat, c: nat)
    requires Inv(s) && Enabled(s, e) && q < |s.pc| && c < |s.pc|
    ensures Shaped(Apply(s, e)) && |Apply(s, e).pc| == |s.pc| && ScannedAt(Apply(s, e), q, c)
  {
    FactsAny(s, e, c);
    FactsAny(s, e, q);
    assert ScannedAt(s, q, c) && LocksAt(s, q) && LocksAt(s, e.p);
    if q != e.p {
      hide Apply, Enabled, Inv;
    } else {
      ScannedSelf(s, e, c);
    }
  }

  lemma ScannedSelf(s: State, e: Event, c: nat)
    requires Enabled(s, e) && c < |s.pc| && ScannedAt(s, e.p, c)
    ensures Shaped(Apply(s, e)) && |Apply(s, e).pc| == |s.pc| && ScannedAt(Apply(s, e), e.p, c)
  {
    hide WaitStep, ForkStep, ExitStep, StepEnabled, ScannedAt;
    if e.Step? && InWait(s.pc[e.p]) {
      ScannedWait(s, e.p, c);
    } else if e.Step? && InFork(s.pc[e.p]) {
      NotScanningFork(s, e.p, c);
    } else if e.Step? {
      NotScanningExit(s, e.p, c);
    } else {
      NotScanningStart(s, e, c);
    }
  }

  lemma ScannedWait(s: State, p: nat, c: nat)
    requires Shaped(s) && p < |s.pc| && c < |s.pc| && ScannedAt(s, p, c) && InWait(s.pc[p])
    ensures Shaped(WaitStep(s, p)) && |WaitStep(s, p).pc| == |s.pc| && ScannedAt(WaitStep(s, p), p, c)
  {}

  lemma NotScanningFork(s: State, p: nat, c: nat)
    requires Shaped(s) && p < |s.pc| && c < |s.pc| && InFork(s.pc[p]) && StepEnabled(s, p)
    ensures Shaped(ForkStep(s, p)) && |ForkStep(s, p).pc| == |s.pc| && ScannedAt(ForkStep(s, p), p, c)
  {}

  lemma NotScanningExit(s: State, p: nat, c: nat)
    requires Shaped(s) && p < |s.pc| && c < |s.pc| && !InWait(s.pc[p]) && !InFork(s.pc[p])
    ensures Shaped(ExitStep(s, p)) && |ExitStep(s, p).pc| == |s.pc| && ScannedAt(ExitStep(s, p), p, c)
  {}

  lemma NotScanningStart(s: State, e: Event, c: nat)
    requires Enabled(s, e) && !e.Step? && c < |s.pc| && ScannedAt(s, e.p, c)
    ensures Shaped(Apply(s, e)) && |Apply(s, e).pc| == |s.pc| && ScannedAt(Apply(s, e), e.p, c)
  {}

  /** A rescue in progress goes on until init has been woken. */
  lemma RescueStep(s: State, e: Event, c: nat)
    requires Inv(s) && Enabled(s, e) && c < |s.pc| && Rescue(s, INIT, c)
    requires LockInv(Apply(s, e)) && |Apply(s, e).pc| == |s.pc|
    ensures Rescue(Apply(s, e), INIT, c) || !Committed(Apply(s, e), INIT)
  {
    var w := s.wl;
    assert LocksAt(s, w) && LocksAt(s, e.p) && StatusAt(s, w);
    if e.p == w {
      if e.Step? && s.pc[w].next == INIT { VisitedAwake(s, w, INIT); }
    } else {
      FactsAny(s, e, w);
      FactsAny(s, e, INIT);
      assert LocksAt(Apply(s, e), w);
      hide Apply, Enabled, Inv;
    }
  }

  lemma NotLostStep(s: State, e: Event, c: nat)
    requires Inv(s) && Enabled(s, e) && c < |s.pc|
    ensures Shaped(Apply(s, e)) && |Apply(s, e).pc| == |s.pc| && NotLostAt(Apply(s, e), c)
  {
    LockStep(s, e);
    FactsAny(s, e, c);
    assert NotLostAt(s, c) && AwakeAt(s, c) && StatusAt(s, c);
    var s', q := Apply(s, e), s.parent[c];
    if 0 <= q < |s.pc| {
      FactsAny(s, e, q);
      assert ScannedAt(s, q, c);
    }
    if Rescue(s, q, c) { RescueStep(s, e, c); }
    hide Apply, Enabled, Inv, LockInv;
    if s'.st[c].Zombie? && Committed(s', s'.parent[c]) && s'.parent[c] != q {
      assert Rescue(s', INIT, c);
    }
  }

  lemma WakeStep(s: State, e: Event)
    requires Inv(s) && Enabled(s, e)
    ensures WakeInv(Apply(s, e))
  {
    hide Apply, Inv, AwakeAt, ScannedAt, NotLostAt;
    var s' := Apply(s, e);
    AwakeStep(s, e, e.p);
    forall x | 0 <= x < |s'.pc| ensures AwakeAt(s', x) { AwakeStep(s, e, x); }
    forall q, c | 0 <= q < |s'.pc| && 0 <= c < |s'.pc| ensures ScannedAt(s', q, c) { ScannedStep(s, e, q, c); }
    forall c | 0 <= c < |s'.pc| ensures NotLostAt(s', c) { NotLostStep(s, e, c); }
  }

  // ---------------------------------------------------------------------------------
  // Runs
  // ---------------------------------------------------------------------------------

  ghost predicate IsRun(run: seq<State>, ev: seq<Event>) {
    && |run| == |ev| + 1
    && Init(run[0])
    && (forall i :: 0 <= i < |ev| ==> Enabled(run[i], ev[i]) && run[i + 1] == Apply(run[i], ev[i]))
  }

  lemma StepInv(s: State, e: Event)
    requires Inv(s) && Enabled(s, e)
    ensures Inv(Apply(s, e))
  {
    hide Apply, Enabled, LockInv, StatusInv, WakeInv;
    LockStep(s, e);
    StatusStep(s, e);
    WakeStep(s, e);
  }

  lemma {:induction false} RunInv(run: seq<State>, ev: seq<Event>, i: nat)
    requires IsRun(run, ev) && i <= |ev|
    ensures Inv(run[i])
  {
    if i > 0 {
      hide Apply, Enabled, Inv, Init;
      RunInv(run, ev, i - 1);
      StepInv(run[i - 1], ev[i - 1]);
    }
  }

  /**
    In every interleaving, whenever wait_lock is free no process is asleep in wait while it
    has a ZOMBIE child, its own or one handed to init.
   */
  lemma NoLostExit(run: seq<State>, ev: seq<Event>, i: nat, q: nat, c: nat)
    requires IsRun(run, ev) && i <= |ev| && run[i].wl == -1
    requires q < |run[i].pc| && c < |run[i].pc|
    ensures Shaped(run[i])
    ensures run[i].st[c].Zombie? && run[i].parent[c] == q ==> !run[i].sleeping[q]
  {
    RunInv(run, ev, i);
    hide IsRun;
    assert NotLostAt(run[i], c);
  }

  /** Nor is one on its way to sleep, and init is never a zombie. */
  lemma NoLostExitWindow(run: seq<State>, ev: seq<Event>, i: nat, c: nat)
    requires IsRun(run, ev) && i <= |ev| && c < |run[i].pc|
    ensures Shaped(run[i]) && run[i].st[INIT].Live?
    ensures run[i].st[c].Zombie? && Committed(run[i], run[i].parent[c]) ==>
              run[i].parent[c] == INIT && run[i].wl != -1
  {
    RunInv(run, ev, i);
    hide IsRun;
    assert NotLostAt(run[i], c);
  }
}
