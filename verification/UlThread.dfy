/**
  The user-level thread scheduler of user/ulthread.c: round-robin dispatch as a run of steps
  with bounded waiting, and the choice made in priority mode.
 */
module UlThread {

  const MAXULTHREADS: nat := 100

  datatype Status = FREE | RUNNABLE | YIELD
  datatype Thread = Thread(tid: int, status: Status, priority: int)

  type Threads = seq<Thread>

  /** `running` between a context switch to thread cur and the switch back. */
  datatype State = State(threads: Threads, cur: int, running: bool)

  datatype Event = Create(priority: int) | Dispatch | Yield | Destroy

  // ---------------------------------------------------------------------------------
  // Round robin
  // ---------------------------------------------------------------------------------

  predicate Ready(ts: Threads, e: int)
    requires |ts| == MAXULTHREADS && 0 <= e < MAXULTHREADS
  {
    e != 0 && ts[e].status.RUNNABLE?
  }

  /** How far round-robin has to go from cur to reach e. */
  function Distance(cur: int, e: int): (d: nat)
    ensures d < MAXULTHREADS
  {
    (e - cur) % MAXULTHREADS
  }

  lemma DistanceOf(cur: nat, i: nat)
    requires i < MAXULTHREADS
    ensures Distance(cur, (cur + i) % MAXULTHREADS) == i
    ensures forall x :: 0 <= x < MAXULTHREADS && Distance(cur, x) == i ==> x == (cur + i) % MAXULTHREADS
  {}

  /** Going part of the way to j leaves the rest of it. */
  lemma DistanceNearer(cur: nat, n: nat, j: nat)
    requires cur < MAXULTHREADS && n < MAXULTHREADS && j < MAXULTHREADS && n != cur
    requires Distance(cur, n) <= Distance(cur, j)
    ensures Distance(n, j) < Distance(cur, j)
  {}

  /** The first ready thread at cyclic distance i or more from cur, or -1. */
  function Next(ts: Threads, cur: nat, i: nat): (e: int)
    requires |ts| == MAXULTHREADS && i <= MAXULTHREADS
    ensures e != -1 ==> 0 < e < MAXULTHREADS && Ready(ts, e) && Distance(cur, e) >= i
    ensures forall x :: 0 <= x < MAXULTHREADS && Ready(ts, x) && Distance(cur, x) >= i ==>
              e != -1 && Distance(cur, e) <= Distance(cur, x)
    decreases MAXULTHREADS - i
  {
    if i == MAXULTHREADS then -1 else
    var e := (cur + i) % MAXULTHREADS;
    DistanceOf(cur, i);
    if Ready(ts, e) then e else Next(ts, cur, i + 1)
  }

  /** The first slot that ulthread_create finds free, or 0. */
  function FreeSlot(ts: Threads, i: nat): (r: nat)
    requires |ts| == MAXULTHREADS && 1 <= i <= MAXULTHREADS
    ensures r != 0 ==> i <= r < MAXULTHREADS && ts[r].tid == -1
    ensures r == 0 ==> forall k :: i <= k < MAXULTHREADS ==> ts[k].tid != -1
    decreases MAXULTHREADS - i
  {
    if i == MAXULTHREADS then 0 else if ts[i].tid == -1 then i else FreeSlot(ts, i + 1)
  }

  predicate Sized(s: State) { |s.threads| == MAXULTHREADS && 0 <= s.cur < MAXULTHREADS }

  /** The program: create while a thread runs or before scheduling starts, with a slot left. */
  predicate Enabled(s: State, e: Event)
    requires Sized(s)
  {
    match e
    case Create(p) => (s.running || s.cur == 0) && FreeSlot(s.threads, 1) != 0
    case Dispatch => !s.running && Next(s.threads, s.cur, 0) != -1
    case Yield => s.running
    case Destroy => s.running
  }

  function Apply(s: State, e: Event): (s': State)
    requires Sized(s) && Enabled(s, e)
  {
    match e
    case Create(p) =>
      var i := FreeSlot(s.threads, 1);
      s.(threads := s.threads[i := Thread(i, RUNNABLE, p)])
    case Dispatch =>
      var n := Next(s.threads, s.cur, 0);
      State(Resume(s.threads, s.cur), n, true)
    case Yield =>
      s.(threads := s.threads[s.cur := s.threads[s.cur].(status := YIELD)], running := false)
    case Destroy =>
      s.(threads := s.threads[s.cur := s.threads[s.cur].(status := FREE, tid := -1)], running := false)
  }

  /** The thread that just yielded becomes runnable again. */
  function Resume(ts: Threads, prev: int): (r: Threads)
    requires |ts| == MAXULTHREADS && 0 <= prev < MAXULTHREADS
    ensures |r| == MAXULTHREADS
  {
    if prev != 0 && ts[prev].status.YIELD? then ts[prev := ts[prev].(status := RUNNABLE)] else ts
  }

  ghost predicate ThreadOk(s: State, i: int)
    requires Sized(s) && 0 <= i < MAXULTHREADS
  {
    && (i != 0 ==> (s.threads[i].status.FREE? <==> s.threads[i].tid == -1))
    && (i != 0 ==> s.threads[i].tid == -1 || s.threads[i].tid == i)
    && (s.threads[i].status.YIELD? ==> i != 0 && i == s.cur && !s.running)
  }

  ghost predicate Inv(s: State) {
    && Sized(s) && (forall i :: 0 <= i < MAXULTHREADS ==> ThreadOk(s, i))
    && (s.running ==> s.cur != 0 && s.threads[s.cur].status.RUNNABLE?)
    && (!s.running && s.cur != 0 ==> !s.threads[s.cur].status.RUNNABLE?)
  }

  /** After ulthread_init. */
  ghost predicate Init(s: State) {
    && Sized(s) && s.cur == 0 && !s.running && s.threads[0] == Thread(0, RUNNABLE, s.threads[0].priority)
    && (forall i :: 1 <= i < MAXULTHREADS ==> s.threads[i].tid == -1 && s.threads[i].status.FREE?)
  }

  lemma StepInv(s: State, e: Event)
    requires Inv(s) && Enabled(s, e)
    ensures Inv(Apply(s, e))
  {
    var s' := Apply(s, e);
    hide Next, FreeSlot;
    forall i | 0 <= i < MAXULTHREADS ensures ThreadOk(s', i) {
      assert ThreadOk(s, i);
    }
  }

  /**
    The choice never falls on the thread that just ran: the test at the end of the loop body
    never stops the scheduler.
   */
  lemma NeverSame(s: State)
    requires Inv(s) && Enabled(s, Dispatch)
    ensures Apply(s, Dispatch).cur != s.cur
  {
    hide Next;
  }

  /** The scheduler stops exactly when no thread is left but the one that just yielded. */
  lemma StopIff(s: State)
    requires Inv(s) && !s.running
    ensures !Enabled(s, Dispatch) <==> forall i :: 1 <= i < MAXULTHREADS && i != s.cur ==> s.threads[i].status.FREE?
  {
    hide Distance;
    if !Enabled(s, Dispatch) {
      forall i | 1 <= i < MAXULTHREADS && i != s.cur ensures s.threads[i].status.FREE? {
        ReadyFound(s.threads, s.cur, i);
        assert ThreadOk(s, i);
      }
    }
  }

  lemma ReadyFound(ts: Threads, cur: nat, i: int)
    requires |ts| == MAXULTHREADS && 0 < i < MAXULTHREADS && cur < MAXULTHREADS
    ensures Ready(ts, i) ==> Next(ts, cur, 0) != -1 && Distance(cur, Next(ts, cur, 0)) <= Distance(cur, i)
  {
    hide Distance, Next;
  }

  // ---------------------------------------------------------------------------------
  // Bounded waiting
  // ---------------------------------------------------------------------------------

  ghost predicate IsRun(run: seq<State>, ev: seq<Event>) {
    && |run| == |ev| + 1 && Init(run[0])
    && (forall i :: 0 <= i < |ev| ==> Sized(run[i]) && Enabled(run[i], ev[i]) && run[i + 1] == Apply(run[i], ev[i]))
  }

  lemma {:induction false} RunInv(run: seq<State>, ev: seq<Event>, i: nat)
    requires IsRun(run, ev) && i < |run|
    ensures Inv(run[i])
  {
    if i > 0 {
      hide Inv, Apply, Enabled;
      RunInv(run, ev, i - 1);
      StepInv(run[i - 1], ev[i - 1]);
    }
  }

  function Dispatches(ev: seq<Event>, k: nat, m: nat): (n: nat)
    requires k <= m <= |ev|
  {
    if k == m then 0 else Dispatches(ev, k, m - 1) + if ev[m - 1].Dispatch? then 1 else 0
  }

  /** Thread j waits: it is ready and not the one running. */
  ghost predicate Waiting(s: State, j: int) {
    && Inv(s) && 0 < j < MAXULTHREADS && s.threads[j].status.RUNNABLE? && !(s.running && s.cur == j)
  }

  lemma WaitingDistance(s: State, j: int)
    requires Waiting(s, j)
    ensures Distance(s.cur, j) >= 1
  {
    assert j != s.cur;
  }

  /** A step that does not dispatch j leaves it waiting, and a dispatch brings the scheduler nearer. */
  lemma WaitStep(s: State, e: Event, j: int)
    requires Waiting(s, j) && Enabled(s, e) && !(e.Dispatch? && Apply(s, e).cur == j)
    ensures Waiting(Apply(s, e), j)
    ensures Distance(Apply(s, e).cur, j) + (if e.Dispatch? then 1 else 0) <= Distance(s.cur, j)
  {
    hide Next, Distance, FreeSlot, Inv;
    assert Sized(s) by { InvSized(s); }
    StepInv(s, e);
    WaitingFacts(s, e, j);
    if e.Dispatch? {
      ReadyFound(s.threads, s.cur, j);
      NeverSame(s);
      DistanceNearer(s.cur, Apply(s, e).cur, j);
    }
  }

  lemma InvSized(s: State)
    requires Inv(s)
    ensures Sized(s)
  {}

  lemma WaitingFacts(s: State, e: Event, j: int)
    requires Waiting(s, j) && Enabled(s, e)
    ensures Apply(s, e).threads[j].status.RUNNABLE?
    ensures !e.Dispatch? ==> Apply(s, e).cur == s.cur && j != s.cur
  {
    hide Next;
    assert ThreadOk(s, j);
  }

  lemma {:induction false} WaitRun(run: seq<State>, ev: seq<Event>, k: nat, m: nat, j: int)
    requires IsRun(run, ev) && k <= m <= |ev| && Waiting(run[k], j)
    requires forall n :: k <= n < m && ev[n].Dispatch? ==> run[n + 1].cur != j
    ensures Waiting(run[m], j)
    ensures Distance(run[m].cur, j) + Dispatches(ev, k, m) <= Distance(run[k].cur, j)
    decreases m
  {
    if k < m {
      hide Apply, Enabled, Waiting, Distance;
      WaitRun(run, ev, k, m - 1, j);
      assert run[m] == Apply(run[m - 1], ev[m - 1]);
      WaitStep(run[m - 1], ev[m - 1], j);
    }
  }

  /**
    Under round robin a waiting thread is among the next Distance(cur, j) <= 99 dispatches,
    whatever the other threads create, yield or destroy; and it keeps the scheduler going.
   */
  lemma BoundedWaiting(run: seq<State>, ev: seq<Event>, k: nat, m: nat, j: int)
    requires IsRun(run, ev) && k <= m <= |ev| && Waiting(run[k], j)
    requires Dispatches(ev, k, m) >= Distance(run[k].cur, j)
    ensures exists n :: k <= n < m && ev[n].Dispatch? && run[n + 1].cur == j
    ensures Distance(run[k].cur, j) <= MAXULTHREADS - 1
  {
    if forall n :: k <= n < m && ev[n].Dispatch? ==> run[n + 1].cur != j {
      WaitRun(run, ev, k, m, j);
      WaitingDistance(run[m], j);
      assert false;
    }
  }

  lemma WaitingKeepsGoing(s: State, j: int)
    requires Waiting(s, j) && !s.running
    ensures Enabled(s, Dispatch)
  {
    ReadyFound(s.threads, s.cur, j);
  }

  // ---------------------------------------------------------------------------------
  // The life of a thread
  // ---------------------------------------------------------------------------------

  /** All that a step may do to thread j: create it, run it, let it yield or end it. */
  ghost predicate Lives(s: State, e: Event, s': State, j: int)
    requires Sized(s) && Sized(s') && 0 < j < MAXULTHREADS
  {
    var t, t' := s.threads[j], s'.threads[j];
    match e
    case Create(p) => t' == if t'.tid != t.tid then Thread(j, RUNNABLE, p) else t
    case Dispatch =>
      && s'.running && t'.tid == t.tid && t'.priority == t.priority
      && (t'.status.RUNNABLE? <==> !t.status.FREE?) && !t'.status.YIELD?
      && (s'.cur == j ==> t.status.RUNNABLE? && j != s.cur)
    case Yield => s.running && !s'.running && s'.cur == s.cur && t' == if j == s.cur then t.(status := YIELD) else t
    case Destroy =>
      s.running && !s'.running && s'.cur == s.cur && t' == if j == s.cur then Thread(-1, FREE, t.priority) else t
  }

  lemma LifeStep(s: State, e: Event, j: int)
    requires Inv(s) && Enabled(s, e) && 0 < j < MAXULTHREADS
    ensures Sized(Apply(s, e)) && Lives(s, e, Apply(s, e), j)
    ensures e.Create? ==> exists k :: 0 < k < MAXULTHREADS && s.threads[k].tid == -1 && Apply(s, e).threads[k].tid == k
                                      && Apply(s, e) == s.(threads := s.threads[k := Thread(k, RUNNABLE, e.priority)])
  {
    hide Next, FreeSlot;
    assert ThreadOk(s, j);
    if e.Create? {
      var k := FreeSlot(s.threads, 1);
      assert s.threads[k].tid == -1;
    }
  }

  /** In every run, each step changes the threads only as Lives says. */
  lemma ThreadLife(run: seq<State>, ev: seq<Event>, i: nat, j: int)
    requires IsRun(run, ev) && i < |ev| && 0 < j < MAXULTHREADS
    ensures Sized(run[i]) && Sized(run[i + 1]) && Lives(run[i], ev[i], run[i + 1], j)
  {
    RunInv(run, ev, i);
    InvSized(run[i]);
    hide Inv, Apply, Enabled, Lives;
    LifeStep(run[i], ev[i], j);
  }

  /** What follows a yield is a dispatch, after which the thread that yielded waits for its turn. */
  lemma YieldedWaits(run: seq<State>, ev: seq<Event>, i: nat)
    requires IsRun(run, ev) && i + 1 < |ev| && ev[i].Yield?
    ensures ev[i + 1].Dispatch? && Waiting(run[i + 2], run[i].cur)
  {
    RunInv(run, ev, i);
    RunInv(run, ev, i + 1);
    RunInv(run, ev, i + 2);
    var j := run[i].cur;
    assert j != 0 && run[i].running && run[i + 1].cur == j && !run[i + 1].running;
    ThreadLife(run, ev, i, j);
    ThreadLife(run, ev, i + 1, j);
    hide Next;
    NeverSame(run[i + 1]);
  }

  // ---------------------------------------------------------------------------------
  // Priority
  // ---------------------------------------------------------------------------------

  ghost predicate SomeRunnable(ts: Threads)
    requires |ts| == MAXULTHREADS
  {
    exists i :: 1 <= i < MAXULTHREADS && ts[i].status.RUNNABLE?
  }

  /** The threads among which the choice is made: the runnable ones, or else all that yielded. */
  ghost predicate Candidate(ts: Threads, i: int)
    requires |ts| == MAXULTHREADS
  {
    1 <= i < MAXULTHREADS && if SomeRunnable(ts) then ts[i].status.RUNNABLE? else ts[i].status.YIELD?
  }

  ghost predicate Maximal(ts: Threads, i: int)
    requires |ts| == MAXULTHREADS
  {
    Candidate(ts, i) && forall j :: Candidate(ts, j) ==> ts[j].priority <= ts[i].priority
  }

  /** t, or t made runnable where it had yielded. */
  ghost predicate Woken(t: Thread, t': Thread) {
    t'.tid == t.tid && t'.priority == t.priority && t'.status == if t.status.YIELD? then RUNNABLE else t.status
  }

  class Scheduler {
    const threads: array<Thread>
    var cur: int
    var prev: int

    ghost predicate Valid()
      reads this, threads
    {
      threads.Length == MAXULTHREADS && 0 <= cur < MAXULTHREADS && 0 <= prev < MAXULTHREADS
    }

    /** ulthread_init(), on zeroed memory. */
    constructor ()
      ensures Valid() && Init(State(threads[..], cur, false)) && fresh(threads)
    {
      threads := new Thread[MAXULTHREADS](_ => Thread(0, FREE, 0));
      cur, prev := 0, 0;
      new;
      for i := 0 to MAXULTHREADS
        invariant cur == 0 && prev == 0 && forall k :: 0 <= k < i ==> threads[k] == Thread(-1, FREE, 0)
        invariant forall k :: i <= k < MAXULTHREADS ==> threads[k] == Thread(0, FREE, 0)
      {
        threads[i] := threads[i].(tid := -1);
      }
      threads[0] := threads[0].(status := RUNNABLE, tid := 0);
    }

    /** ulthread_create(), with a free slot. */
    method CreateThread(priority: int)
      requires Valid() && FreeSlot(threads[..], 1) != 0
      modifies threads
      ensures Valid()
      ensures var i := FreeSlot(old(threads[..]), 1);
              threads[..] == old(threads[..])[i := Thread(i, RUNNABLE, priority)]
    {
      var index := 0;
      var i := 1;
      while i < MAXULTHREADS
        invariant 1 <= i <= MAXULTHREADS && FreeSlot(threads[..], 1) == FreeSlot(threads[..], i) && index == 0
        invariant threads[..] == old(threads[..])
      {
        if threads[i].tid == -1 {
          index := i;
          break;
        }
        i := i + 1;
      }
      threads[index] := Thread(index, RUNNABLE, priority);
    }

    /** One turn of ulthread_schedule under ROUNDROBIN, up to the context switch; false where it stops. */
    method ScheduleRoundRobin() returns (found: bool)
      requires Valid() && Inv(State(threads[..], cur, false))
      modifies this`cur, this`prev, threads
      ensures Valid() && (found <==> old(Enabled(State(threads[..], cur, false), Dispatch)))
      ensures found ==> State(threads[..], cur, true) == old(Apply(State(threads[..], cur, false), Dispatch))
      ensures found ==> prev == old(cur) && cur != prev && Ready(old(threads[..]), cur)
      ensures found ==> forall i :: 0 <= i < MAXULTHREADS ==>
                if i > 0 && i == old(cur) then Woken(old(threads[..])[i], threads[i])
                else threads[i] == old(threads[..])[i]
      ensures !found ==> threads[..] == old(threads[..]) && cur == old(cur)
    {
      hide Inv, Next;
      var s := State(threads[..], cur, false);
      found := false;
      var element := cur + 1;
      var i := 0;
      while i < MAXULTHREADS
        invariant 0 <= i <= MAXULTHREADS && !found
        invariant threads[..] == old(threads[..]) && cur == old(cur) && prev == old(prev)
        invariant Next(threads[..], cur, 0) == Next(threads[..], cur, i)
      {
        NextUnfold(threads[..], cur, i);
        element := (cur + i) % MAXULTHREADS;
        if element != 0 && threads[element].status.RUNNABLE? {
          found := true;
          break;
        }
        i := i + 1;
      }
      if !found {
        NextEnd(threads[..], cur);
        return;
      }
      NeverSame(s);
      prev := cur;
      cur := element;
      if cur == prev {
        return false;
      }
      if prev != 0 {
        if threads[prev].status.YIELD? {
          threads[prev] := threads[prev].(status := RUNNABLE);
        }
      }
    }

    /**
      One turn of ulthread_schedule in priority mode, up to the context switch. It gives up
      exactly when no thread is left at all, and otherwise picks a thread of greatest priority.
     */
    method SchedulePriority() returns (found: bool)
      requires Valid()
      modifies this`cur, this`prev, threads
      ensures Valid()
      ensures found <==> exists i :: 1 <= i < MAXULTHREADS && !old(threads[..])[i].status.FREE?
      ensures found ==> prev == old(cur) && Maximal(old(threads[..]), cur)
      ensures found ==> forall i :: 0 <= i < MAXULTHREADS ==>
                if i > 0 && (i == old(cur) || !SomeRunnable(old(threads[..])))
                then Woken(old(threads[..])[i], threads[i]) else threads[i] == old(threads[..])[i]
      ensures !found ==> threads[..] == old(threads[..]) && cur == old(cur)
    {
      ghost var ts := threads[..];
      var next := FirstRunnable();
      if next == -1 {
        assert !SomeRunnable(ts);
        next := WakeAll();
        if next != -1 {
          next := Greatest(next);
        }
      }
      if next == -1 {
        assert threads[..] == ts;
        return false;
      }
      next := Greatest(next);
      prev := cur;
      cur := next;
      if prev != 0 {
        if threads[prev].status.YIELD? {
          threads[prev] := threads[prev].(status := RUNNABLE);
        }
      }
      found := true;
    }

    /** ulthread_yield(), up to the context switch. */
    method YieldThread()
      requires Valid()
      modifies threads
      ensures Valid() && State(threads[..], cur, false) == old(Apply(State(threads[..], cur, true), Yield))
    {
      threads[cur] := threads[cur].(status := YIELD);
    }

    /** ulthread_destroy(), up to the context switch; the main thread is left alone. */
    method DestroyThread()
      requires Valid()
      modifies this`prev, threads
      ensures Valid() && (cur == 0 ==> threads[..] == old(threads[..]))
      ensures cur != 0 ==> State(threads[..], cur, false) == old(Apply(State(threads[..], cur, true), Destroy))
      ensures cur != 0 ==> prev == cur
    {
      if cur != 0 {
        threads[cur] := threads[cur].(status := FREE, tid := -1);
        prev := cur;
      }
    }

    method FirstRunnable() returns (next: int)
      requires Valid()
      ensures next == -1 <==> !SomeRunnable(threads[..])
      ensures next != -1 ==> 1 <= next < MAXULTHREADS && threads[next].status.RUNNABLE?
    {
      next := -1;
      for i := 1 to MAXULTHREADS
        invariant next == -1 && forall k :: 1 <= k < i ==> !threads[k].status.RUNNABLE?
      {
        if threads[i].status.RUNNABLE? {
          assert threads[..][i].status.RUNNABLE?;
          return i;
        }
      }
    }

    /** Every thread that yielded becomes runnable; the last of them, or -1. */
    method WakeAll() returns (next: int)
      requires Valid()
      modifies threads
      ensures forall i :: 0 <= i < MAXULTHREADS ==>
                if i > 0 then Woken(old(threads[i]), threads[i]) else threads[i] == old(threads[i])
      ensures next == -1 <==> forall i :: 1 <= i < MAXULTHREADS ==> !old(threads[i]).status.YIELD?
      ensures next != -1 ==> 1 <= next < MAXULTHREADS && old(threads[next]).status.YIELD?
    {
      next := -1;
      for i := 1 to MAXULTHREADS
        invariant forall k :: 0 <= k < MAXULTHREADS ==>
                    if 0 < k < i then Woken(old(threads[k]), threads[k]) else threads[k] == old(threads[k])
        invariant next == -1 <==> forall k :: 1 <= k < i ==> !old(threads[k]).status.YIELD?
        invariant next != -1 ==> 1 <= next < i && old(threads[next]).status.YIELD?
      {
        if threads[i].status.YIELD? {
          threads[i] := threads[i].(status := RUNNABLE);
          next := i;
        }
      }
    }

    /** The scan for a runnable thread of strictly greater priority. */
    method Greatest(start: int) returns (next: int)
      requires Valid() && 1 <= start < MAXULTHREADS && threads[start].status.RUNNABLE?
      ensures 1 <= next < MAXULTHREADS && threads[next].status.RUNNABLE?
      ensures forall j :: 1 <= j < MAXULTHREADS && threads[j].status.RUNNABLE? ==>
                threads[j].priority <= threads[next].priority
    {
      next := start;
      for i := 1 to MAXULTHREADS
        invariant 1 <= next < MAXULTHREADS && threads[next].status.RUNNABLE?
        invariant threads[start].priority <= threads[next].priority
        invariant forall j :: 1 <= j < i && threads[j].status.RUNNABLE? ==>
                    threads[j].priority <= threads[next].priority
      {
        if threads[i].priority > threads[next].priority && threads[i].status.RUNNABLE? {
          next := i;
        }
      }
    }
  }

  lemma NextUnfold(ts: Threads, cur: nat, i: nat)
    requires |ts| == MAXULTHREADS && i < MAXULTHREADS
    ensures var e := (cur + i) % MAXULTHREADS;
            Next(ts, cur, i) == if Ready(ts, e) then e else Next(ts, cur, i + 1)
  {}

  lemma NextEnd(ts: Threads, cur: nat)
    requires |ts| == MAXULTHREADS
    ensures Next(ts, cur, MAXULTHREADS) == -1
  {}
}
