/**
  The virtio disk driver of kernel/virtio_disk.c and the device it talks to, as interleaved
  steps over one descriptor table, an available ring and a used ring (sections 2.6 and 5.2 of
  VIRTIO 1.1). The device acts on the descriptors alone; `reqs` is what the driver was asked.
 */
module VirtioMachine {
  import opened Basics

  const NUM: nat := 8
  const WRAP: nat := 65536 // ring indices are 16 bits wide

  type Data = seq<int>

  /** What a descriptor's address points at: ops[i], a buffer's data, or info[i].status. */
  datatype Addr = Null | Header(i: int) | DataOf(b: int) | Status(i: int)

  datatype Desc = Desc(addr: Addr, hasNext: bool, devWrites: bool, next: int)

  const ZERO_DESC: Desc := Desc(Null, false, false, 0)

  datatype Op = Op(write: bool, sector: int)
  datatype Info = Info(b: int, status: int)

  /** Formatted, published to the device, taken by it, reported by it, and seen by the interrupt. */
  datatype Stage = Prepared | Queued | Taken | Used | Acked

  /** A request by its three descriptors (the first is its key in `reqs`); `moved` is the data transferred. */
  datatype Req = Req(b: int, op: Op, i1: int, i2: int, stage: Stage, moved: Data)

  datatype State = State(
    free: seq<bool>, desc: seq<Desc>, ops: seq<Op>, info: seq<Info>,
    availRing: seq<int>, availIdx: int, usedRing: seq<int>, usedIdx: int,
    seenIdx: int,        // the driver's used_idx
    devIdx: int, devHas: set<int>, // the device's place in the available ring, and the chains it works on
    busy: set<int>,      // buffers with b->disk == 1
    memory: map<int, Data>, platter: map<int, Data>,
    pending: int,        // the chain formatted but not yet published; -1 outside that section
    reqs: map<int, Req>, owner: seq<int>,
    nTaken: nat, nSeen: nat, avq: seq<int>, usq: seq<int>)

  /** Unwritten places read as []. */
  function Look(m: map<int, Data>, k: int): (d: Data)
    ensures k in m ==> d == m[k]
  {
    if k in m then m[k] else []
  }

  // ---------------------------------------------------------------------------------
  // Descriptor allocation
  // ---------------------------------------------------------------------------------

  /** The lowest free descriptor from i on, or -1. */
  function Lowest(free: seq<bool>, i: nat): (r: int)
    requires i <= |free|
    ensures r == -1 ==> forall j :: i <= j < |free| ==> !free[j]
    ensures r != -1 ==> i <= r < |free| && free[r] && forall j :: i <= j < r ==> !free[j]
    decreases |free| - i
  {
    if i == |free| then -1 else if free[i] then i else Lowest(free, i + 1)
  }

  datatype Three = NoThree | Three(a: int, b: int, c: int)

  /** alloc3_desc. */
  function Alloc3(free: seq<bool>): (r: Three)
    ensures r.Three? ==> 0 <= r.a < r.b < r.c < |free| && free[r.a] && free[r.b] && free[r.c]
  {
    var a := Lowest(free, 0);
    if a == -1 then NoThree else
    var b := Lowest(free[a := false], 0);
    if b == -1 then NoThree else
    var c := Lowest(free[a := false][b := false], 0);
    if c == -1 then NoThree else Three(a, b, c)
  }

  /** alloc3_desc fails exactly when fewer than three descriptors are free. */
  lemma Alloc3Iff(free: seq<bool>)
    ensures Alloc3(free).Three? <==> exists a, b, c :: 0 <= a < b < c < |free| && free[a] && free[b] && free[c]
  {
    if a, b, c :| 0 <= a < b < c < |free| && free[a] && free[b] && free[c] {
      var x := Lowest(free, 0);
      var f1 := free[x := false];
      assert f1[b] && f1[c];
      var y := Lowest(f1, 0);
      assert f1[y := false][c];
    }
  }

  datatype Freed = Panic | Freed(free: seq<bool>, desc: seq<Desc>)

  ghost function BusySet(free: seq<bool>): (r: set<int>) { set i | 0 <= i < |free| && !free[i] }

  lemma BusyShrinks(free: seq<bool>, i: int)
    requires 0 <= i < |free| && !free[i]
    ensures |BusySet(free[i := true])| < |BusySet(free)|
  {
    assert BusySet(free) == BusySet(free[i := true]) + {i};
  }

  /** free_chain: free_desc panics on an index out of range or already free. */
  function FreeChain(free: seq<bool>, desc: seq<Desc>, i: int): (r: Freed)
    requires |free| == |desc|
    ensures r.Freed? ==> |r.free| == |free| == |r.desc|
    decreases |BusySet(free)|
  {
    if !(0 <= i < |free|) || free[i] then Panic else
    BusyShrinks(free, i);
    var free', desc' := free[i := true], desc[i := ZERO_DESC];
    if desc[i].hasNext then FreeChain(free', desc', desc[i].next) else Freed(free', desc')
  }

  /** A well-formed chain of three is freed, and nothing else is. */
  lemma FreeChainThree(free: seq<bool>, desc: seq<Desc>, h: int, i1: int, i2: int)
    requires |free| == |desc| && 0 <= h < |free| && 0 <= i1 < |free| && 0 <= i2 < |free|
    requires h != i1 && h != i2 && i1 != i2 && !free[h] && !free[i1] && !free[i2]
    requires desc[h].hasNext && desc[h].next == i1 && desc[i1].hasNext && desc[i1].next == i2 && !desc[i2].hasNext
    ensures FreeChain(free, desc, h) ==
            Freed(free[h := true][i1 := true][i2 := true], desc[h := ZERO_DESC][i1 := ZERO_DESC][i2 := ZERO_DESC])
  {
    var f1, d1 := free[h := true], desc[h := ZERO_DESC];
    assert FreeChain(f1, d1, i1) == FreeChain(f1[i1 := true], d1[i1 := ZERO_DESC], i2);
  }

  // ---------------------------------------------------------------------------------
  // Steps
  // ---------------------------------------------------------------------------------

  datatype Event =
    | Prepare(b: int, op: Op) | Publish | DevTake | DevComplete(h: int) | Intr | Finish(h: int)
    | Touch(b: int, data: Data)

  predicate Sized(s: State) {
    |s.free| == NUM && |s.desc| == NUM && |s.ops| == NUM && |s.info| == NUM && |s.owner| == NUM
    && |s.availRing| == NUM && |s.usedRing| == NUM
    && 0 <= s.availIdx < WRAP && 0 <= s.usedIdx < WRAP && 0 <= s.seenIdx < WRAP && 0 <= s.devIdx < WRAP
  }

  /** b has a request that virtio_disk_rw has not returned from; its sleep-lock is then held. */
  predicate InFlight(s: State, b: int) { exists h :: h in s.reqs && s.reqs[h].b == b }

  /** The device finds a request it can carry out behind descriptor h. */
  predicate Readable(s: State, h: int)
    requires Sized(s)
  {
    && 0 <= h < NUM && s.desc[h].addr.Header? && 0 <= s.desc[h].addr.i < NUM && s.desc[h].hasNext
    && var n1 := s.desc[h].next;
       0 <= n1 < NUM && s.desc[n1].addr.DataOf? && s.desc[n1].hasNext
       && s.desc[n1].devWrites != s.ops[s.desc[h].addr.i].write
       && var n2 := s.desc[n1].next;
          0 <= n2 < NUM && s.desc[n2].addr.Status? && 0 <= s.desc[n2].addr.i < NUM && s.desc[n2].devWrites
          && !s.desc[n2].hasNext
  }

  predicate Enabled(s: State, e: Event)
    requires Sized(s)
  {
    match e
    case Prepare(b, op) => s.pending == -1 && Alloc3(s.free).Three? && !InFlight(s, b)
    case Publish => 0 <= s.pending && s.pending in s.reqs
    case DevTake => s.devIdx != s.availIdx
    case DevComplete(h) => h in s.devHas && Readable(s, h) && h in s.reqs
    case Intr =>
      s.pending == -1 && s.seenIdx != s.usedIdx
      && var h := s.usedRing[s.seenIdx % NUM]; 0 <= h < NUM && s.info[h].status == 0 && h in s.reqs
    case Finish(h) =>
      s.pending == -1 && h in s.reqs && s.reqs[h].b !in s.busy && 0 <= h < NUM && FreeChain(s.free, s.desc, h).Freed?
    case Touch(b, d) => !InFlight(s, b)
  }

  function PrepareState(s: State, b: int, op: Op): (s': State)
    requires Sized(s) && Alloc3(s.free).Three?
  {
    var x := Alloc3(s.free);
    s.(free := s.free[x.a := false][x.b := false][x.c := false],
       ops := s.ops[x.a := op],
       desc := s.desc[x.a := Desc(Header(x.a), true, false, x.b)]
               [x.b := Desc(DataOf(b), true, !op.write, x.c)]
               [x.c := Desc(Status(x.a), false, true, 0)],
       info := s.info[x.a := Info(b, 255)],
       busy := s.busy + {b},
       availRing := s.availRing[s.availIdx % NUM := x.a],
       pending := x.a,
       reqs := s.reqs[x.a := Req(b, op, x.b, x.c, Prepared, [])],
       owner := s.owner[x.a := x.a][x.b := x.a][x.c := x.a])
  }

  function PublishState(s: State, h: int): (s': State)
    requires h in s.reqs
  {
    s.(availIdx := (s.availIdx + 1) % WRAP, pending := -1,
       reqs := s.reqs[h := s.reqs[h].(stage := Queued)], avq := s.avq + [h])
  }

  /** The device takes chain h, the next one in the available ring. */
  function TakeState(s: State, h: int): (s': State) {
    s.(devIdx := (s.devIdx + 1) % WRAP, devHas := s.devHas + {h},
       reqs := if h in s.reqs then s.reqs[h := s.reqs[h].(stage := Taken)] else s.reqs,
       nTaken := s.nTaken + 1, avq := if s.avq == [] then [] else s.avq[1..])
  }

  /** The driver sees chain h, the next one in the used ring, as done. */
  function IntrState(s: State, h: int): (s': State)
    requires 0 <= h < |s.info| && h in s.reqs
  {
    s.(busy := s.busy - {s.info[h].b}, seenIdx := (s.seenIdx + 1) % WRAP,
       reqs := s.reqs[h := s.reqs[h].(stage := Acked)],
       nSeen := s.nSeen + 1, usq := if s.usq == [] then [] else s.usq[1..])
  }

  /** The transfer as the descriptors say, then the report in the used ring. */
  function CompleteState(s: State, h: int): (s': State)
    requires Sized(s) && Readable(s, h) && h in s.reqs
  {
    var op := s.ops[s.desc[h].addr.i];
    var n1 := s.desc[h].next;
    var b := s.desc[n1].addr.b;
    var st := s.desc[s.desc[n1].next].addr.i;
    var moved := if op.write then Look(s.memory, b) else Look(s.platter, op.sector);
    s.(memory := if op.write then s.memory else s.memory[b := moved],
       platter := if op.write then s.platter[op.sector := moved] else s.platter,
       info := s.info[st := s.info[st].(status := 0)],
       usedRing := s.usedRing[s.usedIdx % NUM := h],
       usedIdx := (s.usedIdx + 1) % WRAP,
       devHas := s.devHas - {h},
       reqs := s.reqs[h := s.reqs[h].(stage := Used, moved := moved)],
       usq := s.usq + [h])
  }

  function FinishState(s: State, h: int): (s': State)
    requires Sized(s) && 0 <= h < NUM && FreeChain(s.free, s.desc, h).Freed? && h in s.reqs
  {
    var f := FreeChain(s.free, s.desc, h);
    s.(info := s.info[h := s.info[h].(b := 0)], free := f.free, desc := f.desc,
       owner := seq(NUM, i requires 0 <= i < NUM => if s.owner[i] == h then -1 else s.owner[i]),
       reqs := s.reqs - {h})
  }

  function Apply(s: State, e: Event): (s': State)
    requires Sized(s) && Enabled(s, e)
  {
    match e
    case Prepare(b, op) => PrepareState(s, b, op)
    case Publish => PublishState(s, s.pending)
    case DevTake => TakeState(s, s.availRing[s.devIdx % NUM])
    case DevComplete(h) => CompleteState(s, h)
    case Intr => IntrState(s, s.usedRing[s.seenIdx % NUM])
    case Finish(h) => FinishState(s, h)
    case Touch(b, d) => s.(memory := s.memory[b := d])
  }

  // ---------------------------------------------------------------------------------
  // The invariant
  // ---------------------------------------------------------------------------------

  /** A live request owns a chain of three descriptors that say exactly what was asked. */
  ghost predicate ChainOk(s: State, h: int)
    requires Sized(s) && h in s.reqs
  {
    var r := s.reqs[h];
    && 0 <= h < NUM && 0 <= r.i1 < NUM && 0 <= r.i2 < NUM && h != r.i1 && h != r.i2 && r.i1 != r.i2
    && s.owner[h] == h && s.owner[r.i1] == h && s.owner[r.i2] == h
    && s.desc[h] == Desc(Header(h), true, false, r.i1)
    && s.desc[r.i1] == Desc(DataOf(r.b), true, !r.op.write, r.i2)
    && s.desc[r.i2] == Desc(Status(h), false, true, 0)
    && s.ops[h] == r.op && s.info[h].b == r.b && ((r.stage.Used? || r.stage.Acked?) ==> s.info[h].status == 0)
  }

  /** Where the request stands, in the memory that driver and device share. */
  ghost predicate StageOk(s: State, h: int)
    requires h in s.reqs
  {
    var r := s.reqs[h];
    && (r.stage.Prepared? <==> s.pending == h)
    && (r.stage.Queued? <==> h in s.avq)
    && (r.stage.Taken? <==> h in s.devHas)
    && (r.stage.Used? <==> h in s.usq)
    && (r.b in s.busy <==> !r.stage.Acked?)
    && ((r.stage.Used? || r.stage.Acked?) && !r.op.write ==> Look(s.memory, r.b) == r.moved)
  }

  predicate InChain(r: Req, h: int, i: int) { i == h || i == r.i1 || i == r.i2 }

  ghost predicate OwnerOk(s: State, i: int)
    requires Sized(s) && 0 <= i < NUM
  {
    && (s.free[i] <==> s.owner[i] == -1)
    && (s.owner[i] != -1 ==> s.owner[i] in s.reqs && InChain(s.reqs[s.owner[i]], s.owner[i], i))
  }

  ghost predicate BufsDistinct(reqs: map<int, Req>) {
    forall h, h' :: h in reqs && h' in reqs && h != h' ==> reqs[h].b != reqs[h'].b
  }

  /** `q` is the part of a ring between two running counts, the lower being n. */
  ghost predicate RingHolds(ring: seq<int>, n: nat, q: seq<int>)
    requires |ring| == NUM
  {
    |q| <= NUM && forall j :: 0 <= j < |q| ==> ring[(n + j) % NUM] == q[j]
  }

  ghost predicate Rings(s: State)
    requires Sized(s)
  {
    && NoDup(s.avq) && NoDup(s.usq) && RingHolds(s.availRing, s.nTaken, s.avq) && RingHolds(s.usedRing, s.nSeen, s.usq)
    && s.devIdx == s.nTaken % WRAP && s.availIdx == (s.nTaken + |s.avq|) % WRAP
    && s.seenIdx == s.nSeen % WRAP && s.usedIdx == (s.nSeen + |s.usq|) % WRAP
    && (s.pending != -1 ==> |s.avq| < NUM && s.availRing[s.availIdx % NUM] == s.pending)
  }

  ghost predicate Known(s: State) {
    && (forall h :: h in s.avq ==> h in s.reqs) && (forall h :: h in s.usq ==> h in s.reqs)
    && (forall h :: h in s.devHas ==> h in s.reqs) && (s.pending != -1 ==> s.pending in s.reqs)
  }

  ghost predicate Inv(s: State) {
    && Sized(s) && Rings(s) && Known(s) && BufsDistinct(s.reqs)
    && (forall h :: h in s.reqs ==> ChainOk(s, h))
    && (forall h :: h in s.reqs ==> StageOk(s, h))
    && (forall i :: 0 <= i < NUM ==> OwnerOk(s, i))
  }

  // ---------------------------------------------------------------------------------
  // Consequences
  // ---------------------------------------------------------------------------------

  /** In-flight requests own disjoint chains, none of whose descriptors is free. */
  lemma ChainsDisjoint(s: State, h: int, h': int)
    requires Inv(s) && h in s.reqs && h' in s.reqs && h != h'
    ensures {h, s.reqs[h].i1, s.reqs[h].i2} !! {h', s.reqs[h'].i1, s.reqs[h'].i2}
    ensures ChainOk(s, h) && !s.free[h] && !s.free[s.reqs[h].i1] && !s.free[s.reqs[h].i2]
  {
    assert ChainOk(s, h) && ChainOk(s, h');
    assert OwnerOk(s, h) && OwnerOk(s, s.reqs[h].i1) && OwnerOk(s, s.reqs[h].i2);
  }

  /** The device carries out each request it holds as asked, and into that request's own buffer. */
  lemma DeviceObeys(s: State, h: int)
    requires Inv(s) && h in s.devHas
    ensures h in s.reqs && Enabled(s, DevComplete(h))
    ensures var r, s' := s.reqs[h], Apply(s, DevComplete(h));
            if r.op.write
            then (s'.platter == s.platter[r.op.sector := Look(s.memory, r.b)] && s'.memory == s.memory)
            else (s'.memory == s.memory[r.b := Look(s.platter, r.op.sector)] && s'.platter == s.platter)
  {
    assert ChainOk(s, h);
  }

  /** The interrupt handler never meets a bad status, and wakes the buffer of the request it reads. */
  lemma IntrWakesOwn(s: State)
    requires Inv(s) && s.pending == -1 && s.seenIdx != s.usedIdx
    ensures s.usq != [] && s.usq[0] in s.reqs && Enabled(s, Intr)
    ensures s.usedRing[s.seenIdx % NUM] == s.usq[0]
    ensures Apply(s, Intr).busy == s.busy - {s.reqs[s.usq[0]].b}
  {
    SeenAhead(s.nSeen, |s.usq|);
    assert s.usq != [];
    var h := s.usq[0];
    assert s.usedRing[(s.nSeen + 0) % NUM] == h;
    assert h in s.usq;
    assert ChainOk(s, h) && StageOk(s, h);
  }

  /** When virtio_disk_rw sees b->disk cleared, its transfer is done, and freeing its chain does not panic. */
  lemma FinishDone(s: State, h: int)
    requires Inv(s) && h in s.reqs && s.reqs[h].b !in s.busy
    ensures s.reqs[h].stage.Acked? && (!s.reqs[h].op.write ==> Look(s.memory, s.reqs[h].b) == s.reqs[h].moved)
    ensures ChainOk(s, h)
    ensures var r := s.reqs[h];
            FreeChain(s.free, s.desc, h) ==
            Freed(s.free[h := true][r.i1 := true][r.i2 := true],
                  s.desc[h := ZERO_DESC][r.i1 := ZERO_DESC][r.i2 := ZERO_DESC])
  {
    var r := s.reqs[h];
    assert ChainOk(s, h) && StageOk(s, h);
    assert OwnerOk(s, h) && OwnerOk(s, r.i1) && OwnerOk(s, r.i2);
    FreeChainThree(s.free, s.desc, h, r.i1, r.i2);
  }

  /** 16-bit indices that differ by at most NUM agree only when the counts do. */
  lemma SeenAhead(n: nat, k: nat)
    requires k <= NUM
    ensures n % WRAP == (n + k) % WRAP <==> k == 0
    ensures n % WRAP % NUM == n % NUM
    ensures (n % WRAP + 1) % WRAP == (n + 1) % WRAP
  {
    var q, r := n / WRAP, n % WRAP;
    WrapAdd(q, r, k);
    WrapAdd(q, r, 1);
    WrapMod(q, r);
  }

  lemma WrapAdd(q: nat, r: nat, k: nat)
    requires r < WRAP && k <= NUM
    ensures (q * WRAP + r + k) % WRAP == if r + k < WRAP then r + k else r + k - WRAP
    ensures (r + k) % WRAP == if r + k < WRAP then r + k else r + k - WRAP
  {}

  lemma WrapMod(q: nat, r: nat)
    ensures (q * WRAP + r) % NUM == r % NUM
  {
    var a, b := r / NUM, r % NUM;
    RemainderIs(q * WRAP + r, q * 8192 + a, b);
  }

  lemma RemainderIs(x: nat, a: nat, b: nat)
    requires x == NUM * a + b && b < NUM
    ensures x % NUM == b
  {}
}
