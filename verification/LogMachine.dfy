/**
  The redo log of the file system (kernel/log.c) as a step machine in which every disk
  write is one atomic step and a crash may fall between any two steps.

  `Store` is the specification: a store whose durable contents change all at once.
  `Apply` is the log. `StepRefines` and `RunRefines` show that every run of the log,
  whatever the interleaving of operations, crashes and repeated recoveries, is a run of
  the store.
 */
module LogMachine {
  import opened Basics

  const MAXOPBLOCKS: nat := 10
  const LOGSIZE: nat := MAXOPBLOCKS * 3

  /** A disk block, seen as the words the log header is laid out in. */
  datatype Block = Block(words: seq<int>)

  // ---------------------------------------------------------------------------------
  // Layout and header block
  // ---------------------------------------------------------------------------------

  /** First log block (the header), number of log blocks, number of disk blocks. */
  datatype Config = Config(start: nat, size: nat, nblocks: nat) {
    ghost predicate Valid() { 1 <= size && start + size <= nblocks }

    predicate Home(b: int) { 0 <= b < nblocks && !(start <= b < start + size) }

    function HomeSet(): (r: set<int>) { set b | 0 <= b < nblocks && Home(b) }

    /** What log_write's two limits leave for a transaction. */
    function Capacity(): (r: int) { if size - 1 < LOGSIZE then size - 1 else LOGSIZE }
  }

  /** A block that read_head can take as a header: the count fits log.lh.block. */
  predicate HeaderBlock(b: Block) { |b.words| > LOGSIZE && b.words[0] <= LOGSIZE }

  /** Block numbers recorded in a header block; word 0 is the count. */
  function Decode(b: Block): (r: seq<int>)
  {
    if |b.words| > LOGSIZE && 0 < b.words[0] <= LOGSIZE
    then b.words[1..1 + b.words[0]] else []
  }

  /** write_head copies the count and the first n numbers over the old header contents. */
  function Encode(lh: seq<int>, prior: Block): (r: Block)
    requires |lh| <= LOGSIZE < |prior.words|
  {
    Block([|lh|] + lh + prior.words[1 + |lh|..])
  }

  lemma DecodeEncode(lh: seq<int>, prior: Block)
    requires |lh| <= LOGSIZE < |prior.words|
    ensures Decode(Encode(lh, prior)) == lh
    ensures HeaderBlock(Encode(lh, prior))
  {
    assert Encode(lh, prior).words[1..1 + |lh|] == lh;
  }

  ghost predicate GoodHeader(c: Config, lh: seq<int>) {
    && |lh| <= c.Capacity()
    && NoDup(lh)
    && (forall i :: 0 <= i < |lh| ==> c.Home(lh[i]))
  }

  // ---------------------------------------------------------------------------------
  // Specification: an atomic store
  // ---------------------------------------------------------------------------------

  type Contents = map<int, Block>

  /**
    `durable` survives a crash; `pending` is what running operations see; `listed` are the
    blocks that will go to disk together.
   */
  datatype Store = Store(durable: Contents, pending: Contents, active: int, listed: set<int>)

  datatype Event =
    | BeginOp
    | LogWrite(op: nat, b: int, data: Block)
    | Scribble(b: int, data: Block) // a buffer changed and released without log_write
    | EndOp(op: nat)
    | WriteLogBlock
    | WriteHead
    | InstallBlock
    | ClearHead
    | EndCommit
    | Evict(b: int)
    | Crash
    | ReadHead
    | RecoverBlock
    | RecoverClear

  ghost predicate StoreEnabled(st: Store, e: Event) {
    match e
    case LogWrite(_, b, _) => st.active >= 1 && b in st.pending
    case Scribble(b, _) => st.active >= 1 && b in st.pending
    case Evict(b) => b in st.listed && b in st.pending && b in st.durable ==> st.pending[b] == st.durable[b]
    case EndOp(_) => st.active >= 1
    case WriteHead => st.active == 0
    case _ => true
  }

  /** The durable contents with the listed blocks as they are pending. */
  ghost function Moved(st: Store): (r: Contents) {
    map b | b in st.durable :: if b in st.listed && b in st.pending then st.pending[b] else st.durable[b]
  }

  /**
    Only `WriteHead` moves the durable contents: the listed blocks, all at once. Recycling a
    buffer takes its block back to what is durable.
   */
  ghost function StoreApply(st: Store, e: Event): Store {
    match e
    case BeginOp => st.(active := st.active + 1)
    case LogWrite(_, b, data) => st.(pending := st.pending[b := data], listed := st.listed + {b})
    case Scribble(b, data) => st.(pending := st.pending[b := data])
    case EndOp(_) => st.(active := st.active - 1)
    case WriteHead => st.(durable := Moved(st))
    case ClearHead => st.(listed := {})
    case Evict(b) => if b in st.pending && b in st.durable then st.(pending := st.pending[b := st.durable[b]]) else st
    case Crash => Store(st.durable, st.durable, 0, {})
    case _ => st
  }

  // ---------------------------------------------------------------------------------
  // The log
  // ---------------------------------------------------------------------------------

  /** Where the log is: idle, in commit() after `tail` loop turns, or in recovery. */
  datatype Phase =
    | Idle
    | WritingLog(tail: nat)
    | Installing(tail: nat)
    | Cleared
    | Boot
    | Recovering(tail: nat)

  /**
    `mem[b]` is what bread(b) returns, `pins` the blocks bpin holds in the cache, `ops`
    the number of new blocks each outstanding operation has logged so far.
   */
  datatype State = State(
    disk: seq<Block>, mem: seq<Block>, lh: seq<int>, pins: set<int>,
    outstanding: int, ops: seq<nat>, phase: Phase)

  ghost predicate Shaped(c: Config, s: State) {
    c.Valid() && |s.disk| == |s.mem| == c.nblocks
  }

  /** bwrite: the buffer and the disk agree afterwards. */
  function Bwrite(s: State, b: int, data: Block): (r: State)
    requires 0 <= b < |s.disk| == |s.mem|
  {
    s.(disk := s.disk[b := data], mem := s.mem[b := data])
  }

  /** log_write's own checks. */
  predicate LogWritePanics(c: Config, s: State) {
    |s.lh| >= LOGSIZE || |s.lh| >= c.size - 1 || s.outstanding < 1
  }

  /** The block the next turn of a copying loop handles exists. */
  predicate TailInRange(c: Config, s: State, t: nat) {
    t < |s.lh| && c.start + 1 + t < c.nblocks && 0 <= s.lh[t] < c.nblocks
  }

  predicate HeaderFits(c: Config, s: State)
    requires |s.mem| == c.nblocks && c.start < c.nblocks
  {
    |s.lh| <= LOGSIZE < |s.mem[c.start].words|
  }

  predicate Enabled(c: Config, s: State, e: Event) {
    && |s.disk| == |s.mem| == c.nblocks && c.start < c.nblocks
    && match e
       case BeginOp =>
         s.phase.Idle? && |s.lh| + (s.outstanding + 1) * MAXOPBLOCKS <= LOGSIZE
       case LogWrite(op, b, _) => op < |s.ops| && c.Home(b) && !LogWritePanics(c, s)
       case Scribble(b, _) => c.Home(b) && s.outstanding >= 1
       case EndOp(op) => s.phase.Idle? && op < |s.ops|
       case WriteLogBlock => s.phase.WritingLog? && TailInRange(c, s, s.phase.tail)
       case WriteHead =>
         s.phase.WritingLog? && s.phase.tail == |s.lh| && HeaderFits(c, s)
       case InstallBlock => s.phase.Installing? && TailInRange(c, s, s.phase.tail)
       case ClearHead =>
         s.phase.Installing? && s.phase.tail == |s.lh| && HeaderFits(c, s)
       case EndCommit => s.phase.Cleared?
       case Evict(b) => 0 <= b < c.nblocks && b !in s.pins
       case Crash => true
       case ReadHead => s.phase.Boot?
       case RecoverBlock => s.phase.Recovering? && TailInRange(c, s, s.phase.tail)
       case RecoverClear =>
         s.phase.Recovering? && s.phase.tail == |s.lh| && HeaderFits(c, s)
  }

  function Apply(c: Config, s: State, e: Event): (s': State)
    requires Enabled(c, s, e)
  {
    match e
    case BeginOp => s.(outstanding := s.outstanding + 1, ops := s.ops + [0])
    case LogWrite(op, b, data) =>
      if b in s.lh then s.(mem := s.mem[b := data])
      else s.(mem := s.mem[b := data], lh := s.lh + [b], pins := s.pins + {b},
              ops := s.ops[op := s.ops[op] + 1])
    case Scribble(b, data) => s.(mem := s.mem[b := data])
    case EndOp(op) =>
      s.(outstanding := s.outstanding - 1,
         ops := s.ops[..op] + s.ops[op + 1..],
         phase := if s.outstanding - 1 != 0 then Idle
                  else if |s.lh| > 0 then WritingLog(0) else Cleared)
    case WriteLogBlock =>
      var t := s.phase.tail;
      Bwrite(s, c.start + 1 + t, s.mem[s.lh[t]]).(phase := WritingLog(t + 1))
    case WriteHead =>
      Bwrite(s, c.start, Encode(s.lh, s.mem[c.start])).(phase := Installing(0))
    case InstallBlock =>
      var t := s.phase.tail;
      Bwrite(s, s.lh[t], s.mem[c.start + 1 + t])
        .(phase := Installing(t + 1), pins := s.pins - {s.lh[t]})
    case ClearHead =>
      Bwrite(s, c.start, Encode([], s.mem[c.start])).(lh := [], phase := Cleared)
    case EndCommit => s.(phase := Idle)
    case Evict(b) => s.(mem := s.mem[b := s.disk[b]])
    case Crash => State(s.disk, s.disk, [], {}, 0, [], Boot)
    case ReadHead => s.(lh := Decode(s.mem[c.start]), phase := Recovering(0))
    case RecoverBlock =>
      var t := s.phase.tail;
      Bwrite(s, s.lh[t], s.mem[c.start + 1 + t]).(phase := Recovering(t + 1))
    case RecoverClear =>
      Bwrite(s, c.start, Encode([], s.mem[c.start])).(lh := [], phase := Idle)
  }

  // ---------------------------------------------------------------------------------
  // Abstraction
  // ---------------------------------------------------------------------------------

  function IndexOf(lh: seq<int>, b: int): (i: nat)
    requires b in lh
    ensures i < |lh| && lh[i] == b
  {
    if lh[0] == b then 0 else 1 + IndexOf(lh[1..], b)
  }

  /** What home block b holds once the log found on disk d has been replayed. */
  function ReplayAt(c: Config, d: seq<Block>, h: seq<int>, b: int): (r: Block)
    requires 0 <= b < |d|
  {
    if b in h && c.start + 1 + IndexOf(h, b) < |d|
    then d[c.start + 1 + IndexOf(h, b)] else d[b]
  }

  ghost function Replay(c: Config, d: seq<Block>): (r: Contents)
    requires c.Valid() && |d| == c.nblocks
  {
    map b | b in c.HomeSet() :: ReplayAt(c, d, Decode(d[c.start]), b)
  }

  ghost function HomeView(c: Config, m: seq<Block>): (r: Contents)
    requires |m| == c.nblocks
  {
    map b | b in c.HomeSet() :: m[b]
  }

  predicate InRecovery(p: Phase) { p.Boot? || p.Recovering? }

  function Listed(lh: seq<int>): (r: set<int>) { set b | b in lh }

  /** The store a log state stands for. */
  ghost function Abs(c: Config, s: State): Store
    requires Shaped(c, s)
  {
    var d := Replay(c, s.disk);
    Store(d, if InRecovery(s.phase) then d else HomeView(c, s.mem), s.outstanding,
          if InRecovery(s.phase) then {} else Listed(s.lh))
  }

  // ---------------------------------------------------------------------------------
  // Invariant
  // ---------------------------------------------------------------------------------

  /** Committing implies nothing outstanding. */
  ghost predicate OpsInv(s: State) {
    s.outstanding == |s.ops| && (!s.phase.Idle? ==> s.outstanding == 0)
  }

  /** The pinned blocks are exactly those listed from position t on. */
  ghost predicate PinsAre(pins: set<int>, lh: seq<int>, t: nat) {
    && t <= |lh|
    && (forall i :: t <= i < |lh| ==> lh[i] in pins)
    && (forall b :: b in pins ==> exists i :: t <= i < |lh| && lh[i] == b)
  }

  /** Log blocks 0..t-1 hold the current contents of the logged blocks. */
  ghost predicate Logged(c: Config, s: State, t: nat) {
    && t <= |s.lh| && c.start + 1 + t <= |s.disk| == |s.mem|
    && (forall i :: 0 <= i < t ==>
          0 <= s.lh[i] < |s.mem| && s.disk[c.start + 1 + i] == s.mem[s.lh[i]])
  }

  /** Log blocks 0..t-1 have been copied home. */
  ghost predicate Installed(c: Config, s: State, t: nat) {
    && t <= |s.lh| && c.start + 1 + t <= |s.disk|
    && (forall i :: 0 <= i < t ==>
          0 <= s.lh[i] < |s.disk| && s.disk[s.lh[i]] == s.disk[c.start + 1 + i])
  }

  ghost predicate PhaseInv(c: Config, s: State)
    requires Shaped(c, s)
  {
    var h := Decode(s.disk[c.start]);
    match s.phase
    case Idle => h == [] && PinsAre(s.pins, s.lh, 0)
    case WritingLog(t) => h == [] && PinsAre(s.pins, s.lh, 0) && Logged(c, s, t)
    case Installing(t) =>
      && h == s.lh && PinsAre(s.pins, s.lh, t)
      && Logged(c, s, |s.lh|) && Installed(c, s, t)
    case Cleared => h == [] && s.lh == [] && s.pins == {}
    case Boot => s.lh == [] && s.pins == {}
    case Recovering(t) => h == s.lh && s.pins == {} && Installed(c, s, t)
  }

  /** Buffers of log blocks hold what the disk holds; during recovery all buffers do. */
  ghost predicate MemInv(c: Config, s: State) {
    && |s.mem| == |s.disk|
    && (forall b :: 0 <= b < |s.disk| && !c.Home(b) ==> s.mem[b] == s.disk[b])
    && (InRecovery(s.phase) ==> s.mem == s.disk)
  }

  ghost predicate Inv(c: Config, s: State) {
    && Shaped(c, s)
    && HeaderBlock(s.disk[c.start])
    && GoodHeader(c, s.lh)
    && GoodHeader(c, Decode(s.disk[c.start]))
    && MemInv(c, s)
    && PhaseInv(c, s)
    && OpsInv(s)
  }

  /** A machine just switched on with a disk that mkfs or an earlier run left behind. */
  ghost predicate Init(c: Config, s: State) {
    && Shaped(c, s)
    && HeaderBlock(s.disk[c.start])
    && GoodHeader(c, Decode(s.disk[c.start]))
    && s == State(s.disk, s.disk, [], {}, 0, [], Boot)
  }

  // ---------------------------------------------------------------------------------
  // Replay depends on the header, the log blocks and the unlogged home blocks only
  // ---------------------------------------------------------------------------------

  lemma SameReplay(c: Config, d: seq<Block>, d': seq<Block>, h: seq<int>)
    requires c.Valid() && |d| == |d'| == c.nblocks && GoodHeader(c, h)
    requires Decode(d[c.start]) == h == Decode(d'[c.start])
    requires forall b :: c.start < b <= c.start + |h| ==> d'[b] == d[b]
    requires forall b :: c.Home(b) && b !in h ==> d'[b] == d[b]
    ensures Replay(c, d') == Replay(c, d)
  {
    forall b | b in c.HomeSet() ensures ReplayAt(c, d', h, b) == ReplayAt(c, d, h, b) {
      if b in h { assert 0 <= IndexOf(h, b) < |h|; }
    }
  }

  /** Log block i holds what m has for the i-th listed block. */
  ghost predicate LogHolds(c: Config, d: seq<Block>, m: seq<Block>, h: seq<int>)
    requires |d| == |m|
  {
    forall i :: 0 <= i < |h| ==>
      0 <= h[i] < |m| && 0 <= c.start + 1 + i < |d| && d[c.start + 1 + i] == m[h[i]]
  }

  lemma ReplayAtView(c: Config, d: seq<Block>, m: seq<Block>, h: seq<int>, b: int)
    requires |d| == |m| && 0 <= b < |d| && LogHolds(c, d, m, h)
    ensures ReplayAt(c, d, h, b) == if b in h then m[b] else d[b]
  {
    if b in h { assert h[IndexOf(h, b)] == b; }
  }

  /** Home contents of d, with the listed blocks as in m. */
  ghost function Overlay(c: Config, d: seq<Block>, m: seq<Block>, h: seq<int>): (r: Contents)
    requires |d| == |m| == c.nblocks
  {
    map b | b in c.HomeSet() :: if b in h then m[b] else d[b]
  }

  /** Replaying a header whose log blocks hold m puts m's blocks in place. */
  lemma ReplayIsOverlay(c: Config, d: seq<Block>, m: seq<Block>, h: seq<int>)
    requires c.Valid() && |d| == |m| == c.nblocks && Decode(d[c.start]) == h && LogHolds(c, d, m, h)
    ensures Replay(c, d) == Overlay(c, d, m, h)
  {
    hide LogHolds, ReplayAt, Decode;
    forall b | b in c.HomeSet() ensures ReplayAt(c, d, h, b) == if b in h then m[b] else d[b] {
      ReplayAtView(c, d, m, h, b);
    }
  }

  lemma OverlaySelf(c: Config, d: seq<Block>, m: seq<Block>, h: seq<int>)
    requires |d| == |m| == c.nblocks && (h == [] || m == d)
    ensures Overlay(c, d, m, h) == HomeView(c, d)
  {}

  lemma SameView(c: Config, m: seq<Block>, m': seq<Block>)
    requires |m| == |m'| == c.nblocks
    requires forall b :: c.Home(b) ==> m'[b] == m[b]
    ensures HomeView(c, m') == HomeView(c, m)
  {}

  // ---------------------------------------------------------------------------------
  // Each step keeps the invariant and is a step of the store
  // ---------------------------------------------------------------------------------

  lemma InvShaped(c: Config, s: State)
    requires Inv(c, s)
    ensures Shaped(c, s) && OpsInv(s)
    ensures |s.lh| <= c.Capacity() && forall i :: 0 <= i < |s.lh| ==> c.Home(s.lh[i])
  {}

  lemma NoPins(pins: set<int>, lh: seq<int>)
    requires PinsAre(pins, lh, |lh|)
    ensures pins == {}
  {
    assert forall b :: b !in pins;
  }

  lemma BeginOpStep(c: Config, s: State, s': State)
    requires Inv(c, s) && s.phase.Idle?
    requires s' == s.(outstanding := s.outstanding + 1, ops := s.ops + [0])
    ensures Inv(c, s')
  {
    hide PinsAre, GoodHeader, Decode;
  }

  lemma EndOpStep(c: Config, s: State, op: nat, s': State)
    requires Inv(c, s) && s.phase.Idle? && op < |s.ops|
    requires s' == s.(outstanding := s.outstanding - 1,
                      ops := s.ops[..op] + s.ops[op + 1..],
                      phase := if s.outstanding - 1 != 0 then Idle
                               else if |s.lh| > 0 then WritingLog(0) else Cleared)
    ensures Inv(c, s')
  {
    hide PinsAre, GoodHeader, Decode;
    if s.lh == [] { NoPins(s.pins, s.lh); }
    assert s'.phase.WritingLog? ==> Logged(c, s', 0);
  }

  /** A listed block again, or a change that is not logged. */
  lemma ChangeBuffer(c: Config, s: State, b: int, data: Block)
    requires Inv(c, s) && s.phase.Idle? && c.Home(b)
    ensures Inv(c, s.(mem := s.mem[b := data]))
  {
    hide GoodHeader, Decode, PinsAre;
  }

  lemma NewPin(pins: set<int>, lh: seq<int>, b: int)
    requires PinsAre(pins, lh, 0) && b !in lh
    ensures PinsAre(pins + {b}, lh + [b], 0) && b !in pins
  {
    var lh' := lh + [b];
    assert lh'[|lh|] == b;
    forall x | x in pins + {b} ensures exists i :: 0 <= i < |lh'| && lh'[i] == x {
      if x != b {
        var i :| 0 <= i < |lh| && lh[i] == x;
        assert lh'[i] == x;
      }
    }
  }

  lemma NewHeader(c: Config, lh: seq<int>, b: int)
    requires GoodHeader(c, lh) && c.Home(b) && b !in lh && |lh| < c.Capacity()
    ensures GoodHeader(c, lh + [b])
  {}

  lemma LogWriteNew(c: Config, s: State, op: nat, b: int, data: Block, s': State)
    requires Inv(c, s) && s.phase.Idle? && c.Home(b) && b !in s.lh && op < |s.ops|
    requires !LogWritePanics(c, s)
    requires s' == s.(mem := s.mem[b := data], lh := s.lh + [b], pins := s.pins + {b},
                      ops := s.ops[op := s.ops[op] + 1])
    ensures Inv(c, s')
  {
    hide PinsAre, GoodHeader, Decode;
    NewPin(s.pins, s.lh, b);
    NewHeader(c, s.lh, b);
  }

  lemma LogWriteView(c: Config, m: seq<Block>, b: int, data: Block)
    requires c.Home(b) && |m| == c.nblocks
    ensures HomeView(c, m[b := data]) == HomeView(c, m)[b := data]
    ensures b in HomeView(c, m)
  {}

  lemma WriteLogBlockInv(c: Config, s: State, t: nat, s': State)
    requires Inv(c, s) && s.phase == WritingLog(t) && t < |s.lh|
    requires s' == Bwrite(s, c.start + 1 + t, s.mem[s.lh[t]]).(phase := WritingLog(t + 1))
    ensures Inv(c, s')
  {
    hide Logged, MemInv, PinsAre;
    WriteLogBlockCopies(c, s, t, s');
  }

  lemma WriteLogBlockCopies(c: Config, s: State, t: nat, s': State)
    requires Shaped(c, s) && GoodHeader(c, s.lh) && t < |s.lh| && Logged(c, s, t) && MemInv(c, s)
    requires s' == Bwrite(s, c.start + 1 + t, s.mem[s.lh[t]]).(phase := WritingLog(t + 1))
    ensures s'.disk[c.start] == s.disk[c.start]
    ensures Logged(c, s', t + 1) && MemInv(c, s')
  {
    assert c.start + 1 + t !in s.lh;
  }

  /** A write to a log block changes neither what is replayed nor what memory shows. */
  lemma LogBlockAbs(c: Config, s: State, t: nat, s': State, data: Block)
    requires Shaped(c, s) && GoodHeader(c, s.lh) && t < |s.lh| && Decode(s.disk[c.start]) == []
    requires !InRecovery(s.phase) && s' == Bwrite(s, c.start + 1 + t, data).(phase := WritingLog(t + 1))
    ensures Abs(c, s') == Abs(c, s)
  {
    hide Replay, HomeView;
    SameReplay(c, s.disk, s'.disk, []);
    SameView(c, s.mem, s'.mem);
  }

  lemma WriteLogBlockAbs(c: Config, s: State, t: nat, s': State)
    requires Inv(c, s) && s.phase == WritingLog(t) && t < |s.lh|
    requires s' == Bwrite(s, c.start + 1 + t, s.mem[s.lh[t]]).(phase := WritingLog(t + 1))
    ensures Abs(c, s') == Abs(c, s)
  {
    hide Logged, MemInv, PinsAre, GoodHeader, Abs;
    InvShaped(c, s);
    LogBlockAbs(c, s, t, s', s.mem[s.lh[t]]);
  }

  /** Writing the header block leaves the log blocks and their buffers alone. */
  lemma HeadKeeps(c: Config, s: State, b: Block, s': State)
    requires Shaped(c, s) && GoodHeader(c, s.lh) && Logged(c, s, |s.lh|) && MemInv(c, s)
    requires s' == Bwrite(s, c.start, b).(phase := Installing(0))
    ensures Logged(c, s', |s.lh|) && MemInv(c, s') && Installed(c, s', 0)
  {
    assert c.start !in s.lh;
  }

  lemma WriteHeadInv(c: Config, s: State, s': State)
    requires Inv(c, s) && s.phase == WritingLog(|s.lh|) && HeaderFits(c, s)
    requires s' == Bwrite(s, c.start, Encode(s.lh, s.mem[c.start])).(phase := Installing(0))
    ensures Inv(c, s')
  {
    hide Logged, Installed, MemInv, PinsAre, GoodHeader, Encode, Decode;
    DecodeEncode(s.lh, s.mem[c.start]);
    HeadKeeps(c, s, Encode(s.lh, s.mem[c.start]), s');
  }

  /** Once the header lists the logged blocks, replaying gives them as they are in memory. */
  lemma CommittedReplay(c: Config, s: State)
    requires Inv(c, s) && s.phase == Installing(0)
    ensures Replay(c, s.disk) == Overlay(c, s.disk, s.mem, s.lh)
  {
    hide Replay, Overlay, MemInv, PinsAre, GoodHeader, Decode, Installed;
    ReplayIsOverlay(c, s.disk, s.mem, s.lh);
  }

  lemma InstallInv(c: Config, s: State, t: nat, s': State)
    requires Inv(c, s) && s.phase == Installing(t) && t < |s.lh|
    requires s.mem[c.start + 1 + t] == s.disk[c.start + 1 + t] == s.mem[s.lh[t]]
    requires s' == s.(disk := s.disk[s.lh[t] := s.mem[s.lh[t]]],
                      phase := Installing(t + 1), pins := s.pins - {s.lh[t]})
    ensures Inv(c, s')
  {
    hide Logged, Installed, MemInv, PinsAre;
    InstallCopies(c, s, t, s');
    InstallPins(s.pins, s.lh, t);
  }

  lemma InstallCopies(c: Config, s: State, t: nat, s': State)
    requires Shaped(c, s) && GoodHeader(c, s.lh) && t < |s.lh| && MemInv(c, s)
    requires Logged(c, s, |s.lh|) && Installed(c, s, t)
    requires s' == s.(disk := s.disk[s.lh[t] := s.mem[s.lh[t]]],
                      phase := Installing(t + 1), pins := s.pins - {s.lh[t]})
    ensures s'.disk[c.start] == s.disk[c.start]
    ensures Logged(c, s', |s.lh|) && Installed(c, s', t + 1) && MemInv(c, s')
  {
    assert forall b :: c.start <= b <= c.start + |s.lh| ==> s'.disk[b] == s.disk[b];
  }

  lemma InstallPins(pins: set<int>, lh: seq<int>, t: nat)
    requires PinsAre(pins, lh, t) && t < |lh| && NoDup(lh)
    ensures PinsAre(pins - {lh[t]}, lh, t + 1)
  {
    forall b | b in pins - {lh[t]} ensures exists i :: t + 1 <= i < |lh| && lh[i] == b {
      var i :| t <= i < |lh| && lh[i] == b;
      assert i != t;
    }
  }

  /** Writing a listed block home changes nothing that is replayed. */
  lemma HomeWriteReplay(c: Config, d: seq<Block>, h: seq<int>, t: nat, data: Block)
    requires c.Valid() && |d| == c.nblocks && GoodHeader(c, h) && Decode(d[c.start]) == h && t < |h|
    ensures |d[h[t] := data]| == c.nblocks && Replay(c, d[h[t] := data]) == Replay(c, d)
  {
    hide Replay, Decode;
    var d' := d[h[t] := data];
    assert h[t] in h && c.Home(h[t]);
    SameReplay(c, d, d', h);
  }

  lemma InstallAbs(c: Config, s: State, t: nat, s': State)
    requires Inv(c, s) && s.phase == Installing(t) && t < |s.lh|
    requires s' == s.(disk := s.disk[s.lh[t] := s.mem[s.lh[t]]],
                      phase := Installing(t + 1), pins := s.pins - {s.lh[t]})
    ensures Abs(c, s') == Abs(c, s)
  {
    hide Replay, HomeView, Logged, Installed, MemInv, PinsAre, GoodHeader, Decode;
    InvShaped(c, s);
    HomeWriteReplay(c, s.disk, s.lh, t, s.mem[s.lh[t]]);
  }

  /** The buffer being installed already holds what the log block holds. */
  lemma InstallKeepsMem(c: Config, s: State, t: nat)
    requires Inv(c, s) && s.phase == Installing(t) && t < |s.lh|
    ensures s.mem[c.start + 1 + t] == s.disk[c.start + 1 + t] == s.mem[s.lh[t]]
  {
    hide Installed, Decode, PinsAre;
  }

  /** When every logged block is home, replaying changes nothing. */
  lemma InstalledReplay(c: Config, s: State)
    requires Shaped(c, s) && GoodHeader(c, s.lh) && Decode(s.disk[c.start]) == s.lh && Installed(c, s, |s.lh|)
    ensures Replay(c, s.disk) == HomeView(c, s.disk)
  {
    hide Replay, HomeView, Decode, GoodHeader, Overlay;
    ReplayIsOverlay(c, s.disk, s.disk, s.lh);
    OverlaySelf(c, s.disk, s.disk, s.lh);
  }

  lemma ClearedReplay(c: Config, d: seq<Block>)
    requires c.Valid() && |d| == c.nblocks && Decode(d[c.start]) == []
    ensures Replay(c, d) == HomeView(c, d)
  {
    hide Replay, HomeView, Decode, Overlay;
    ReplayIsOverlay(c, d, d, []);
    OverlaySelf(c, d, d, []);
  }

  lemma ClearStep(c: Config, s: State, s': State)
    requires Inv(c, s) && HeaderFits(c, s)
    requires s.phase == Installing(|s.lh|) || s.phase == Recovering(|s.lh|)
    requires s' == Bwrite(s, c.start, Encode([], s.mem[c.start]))
                     .(lh := [], phase := if s.phase.Installing? then Cleared else Idle)
    ensures Inv(c, s') && Abs(c, s') == Abs(c, s).(listed := {})
    ensures s.mem == s.disk ==> s'.mem == s'.disk
  {
    hide Replay, HomeView, Installed, Logged, PinsAre, Decode, Encode;
    DecodeEncode([], s.mem[c.start]);
    if s.phase.Installing? { NoPins(s.pins, s.lh); }
    InstalledReplay(c, s);
    ClearedReplay(c, s'.disk);
    SameView(c, s.disk, s'.disk);
    SameView(c, s.mem, s'.mem);
    EmptyPins();
  }

  lemma EmptyPins()
    ensures PinsAre({}, [], 0)
  {}

  lemma RecoverInstalled(c: Config, s: State, t: nat, s': State)
    requires Shaped(c, s) && GoodHeader(c, s.lh) && Installed(c, s, t) && t < |s.lh| && s.mem == s.disk
    requires s' == Bwrite(s, s.lh[t], s.mem[c.start + 1 + t]).(phase := Recovering(t + 1))
    ensures s'.disk[c.start] == s.disk[c.start] && Installed(c, s', t + 1) && s'.mem == s'.disk
  {
    assert c.Home(s.lh[t]);
  }

  lemma RecoverBlockStep(c: Config, s: State, t: nat, s': State)
    requires Inv(c, s) && s.phase == Recovering(t) && t < |s.lh|
    requires s' == Bwrite(s, s.lh[t], s.mem[c.start + 1 + t]).(phase := Recovering(t + 1))
    ensures Inv(c, s') && Abs(c, s') == Abs(c, s)
  {
    hide Replay, HomeView, Installed, GoodHeader, Decode;
    InvShaped(c, s);
    RecoverInstalled(c, s, t, s');
    HomeWriteReplay(c, s.disk, s.lh, t, s.mem[c.start + 1 + t]);
  }

  /** A block that the disk header lists and that is no longer pinned is home already. */
  lemma EvictListed(c: Config, s: State, b: int)
    requires Inv(c, s) && b in s.lh && b !in s.pins && !InRecovery(s.phase)
    ensures 0 <= b < |s.disk| && s.mem[b] == s.disk[b] && s.phase.Installing?
  {
    hide GoodHeader, Decode, MemInv;
    var i :| 0 <= i < |s.lh| && s.lh[i] == b;
  }

  /** What is durable for an unpinned block is what the disk holds for it. */
  lemma EvictDurable(c: Config, s: State, b: int)
    requires Inv(c, s) && c.Home(b) && b !in s.pins && !InRecovery(s.phase)
    ensures b in Replay(c, s.disk) && Replay(c, s.disk)[b] == s.disk[b]
  {
    hide GoodHeader, MemInv, Decode;
    var h := Decode(s.disk[c.start]);
    assert b in c.HomeSet();
    if b in h {
      EvictListed(c, s, b);
      var i := IndexOf(h, b);
      assert s.disk[s.lh[i]] == s.disk[c.start + 1 + i] by { InstalledAt(c, s, i, b); }
    }
  }

  lemma InstalledAt(c: Config, s: State, i: nat, b: int)
    requires Inv(c, s) && s.phase.Installing? && i < |s.lh| && s.lh[i] == b && b !in s.pins
    ensures c.start + 1 + i < |s.disk| && 0 <= b < |s.disk| && s.disk[b] == s.disk[c.start + 1 + i]
  {
    hide GoodHeader, MemInv, Decode;
  }

  lemma EvictInv(c: Config, s: State, b: int, s': State)
    requires Inv(c, s) && 0 <= b < c.nblocks && b !in s.pins && s' == s.(mem := s.mem[b := s.disk[b]])
    ensures Inv(c, s') && (s.mem == s.disk ==> s' == s)
  {
    hide GoodHeader, Decode, PinsAre, Installed, Logged;
    assert s.mem == s.disk ==> s'.mem == s.mem;
    assert b in s.lh ==> s.mem[b] == s.disk[b] by {
      if b in s.lh && !InRecovery(s.phase) { EvictListed(c, s, b); }
    }
    EvictLogged(c, s, b, s');
    EvictPhase(c, s, s');
  }

  /** Recycling touches neither the disk nor the list. */
  lemma EvictPhase(c: Config, s: State, s': State)
    requires Shaped(c, s) && PhaseInv(c, s) && s' == s.(mem := s'.mem) && |s'.mem| == |s.mem|
    requires forall t: nat :: Logged(c, s, t) ==> Logged(c, s', t)
    ensures Shaped(c, s') && PhaseInv(c, s')
  {
    hide Decode, PinsAre, Logged;
  }

  lemma EvictLogged(c: Config, s: State, b: int, s': State)
    requires |s.disk| == |s.mem| && 0 <= b < |s.mem| && s' == s.(mem := s.mem[b := s.disk[b]])
    requires b in s.lh ==> s.mem[b] == s.disk[b]
    ensures forall t: nat :: Logged(c, s, t) ==> Logged(c, s', t)
  {
    assert b in s.lh ==> s'.mem == s.mem;
  }

  lemma EvictRefines(c: Config, s: State, b: int)
    requires Inv(c, s) && Enabled(c, s, Evict(b))
    ensures Refines(c, s, Evict(b))
  {
    hide Inv, Replay, HomeView;
    InvShaped(c, s);
    var s' := Apply(c, s, Evict(b));
    EvictInv(c, s, b, s');
    if InRecovery(s.phase) {
      assert s.mem == s.disk by { RecoveryClean(c, s); }
      assert s' == s;
      assert Abs(c, s).pending == Abs(c, s).durable;
      EvictSame(Abs(c, s), b);
    } else if c.Home(b) {
      EvictDurable(c, s, b);
      LogWriteView(c, s.mem, b, s.disk[b]);
      if b in s.lh { EvictListed(c, s, b); }
      EvictListedView(c, s, b);
    } else {
      SameView(c, s.mem, s'.mem);
      NotHomeView(c, s, b);
    }
  }

  lemma EvictListedView(c: Config, s: State, b: int)
    requires Shaped(c, s) && c.Home(b)
    ensures b in HomeView(c, s.mem) && HomeView(c, s.mem)[b] == s.mem[b]
  {}

  lemma NotHomeView(c: Config, s: State, b: int)
    requires Shaped(c, s) && !c.Home(b)
    ensures b !in HomeView(c, s.mem) && b !in Replay(c, s.disk)
  {}

  lemma EvictSame(st: Store, b: int)
    requires st.pending == st.durable && st.listed == {}
    ensures StoreApply(st, Evict(b)) == st && StoreEnabled(st, Evict(b))
  {
    if b in st.pending { assert st.pending[b := st.durable[b]] == st.pending; }
  }

  lemma RecoveryClean(c: Config, s: State)
    requires Inv(c, s) && InRecovery(s.phase)
    ensures s.mem == s.disk
  {}

  lemma CrashStep(c: Config, s: State, s': State)
    requires Inv(c, s) && s' == State(s.disk, s.disk, [], {}, 0, [], Boot)
    ensures Inv(c, s') && Init(c, s')
    ensures Abs(c, s') == Store(Abs(c, s).durable, Abs(c, s).durable, 0, {})
  {
    hide Replay, HomeView, Decode;
  }

  lemma ReadHeadStep(c: Config, s: State, s': State)
    requires Inv(c, s) && s.phase.Boot?
    requires s' == s.(lh := Decode(s.mem[c.start]), phase := Recovering(0))
    ensures Inv(c, s') && Abs(c, s') == Abs(c, s)
  {
    hide Replay, HomeView, Decode, GoodHeader;
  }

  /** What a step owes the specification. */
  ghost predicate Refines(c: Config, s: State, e: Event)
    requires Enabled(c, s, e) && Inv(c, s)
  {
    var s' := Apply(c, s, e);
    && Inv(c, s')
    && StoreEnabled(Abs(c, s), e)
    && Abs(c, s') == StoreApply(Abs(c, s), e)
  }

  lemma BeginOpRefines(c: Config, s: State)
    requires Inv(c, s) && Enabled(c, s, BeginOp)
    ensures Refines(c, s, BeginOp)
  {
    hide Inv, Replay, HomeView;
    BeginOpStep(c, s, Apply(c, s, BeginOp));
    InvShaped(c, s);
  }

  lemma EndOpRefines(c: Config, s: State, op: nat)
    requires Inv(c, s) && Enabled(c, s, EndOp(op))
    ensures Refines(c, s, EndOp(op))
  {
    hide Inv, Replay, HomeView;
    EndOpStep(c, s, op, Apply(c, s, EndOp(op)));
    InvShaped(c, s);
  }

  lemma LogWriteRefines(c: Config, s: State, op: nat, b: int, data: Block)
    requires Inv(c, s) && Enabled(c, s, LogWrite(op, b, data))
    ensures Refines(c, s, LogWrite(op, b, data))
  {
    hide Inv, Replay, HomeView;
    InvShaped(c, s);
    LogWriteView(c, s.mem, b, data);
    if b in s.lh { ChangeBuffer(c, s, b, data); }
    else { LogWriteNew(c, s, op, b, data, Apply(c, s, LogWrite(op, b, data))); }
    ListedAdd(s.lh, b);
  }

  lemma ListedAdd(lh: seq<int>, b: int)
    ensures Listed(lh + [b]) == Listed(lh) + {b}
    ensures b in lh ==> Listed(lh) == Listed(lh) + {b}
  {}

  lemma ScribbleRefines(c: Config, s: State, b: int, data: Block)
    requires Inv(c, s) && Enabled(c, s, Scribble(b, data))
    ensures Refines(c, s, Scribble(b, data))
  {
    hide Inv, Replay, HomeView;
    InvShaped(c, s);
    LogWriteView(c, s.mem, b, data);
    ChangeBuffer(c, s, b, data);
  }

  lemma WriteLogBlockRefines(c: Config, s: State)
    requires Inv(c, s) && Enabled(c, s, WriteLogBlock)
    ensures Refines(c, s, WriteLogBlock)
  {
    hide Inv, Abs;
    InvShaped(c, s);
    WriteLogBlockInv(c, s, s.phase.tail, Apply(c, s, WriteLogBlock));
    WriteLogBlockAbs(c, s, s.phase.tail, Apply(c, s, WriteLogBlock));
  }

  /** With an empty header on disk, moving the listed blocks is the overlay. */
  lemma MovedIsOverlay(c: Config, s: State)
    requires Shaped(c, s) && !InRecovery(s.phase) && Replay(c, s.disk) == HomeView(c, s.disk)
    ensures Moved(Abs(c, s)) == Overlay(c, s.disk, s.mem, s.lh)
  {
    hide Replay;
  }

  lemma SameOverlay(c: Config, d: seq<Block>, d': seq<Block>, m: seq<Block>, m': seq<Block>, h: seq<int>)
    requires |d| == |d'| == |m| == |m'| == c.nblocks
    requires forall b :: c.Home(b) ==> d'[b] == d[b] && m'[b] == m[b]
    ensures Overlay(c, d', m', h) == Overlay(c, d, m, h)
  {}

  lemma EmptyHeader(c: Config, s: State)
    requires Inv(c, s) && (s.phase.Idle? || s.phase.WritingLog? || s.phase.Cleared?)
    ensures Shaped(c, s) && Replay(c, s.disk) == HomeView(c, s.disk)
  {
    hide Replay, HomeView, Decode, GoodHeader, MemInv, PinsAre, Logged;
    ClearedReplay(c, s.disk);
  }

  lemma WriteHeadRefines(c: Config, s: State)
    requires Inv(c, s) && Enabled(c, s, WriteHead)
    ensures Refines(c, s, WriteHead)
  {
    hide Inv, Replay, HomeView, Encode, Overlay, Moved;
    InvShaped(c, s);
    var s' := Apply(c, s, WriteHead);
    WriteHeadInv(c, s, s');
    CommittedReplay(c, s');
    EmptyHeader(c, s);
    MovedIsOverlay(c, s);
    SameOverlay(c, s.disk, s'.disk, s.mem, s'.mem, s.lh);
    SameView(c, s.mem, s'.mem);
  }

  lemma InstallRefines(c: Config, s: State)
    requires Inv(c, s) && Enabled(c, s, InstallBlock)
    ensures Refines(c, s, InstallBlock)
  {
    hide Inv, Abs;
    InvShaped(c, s);
    var t := s.phase.tail;
    InstallKeepsMem(c, s, t);
    var s' := s.(disk := s.disk[s.lh[t] := s.mem[s.lh[t]]],
                 phase := Installing(t + 1), pins := s.pins - {s.lh[t]});
    assert s.mem[s.lh[t] := s.mem[s.lh[t]]] == s.mem;
    assert Apply(c, s, InstallBlock) == s';
    InstallInv(c, s, t, s');
    InstallAbs(c, s, t, s');
  }

  lemma RecoveryListed(c: Config, s: State)
    requires Shaped(c, s) && InRecovery(s.phase)
    ensures Abs(c, s).listed == {}
  {}

  lemma RecoveryRefines(c: Config, s: State, e: Event)
    requires Inv(c, s) && Enabled(c, s, e)
    requires e.ClearHead? || e.RecoverClear? || e.RecoverBlock? || e.ReadHead?
    ensures Refines(c, s, e)
  {
    hide Inv, Abs;
    InvShaped(c, s);
    var s' := Apply(c, s, e);
    match e
    case ClearHead => ClearStep(c, s, s');
    case RecoverClear =>
      ClearStep(c, s, s');
      RecoveryListed(c, s);
    case RecoverBlock => RecoverBlockStep(c, s, s.phase.tail, s');
    case ReadHead => ReadHeadStep(c, s, s');
  }

  lemma OtherRefines(c: Config, s: State, e: Event)
    requires Inv(c, s) && Enabled(c, s, e) && (e.Crash? || e.EndCommit?)
    ensures Refines(c, s, e)
  {
    hide Replay, HomeView, Decode, GoodHeader;
    if e.Crash? {
      CrashStep(c, s, Apply(c, s, e));
    } else {
      EmptyPins();
    }
  }

  /** Every step of the log is the store step of the same event. */
  lemma StepRefines(c: Config, s: State, e: Event)
    requires Inv(c, s) && Enabled(c, s, e)
    ensures Refines(c, s, e)
  {
    hide Inv, Refines, Enabled;
    if e.BeginOp? {
      BeginOpRefines(c, s);
    } else if e.EndOp? {
      EndOpRefines(c, s, e.op);
    } else if e.LogWrite? {
      LogWriteRefines(c, s, e.op, e.b, e.data);
    } else if e.Scribble? {
      ScribbleRefines(c, s, e.b, e.data);
    } else if e.Evict? {
      EvictRefines(c, s, e.b);
    } else if e.WriteLogBlock? {
      WriteLogBlockRefines(c, s);
    } else if e.WriteHead? {
      WriteHeadRefines(c, s);
    } else if e.InstallBlock? {
      InstallRefines(c, s);
    } else if e.ClearHead? || e.RecoverClear? || e.RecoverBlock? || e.ReadHead? {
      RecoveryRefines(c, s, e);
    } else {
      OtherRefines(c, s, e);
    }
  }
}
