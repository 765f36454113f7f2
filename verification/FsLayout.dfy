/**
  Blocks, the free bitmap, and the direct and indirect block lists of kernel/fs.c, as they lie
  in the blocks of one disk, with a ghost owner per block. A file is the bytes its list leads to.
 */
module FsLayout {

  const BSIZE: nat := 1024
  const NDIRECT: nat := 12
  const NINDIRECT: nat := 256
  const MAXFILE: nat := NDIRECT + NINDIRECT
  const SLOTS: nat := NDIRECT + 1 + NINDIRECT
  const BPB: nat := 8192
  const UINT: nat := 0x1_0000_0000

  type Byte = x: int | 0 <= x < 256
  type Block = b: seq<Byte> | |b| == 1024 witness seq(1024, _ => 0)
  type Blocks = seq<Block>

  datatype Layout = Layout(size: nat, bmapstart: nat)

  datatype Inode = Inode(size: nat, addrs: seq<nat>)
  type Inodes = map<int, Inode>

  /**
    Slot k of an inode: 0 .. 11 are the direct blocks, 12 the indirect block, 13 .. 268 the
    blocks it lists. `Meta` blocks are never allocated; `Held` ones are between two owners.
   */
  datatype Owner = Free | Meta | Held | Slot(inum: int, k: int)
  type Owners = seq<Owner>

  const ZERO_BLOCK: Block := seq(1024, _ => 0)

  // ---------------------------------------------------------------------------------
  // Words of an indirect block
  // ---------------------------------------------------------------------------------

  /** Four bytes, lowest first. */
  function Word4(b0: int, b1: int, b2: int, b3: int): (w: int) { b0 + 256 * (b1 + 256 * (b2 + 256 * b3)) }

  function Word(b: Block, j: int): (w: nat)
    requires 0 <= j < NINDIRECT
  {
    Word4(b[4 * j], b[4 * j + 1], b[4 * j + 2], b[4 * j + 3])
  }

  function SetWord(b: Block, j: int, w: nat): (b': Block)
    requires 0 <= j < NINDIRECT && w < UINT
  {
    b[..4 * j] + [w % 256, w / 256 % 256, w / 256 / 256 % 256, w / 256 / 256 / 256] + b[4 * j + 4..]
  }

  lemma SplitWord(w: nat)
    ensures Word4(w % 256, w / 256 % 256, w / 256 / 256 % 256, w / 256 / 256 / 256) == w
  {
    var x := w / 256;
    var y := x / 256;
    assert x == 256 * (y) + x % 256 && y == 256 * (y / 256) + y % 256;
  }

  lemma SetWordWord(b: Block, j: int, w: nat, i: int)
    requires 0 <= j < NINDIRECT && 0 <= i < NINDIRECT && w < UINT
    ensures Word(SetWord(b, j, w), i) == if i == j then w else Word(b, i)
  {
    SplitWord(w);
    hide Word4;
  }

  // ---------------------------------------------------------------------------------
  // The bitmap
  // ---------------------------------------------------------------------------------

  /** x & (1 << k). */
  predicate Bit(x: nat, k: nat) { if k == 0 then x % 2 == 1 else Bit(x / 2, k - 1) }

  /** x | (1 << k) where the bit is clear, x & ~(1 << k) where it is set. */
  function Flip(x: nat, k: nat): (r: nat) {
    if k > 0 then 2 * Flip(x / 2, k - 1) + x % 2 else if x % 2 == 0 then x + 1 else x - 1
  }

  lemma {:induction false} FlipBit(x: nat, k: nat, j: nat)
    ensures Bit(Flip(x, k), j) <==> if j == k then !Bit(x, k) else Bit(x, j)
  {
    if k > 0 && j > 0 {
      FlipBit(x / 2, k - 1, j - 1);
      assert Flip(x, k) / 2 == Flip(x / 2, k - 1);
    }
  }

  function Two(n: nat): (r: nat) { if n == 0 then 1 else 2 * Two(n - 1) }

  lemma TwoStep(n: nat)
    requires n > 0
    ensures Two(n) == 2 * Two(n - 1)
  {}

  lemma {:induction false} FlipRange(x: nat, k: nat, n: nat)
    requires k < n && x < Two(n)
    ensures Flip(x, k) < Two(n)
  {
    hide Two;
    var half := Two(n - 1);
    assert Two(n) == 2 * half by { TwoStep(n); }
    if k > 0 {
      assert x / 2 < half;
      FlipRange(x / 2, k - 1, n - 1);
    }
  }

  function FlipByte(x: Byte, k: nat): (r: Byte)
    requires k < 8
  {
    assert Two(8) == 256;
    FlipRange(x, k, 8);
    Flip(x, k)
  }

  predicate Marked(B: Blocks, c: Layout, b: int)
    requires 0 <= b && c.bmapstart + b / BPB < |B|
  {
    Bit(B[c.bmapstart + b / BPB][b % BPB / 8], b % BPB % 8)
  }

  function FlipMark(B: Blocks, c: Layout, b: int): (B': Blocks)
    requires 0 <= b && c.bmapstart + b / BPB < |B|
  {
    var m := c.bmapstart + b / BPB;
    B[m := B[m][b % BPB / 8 := FlipByte(B[m][b % BPB / 8], b % BPB % 8)]]
  }

  lemma FlipMarkMarked(B: Blocks, c: Layout, b: int, x: int)
    requires 0 <= b && c.bmapstart + b / BPB < |B| && 0 <= x && c.bmapstart + x / BPB < |B|
    ensures Marked(FlipMark(B, c, b), c, x) <==> if x == b then !Marked(B, c, b) else Marked(B, c, x)
  {
    if x / BPB == b / BPB && x % BPB / 8 == b % BPB / 8 {
      FlipBit(B[c.bmapstart + b / BPB][b % BPB / 8], b % BPB % 8, x % BPB % 8);
      assert x % BPB % 8 == b % BPB % 8 ==> x == b;
    }
  }

  // ---------------------------------------------------------------------------------
  // Slots and bytes of a file
  // ---------------------------------------------------------------------------------

  /** The block number in slot k, 0 where there is none. */
  function SlotAddr(B: Blocks, ino: Inode, k: int): (a: nat)
    requires |ino.addrs| == NDIRECT + 1
  {
    if 0 <= k <= NDIRECT then ino.addrs[k]
    else if NDIRECT < k < SLOTS && 0 < ino.addrs[NDIRECT] < |B| then Word(B[ino.addrs[NDIRECT]], k - NDIRECT - 1)
    else 0
  }

  /** The slot of the file's n-th block. */
  function DataSlot(bn: int): (k: int) { if bn < NDIRECT then bn else bn + 1 }

  function ByteAt(B: Blocks, ino: Inode, p: int): (x: int)
    requires |ino.addrs| == NDIRECT + 1
  {
    var a := SlotAddr(B, ino, DataSlot(p / BSIZE));
    if 0 < a < |B| then B[a][p % BSIZE] else 0
  }

  ghost function Content(B: Blocks, ino: Inode): (s: seq<int>)
    requires |ino.addrs| == NDIRECT + 1
    ensures |s| == ino.size && forall p :: 0 <= p < ino.size ==> s[p] == ByteAt(B, ino, p)
  {
    seq(ino.size, p => ByteAt(B, ino, p))
  }

  /** Bytes 0 .. n-1 all have a block. */
  ghost predicate Mapped(B: Blocks, ino: Inode, n: int)
    requires |ino.addrs| == NDIRECT + 1
  {
    forall p :: 0 <= p < n ==> SlotAddr(B, ino, DataSlot(p / BSIZE)) != 0
  }

  // ---------------------------------------------------------------------------------
  // The invariant
  // ---------------------------------------------------------------------------------

  ghost predicate LayoutOk(c: Layout, B: Blocks, O: Owners) {
    && |B| == |O| == c.size && 0 < c.size < UINT && O[0].Meta?
    && (forall b :: 0 <= b < c.size ==> BitmapBlock(c, O, b))
  }

  /** The bitmap block that holds b's bit. */
  ghost predicate BitmapBlock(c: Layout, O: Owners, b: int) {
    0 <= b && c.bmapstart + b / BPB < |O| && O[c.bmapstart + b / BPB].Meta?
  }

  ghost predicate BitsOk(c: Layout, B: Blocks, O: Owners)
    requires LayoutOk(c, B, O)
  {
    forall b :: 0 <= b < c.size ==> BitOk(c, B, O, b)
  }

  ghost predicate BitOk(c: Layout, B: Blocks, O: Owners, b: int)
    requires |B| == |O|
  {
    BitmapBlock(c, O, b) && b < |O| && (Marked(B, c, b) <==> !O[b].Free?)
  }

  ghost predicate InodeOk(B: Blocks, ino: Inode) {
    |ino.addrs| == NDIRECT + 1 && ino.size <= MAXFILE * BSIZE && Mapped(B, ino, ino.size)
  }

  ghost predicate SlotOwned(B: Blocks, I: Inodes, O: Owners, i: int, k: int)
    requires i in I && |I[i].addrs| == NDIRECT + 1
  {
    var a := SlotAddr(B, I[i], k);
    a != 0 ==> a < |O| && O[a] == Slot(i, k)
  }

  ghost predicate OwnerPlaced(B: Blocks, I: Inodes, O: Owners, b: int)
    requires 0 <= b < |O|
  {
    O[b].Slot? ==>
      && O[b].inum in I && |I[O[b].inum].addrs| == NDIRECT + 1 && 0 <= O[b].k < SLOTS
      && SlotAddr(B, I[O[b].inum], O[b].k) == b
  }

  ghost predicate SlotsOk(B: Blocks, I: Inodes, O: Owners)
    requires forall i :: i in I ==> |I[i].addrs| == NDIRECT + 1
  {
    && (forall i, k :: i in I && 0 <= k < SLOTS ==> SlotOwned(B, I, O, i, k))
    && (forall b :: 0 <= b < |O| ==> OwnerPlaced(B, I, O, b))
  }

  ghost predicate Inv(c: Layout, B: Blocks, I: Inodes, O: Owners) {
    && LayoutOk(c, B, O) && BitsOk(c, B, O)
    && (forall i :: i in I ==> InodeOk(B, I[i]))
    && SlotsOk(B, I, O)
  }

  /** No block is in two slots, of one inode or of two. */
  lemma SlotsDisjoint(c: Layout, B: Blocks, I: Inodes, O: Owners, i: int, k: int, i': int, k': int)
    requires Inv(c, B, I, O) && i in I && i' in I && 0 <= k < SLOTS && 0 <= k' < SLOTS
    requires SlotAddr(B, I[i], k) == SlotAddr(B, I[i'], k') != 0
    ensures i == i' && k == k'
    ensures c.bmapstart + SlotAddr(B, I[i], k) / BPB < |B| && Marked(B, c, SlotAddr(B, I[i], k))
  {
    assert SlotOwned(B, I, O, i, k) && SlotOwned(B, I, O, i', k');
    assert BitOk(c, B, O, SlotAddr(B, I[i], k));
  }

  // ---------------------------------------------------------------------------------
  // Steps that keep every file's bytes
  // ---------------------------------------------------------------------------------

  /** The same files with the same bytes; slots in use stay as they are. */
  ghost predicate Extends(B: Blocks, I: Inodes, B': Blocks, I': Inodes) {
    && I.Keys == I'.Keys
    && (forall i :: i in I ==> Extends1(B, I[i], B', I'[i]))
  }

  ghost predicate Extends1(B: Blocks, ino: Inode, B': Blocks, ino': Inode) {
    && |ino.addrs| == NDIRECT + 1 && |ino'.addrs| == NDIRECT + 1 && ino'.size == ino.size
    && (forall p :: 0 <= p < MAXFILE * BSIZE ==> ByteAt(B', ino', p) == ByteAt(B, ino, p))
    && (forall k :: 0 <= k < SLOTS && SlotAddr(B, ino, k) != 0 ==> SlotAddr(B', ino', k) == SlotAddr(B, ino, k))
  }

  lemma ExtendsContent(B: Blocks, ino: Inode, B': Blocks, ino': Inode)
    requires Extends1(B, ino, B', ino') && ino.size <= MAXFILE * BSIZE
    ensures Content(B', ino') == Content(B, ino)
  {}

  lemma ExtendsTrans(B: Blocks, I: Inodes, B': Blocks, I': Inodes, B'': Blocks, I'': Inodes)
    requires Extends(B, I, B', I') && Extends(B', I', B'', I'')
    ensures Extends(B, I, B'', I'')
  {
    forall i | i in I ensures Extends1(B, I[i], B'', I''[i]) {
      assert Extends1(B, I[i], B', I'[i]) && Extends1(B', I'[i], B'', I''[i]);
    }
  }

  lemma ExtendsRefl(c: Layout, B: Blocks, I: Inodes, O: Owners)
    requires Inv(c, B, I, O)
    ensures Extends(B, I, B, I)
  {}

  lemma ExtendsMapped(B: Blocks, ino: Inode, B': Blocks, ino': Inode, n: int)
    requires Extends1(B, ino, B', ino') && Mapped(B, ino, n) && n <= MAXFILE * BSIZE
    ensures Mapped(B', ino', n)
  {
    hide SlotAddr;
  }

  /** Blocks in slots have not changed. */
  ghost predicate SlotBlocksSame(B: Blocks, B': Blocks, O: Owners) {
    |B| == |B'| == |O| && forall b :: 0 <= b < |B| && O[b].Slot? ==> B'[b] == B[b]
  }

  /** Only blocks that are never allocated have changed. */
  ghost predicate NonMetaSame(B: Blocks, B': Blocks, O: Owners) {
    |B| == |B'| == |O| && forall b :: 0 <= b < |B| && !O[b].Meta? ==> B'[b] == B[b]
  }

  lemma SameSlots(c: Layout, B: Blocks, I: Inodes, O: Owners, B': Blocks, i: int, k: int)
    requires Inv(c, B, I, O) && SlotBlocksSame(B, B', O) && i in I
    ensures SlotAddr(B', I[i], k) == SlotAddr(B, I[i], k)
  {
    assert SlotOwned(B, I, O, i, NDIRECT);
  }

  lemma SameBytes(c: Layout, B: Blocks, I: Inodes, O: Owners, B': Blocks, i: int, p: int)
    requires Inv(c, B, I, O) && SlotBlocksSame(B, B', O) && i in I && 0 <= p < MAXFILE * BSIZE
    ensures ByteAt(B', I[i], p) == ByteAt(B, I[i], p)
  {
    SameSlots(c, B, I, O, B', i, DataSlot(p / BSIZE));
    assert SlotOwned(B, I, O, i, DataSlot(p / BSIZE));
    hide SlotAddr;
  }

  /** Blocks outside the slots may change, together with the owners of free and held ones. */
  lemma OutsideChange(c: Layout, B: Blocks, I: Inodes, O: Owners, B': Blocks, O': Owners)
    requires Inv(c, B, I, O) && SlotBlocksSame(B, B', O)
    requires LayoutOk(c, B', O') && BitsOk(c, B', O')
    requires |O'| == |O| && forall b :: 0 <= b < |O| ==> O'[b] == O[b] || (!O[b].Slot? && !O'[b].Slot?)
    ensures Inv(c, B', I, O') && Extends(B, I, B', I)
  {
    hide ByteAt, LayoutOk, BitsOk;
    forall i | i in I ensures InodeOk(B', I[i]) && Extends1(B, I[i], B', I[i]) {
      assert InodeOk(B, I[i]);
      forall k ensures SlotAddr(B', I[i], k) == SlotAddr(B, I[i], k) { SameSlots(c, B, I, O, B', i, k); }
      forall p | 0 <= p < MAXFILE * BSIZE ensures ByteAt(B', I[i], p) == ByteAt(B, I[i], p) {
        SameBytes(c, B, I, O, B', i, p);
      }
    }
    OutsideSlots(c, B, I, O, B', O');
  }

  lemma OutsideSlots(c: Layout, B: Blocks, I: Inodes, O: Owners, B': Blocks, O': Owners)
    requires Inv(c, B, I, O) && SlotBlocksSame(B, B', O)
    requires |O'| == |O| && forall b :: 0 <= b < |O| ==> O'[b] == O[b] || (!O[b].Slot? && !O'[b].Slot?)
    ensures SlotsOk(B', I, O')
  {
    hide LayoutOk, BitsOk;
    forall i, k | i in I && 0 <= k < SLOTS ensures SlotOwned(B', I, O', i, k) {
      SameSlots(c, B, I, O, B', i, k);
      assert SlotOwned(B, I, O, i, k);
      hide SlotAddr;
    }
    forall b | 0 <= b < |O'| ensures OwnerPlaced(B', I, O', b) {
      assert OwnerPlaced(B, I, O, b);
      if O[b].Slot? { SameSlots(c, B, I, O, B', O[b].inum, O[b].k); }
      hide SlotAddr;
    }
  }

  // ---------------------------------------------------------------------------------
  // balloc
  // ---------------------------------------------------------------------------------

  /** Only b's bit changes, and only in a bitmap block. */
  lemma FlipBits(c: Layout, B: Blocks, O: Owners, b: int, w: Owner)
    requires LayoutOk(c, B, O) && BitsOk(c, B, O) && 0 <= b < c.size && !O[b].Meta? && !w.Meta?
    requires w.Free? <==> !O[b].Free?
    ensures c.bmapstart + b / BPB < |B|
    ensures var B', O' := FlipMark(B, c, b), O[b := w];
            LayoutOk(c, B', O') && BitsOk(c, B', O') && NonMetaSame(B, B', O)
  {
    assert BitmapBlock(c, O, b);
    var B', O' := FlipMark(B, c, b), O[b := w];
    assert forall x :: BitmapBlock(c, O, x) ==> BitmapBlock(c, O', x);
    forall x | 0 <= x < c.size ensures BitOk(c, B', O', x) {
      assert BitOk(c, B, O, x) && BitOk(c, B, O, b);
      FlipMarkMarked(B, c, b, x);
      hide Marked, FlipMark;
    }
  }

  /** Writing a block that is no bitmap block changes no bit. */
  lemma StoreBits(c: Layout, B: Blocks, O: Owners, b: int, x: Block)
    requires LayoutOk(c, B, O) && BitsOk(c, B, O) && 0 <= b < c.size && !O[b].Meta?
    ensures LayoutOk(c, B[b := x], O) && BitsOk(c, B[b := x], O)
  {
    var B' := B[b := x];
    forall y | 0 <= y < c.size ensures BitOk(c, B', O, y) {
      assert BitOk(c, B, O, y);
    }
  }

  /** Marking a free block and zeroing it. */
  lemma TakeBlock(c: Layout, B: Blocks, I: Inodes, O: Owners, b: int)
    requires Inv(c, B, I, O) && 0 <= b < c.size && O[b].Free?
    ensures c.bmapstart + b / BPB < |B|
    ensures var B', O' := FlipMark(B, c, b)[b := ZERO_BLOCK], O[b := Held];
            Inv(c, B', I, O') && Extends(B, I, B', I) && b != 0 && SlotBlocksSame(B, B', O)
  {
    FlipBits(c, B, O, b, Held);
    var B1, O' := FlipMark(B, c, b), O[b := Held];
    hide BitsOk, FlipMark;
    StoreBits(c, B1, O', b, ZERO_BLOCK);
    OutsideChange(c, B, I, O, B1[b := ZERO_BLOCK], O');
  }

  // ---------------------------------------------------------------------------------
  // bmap: a held block goes into an empty slot
  // ---------------------------------------------------------------------------------

  /** Slot (i, k) becomes a; every other slot is as it was. */
  ghost predicate Attached(B: Blocks, I: Inodes, B': Blocks, I': Inodes, i: int, k: int, a: int) {
    && I.Keys == I'.Keys && (forall j :: j in I ==> |I[j].addrs| == |I'[j].addrs| == NDIRECT + 1)
    && (forall j :: j in I ==> I'[j].size == I[j].size)
    && (forall j, m :: j in I && 0 <= m < SLOTS ==>
          SlotAddr(B', I'[j], m) == if j == i && m == k then a else SlotAddr(B, I[j], m))
  }

  lemma AttachDirectSlots(c: Layout, B: Blocks, I: Inodes, O: Owners, i: int, k: int, a: nat)
    requires Inv(c, B, I, O) && i in I && 0 <= k <= NDIRECT && I[i].addrs[k] == 0
    requires 0 < a < c.size && B[a] == ZERO_BLOCK
    ensures Attached(B, I, B, I[i := I[i].(addrs := I[i].addrs[k := a])], i, k, a)
  {
    hide BitsOk, SlotsOk;
    assert forall j :: j in I ==> InodeOk(B, I[j]);
    assert forall j :: 0 <= j < NINDIRECT ==> Word(ZERO_BLOCK, j) == 0;
  }

  lemma AttachIndirectSlots(c: Layout, B: Blocks, I: Inodes, O: Owners, i: int, k: int, a: nat)
    requires Inv(c, B, I, O) && i in I && NDIRECT < k < SLOTS && I[i].addrs[NDIRECT] != 0 && a < c.size
    ensures I[i].addrs[NDIRECT] < c.size && O[I[i].addrs[NDIRECT]] == Slot(i, NDIRECT)
    ensures var d := I[i].addrs[NDIRECT];
            Attached(B, I, B[d := SetWord(B[d], k - NDIRECT - 1, a)], I, i, k, a)
  {
    hide BitsOk, SetWord;
    var d := I[i].addrs[NDIRECT];
    assert SlotOwned(B, I, O, i, NDIRECT);
    var B' := B[d := SetWord(B[d], k - NDIRECT - 1, a)];
    forall j, m | j in I && 0 <= m < SLOTS
      ensures SlotAddr(B', I[j], m) == if j == i && m == k then a else SlotAddr(B, I[j], m)
    {
      assert SlotOwned(B, I, O, j, NDIRECT);
      if m > NDIRECT { SetWordWord(B[d], k - NDIRECT - 1, a, m - NDIRECT - 1); }
      hide Word;
    }
  }

  /** Blocks with an owner outside slot 12 have not changed. */
  ghost predicate DataBlocksSame(B: Blocks, B': Blocks, O: Owners) {
    |B| == |B'| == |O| && forall b :: 0 <= b < |B| && (O[b].Slot? ==> O[b].k != NDIRECT) ==> B'[b] == B[b]
  }

  lemma AttachBytes(c: Layout, B: Blocks, I: Inodes, O: Owners, B': Blocks, I': Inodes, i: int, k: int, a: int,
                    j: int, p: int)
    requires Inv(c, B, I, O) && 0 < a < c.size && O[a].Held? && (k != NDIRECT ==> B[a] == ZERO_BLOCK)
    requires Attached(B, I, B', I', i, k, a) && DataBlocksSame(B, B', O) && i in I && SlotAddr(B, I[i], k) == 0
    requires j in I && 0 <= p < MAXFILE * BSIZE
    ensures ByteAt(B', I'[j], p) == ByteAt(B, I[j], p)
  {
    hide SlotAddr, BitsOk;
    assert SlotOwned(B, I, O, j, DataSlot(p / BSIZE));
  }

  lemma AttachOwners(c: Layout, B: Blocks, I: Inodes, O: Owners, B': Blocks, I': Inodes, i: int, k: int, a: int)
    requires Inv(c, B, I, O) && 0 < a < c.size && O[a].Held? && 0 <= k < SLOTS
    requires Attached(B, I, B', I', i, k, a) && i in I && SlotAddr(B, I[i], k) == 0
    ensures SlotsOk(B', I', O[a := Slot(i, k)])
  {
    hide SlotAddr, BitsOk;
    var O' := O[a := Slot(i, k)];
    forall j, m | j in I && 0 <= m < SLOTS ensures SlotOwned(B', I', O', j, m) {
      assert SlotOwned(B, I, O, j, m);
    }
    forall b | 0 <= b < |O| ensures OwnerPlaced(B', I', O', b) {
      assert OwnerPlaced(B, I, O, b);
    }
  }

  lemma Attach(c: Layout, B: Blocks, I: Inodes, O: Owners, B': Blocks, I': Inodes, i: int, k: int, a: int)
    requires Inv(c, B, I, O) && 0 < a < c.size && O[a].Held? && 0 <= k < SLOTS && B[a] == ZERO_BLOCK
    requires Attached(B, I, B', I', i, k, a) && DataBlocksSame(B, B', O) && i in I && SlotAddr(B, I[i], k) == 0
    ensures Inv(c, B', I', O[a := Slot(i, k)]) && Extends(B, I, B', I')
  {
    hide SlotAddr, ByteAt;
    var O' := O[a := Slot(i, k)];
    AttachOwners(c, B, I, O, B', I', i, k, a);
    forall j | j in I ensures InodeOk(B', I'[j]) && Extends1(B, I[j], B', I'[j]) {
      hide BitsOk, LayoutOk, SlotsOk;
      assert InodeOk(B, I[j]);
      forall p | 0 <= p < MAXFILE * BSIZE ensures ByteAt(B', I'[j], p) == ByteAt(B, I[j], p) {
        AttachBytes(c, B, I, O, B', I', i, k, a, j, p);
      }
    }
    AttachBits(c, B, O, B', O', a, Slot(i, k));
    hide SlotsOk, BitsOk;
  }

  lemma AttachBits(c: Layout, B: Blocks, O: Owners, B': Blocks, O': Owners, a: int, w: Owner)
    requires LayoutOk(c, B, O) && BitsOk(c, B, O) && 0 <= a < c.size && O[a].Held?
    requires DataBlocksSame(B, B', O) && w.Slot? && O' == O[a := w]
    ensures LayoutOk(c, B', O') && BitsOk(c, B', O')
  {
    assert forall x :: BitmapBlock(c, O, x) ==> BitmapBlock(c, O', x);
    forall y | 0 <= y < c.size ensures BitOk(c, B', O', y) {
      assert BitOk(c, B, O, y);
    }
  }

  // ---------------------------------------------------------------------------------
  // Writing a data block
  // ---------------------------------------------------------------------------------

  lemma StoreSlots(c: Layout, B: Blocks, I: Inodes, O: Owners, b: int, x: Block, j: int, k: int)
    requires Inv(c, B, I, O) && 0 <= b < c.size && O[b].Slot? && O[b].k != NDIRECT && j in I
    ensures SlotAddr(B[b := x], I[j], k) == SlotAddr(B, I[j], k)
  {
    assert SlotOwned(B, I, O, j, NDIRECT);
  }

  /** Block bn of file i gets contents x; no other byte of any file changes. */
  lemma StoreByte(c: Layout, B: Blocks, I: Inodes, O: Owners, i: int, bn: int, x: Block, j: int, p: int)
    requires Inv(c, B, I, O) && i in I && 0 <= bn < MAXFILE && SlotAddr(B, I[i], DataSlot(bn)) != 0
    requires j in I && 0 <= p < MAXFILE * BSIZE
    ensures var a := SlotAddr(B, I[i], DataSlot(bn));
            a < |B| && ByteAt(B[a := x], I[j], p) ==
            if j == i && p / BSIZE == bn then x[p % BSIZE] else ByteAt(B, I[j], p)
  {
    hide SlotAddr, BitsOk;
    assert SlotOwned(B, I, O, i, DataSlot(bn)) && SlotOwned(B, I, O, j, DataSlot(p / BSIZE));
    StoreSlots(c, B, I, O, SlotAddr(B, I[i], DataSlot(bn)), x, j, DataSlot(p / BSIZE));
  }

  lemma StoreInv(c: Layout, B: Blocks, I: Inodes, O: Owners, b: int, x: Block)
    requires Inv(c, B, I, O) && 0 <= b < c.size && O[b].Slot? && O[b].k != NDIRECT
    ensures Inv(c, B[b := x], I, O)
  {
    hide BitsOk, SlotAddr;
    StoreBits(c, B, O, b, x);
    var B' := B[b := x];
    forall j | j in I ensures InodeOk(B', I[j]) {
      assert InodeOk(B, I[j]);
      forall k ensures SlotAddr(B', I[j], k) == SlotAddr(B, I[j], k) { StoreSlots(c, B, I, O, b, x, j, k); }
    }
    forall j, k | j in I && 0 <= k < SLOTS ensures SlotOwned(B', I, O, j, k) {
      StoreSlots(c, B, I, O, b, x, j, k);
      assert SlotOwned(B, I, O, j, k);
    }
    forall y | 0 <= y < |O| ensures OwnerPlaced(B', I, O, y) {
      assert OwnerPlaced(B, I, O, y);
      if O[y].Slot? { StoreSlots(c, B, I, O, b, x, O[y].inum, O[y].k); }
    }
  }

  /** From (B0, I0) to (B, I), file i got src[..w] at off, and nothing else changed. */
  ghost predicate Wrote(B0: Blocks, I0: Inodes, B: Blocks, I: Inodes, i: int, off: int, w: int, src: seq<Byte>) {
    && i in I0 && I.Keys == I0.Keys && 0 <= w <= |src|
    && (forall j :: j in I && j != i ==> Extends1(B0, I0[j], B, I[j]))
    && |I0[i].addrs| == |I[i].addrs| == NDIRECT + 1
    && (forall p :: 0 <= p < MAXFILE * BSIZE ==>
          ByteAt(B, I[i], p) == if off <= p < off + w then src[p - off] else ByteAt(B0, I0[i], p))
  }

  /**
    A write of which src[..w] is in the file's buffers, but only src[..res] in logged ones.
    Bytes beyond the count it returns differ from what they were if and only if the unlogged
    buffer is kept and the source differs there from the old contents.
   */
  lemma BeyondCountIff(B0: Blocks, I0: Inodes, B: Blocks, I: Inodes, i: int, off: nat, res: nat, w: nat, kept: bool,
                       src: seq<Byte>)
    requires res <= w <= |src| && off + w <= MAXFILE * BSIZE
    requires Wrote(B0, I0, B, I, i, off, if kept then w else res, src)
    ensures (exists p :: off + res <= p < MAXFILE * BSIZE && ByteAt(B, I[i], p) != ByteAt(B0, I0[i], p))
            <==> kept && exists p :: off + res <= p < off + w && ByteAt(B0, I0[i], p) != src[p - off]
  {
    hide ByteAt, Extends1;
  }

  lemma WroteExtends(B0: Blocks, I0: Inodes, B: Blocks, I: Inodes, B': Blocks, I': Inodes, i: int, off: int,
                     w: int, src: seq<Byte>)
    requires Wrote(B0, I0, B, I, i, off, w, src) && Extends(B, I, B', I')
    ensures Wrote(B0, I0, B', I', i, off, w, src)
  {
    hide ByteAt, SlotAddr;
    forall j | j in I' && j != i ensures Extends1(B0, I0[j], B', I'[j]) {
      assert Extends1(B0, I0[j], B, I[j]) && Extends1(B, I[j], B', I'[j]);
    }
    assert Extends1(B, I[i], B', I'[i]);
  }

  function Patch(b: Block, o: int, s: seq<Byte>): (r: Block)
    requires 0 <= o && o + |s| <= BSIZE
  {
    b[..o] + s + b[o + |s|..]
  }

  lemma WroteStep(c: Layout, B0: Blocks, I0: Inodes, B: Blocks, I: Inodes, O: Owners, i: int, off: nat, w: nat,
                  m: nat, src: seq<Byte>)
    requires Inv(c, B, I, O) && Wrote(B0, I0, B, I, i, off, w, src) && w + m <= |src|
    requires off + w + m <= MAXFILE * BSIZE && (off + w) % BSIZE + m <= BSIZE
    requires (off + w) / BSIZE < MAXFILE && SlotAddr(B, I[i], DataSlot((off + w) / BSIZE)) != 0
    ensures SlotAddr(B, I[i], DataSlot((off + w) / BSIZE)) < |B|
    ensures var a := SlotAddr(B, I[i], DataSlot((off + w) / BSIZE));
            var B' := B[a := Patch(B[a], (off + w) % BSIZE, src[w..w + m])];
            Inv(c, B', I, O) && Wrote(B0, I0, B', I, i, off, w + m, src)
            && Extends1Slots(B, I[i], B', I[i])
  {
    hide BitsOk, SlotAddr, ByteAt;
    var bn, o := (off + w) / BSIZE, (off + w) % BSIZE;
    assert SlotOwned(B, I, O, i, DataSlot(bn));
    var a := SlotAddr(B, I[i], DataSlot(bn));
    var x := Patch(B[a], o, src[w..w + m]);
    var B' := B[a := x];
    StoreInv(c, B, I, O, a, x);
    forall j, k | j in I ensures SlotAddr(B', I[j], k) == SlotAddr(B, I[j], k) {
      StoreSlots(c, B, I, O, a, x, j, k);
    }
    forall j | j in I && j != i ensures Extends1(B0, I0[j], B', I[j]) {
      assert Extends1(B0, I0[j], B, I[j]);
      forall p | 0 <= p < MAXFILE * BSIZE ensures ByteAt(B', I[j], p) == ByteAt(B, I[j], p) {
        StoreByte(c, B, I, O, i, bn, x, j, p);
      }
    }
    WroteBytes(c, B0, I0, B, I, O, i, off, w, m, src, a, B');
  }

  lemma WroteBytes(c: Layout, B0: Blocks, I0: Inodes, B: Blocks, I: Inodes, O: Owners, i: int, off: nat, w: nat, m: nat,
                   src: seq<Byte>, a: int, B': Blocks)
    requires Inv(c, B, I, O) && Wrote(B0, I0, B, I, i, off, w, src) && w + m <= |src|
    requires off + w + m <= MAXFILE * BSIZE && (off + w) % BSIZE + m <= BSIZE
    requires (off + w) / BSIZE < MAXFILE && 0 < a < |B| && SlotAddr(B, I[i], DataSlot((off + w) / BSIZE)) == a
    requires B' == B[a := Patch(B[a], (off + w) % BSIZE, src[w..w + m])]
    ensures forall p :: 0 <= p < MAXFILE * BSIZE ==>
              ByteAt(B', I[i], p) == if off <= p < off + w + m then src[p - off] else ByteAt(B0, I0[i], p)
  {
    hide BitsOk, SlotAddr, SlotsOk;
    var bn, o := (off + w) / BSIZE, (off + w) % BSIZE;
    var x := Patch(B[a], o, src[w..w + m]);
    forall p | 0 <= p < MAXFILE * BSIZE
      ensures ByteAt(B', I[i], p) == if off <= p < off + w + m then src[p - off] else ByteAt(B0, I0[i], p)
    {
      StoreByte(c, B, I, O, i, bn, x, i, p);
      if p / BSIZE == bn {
        assert p == bn * BSIZE + p % BSIZE && off + w == bn * BSIZE + o;
        assert ByteAt(B, I[i], p) == B[a][p % BSIZE];
        assert x[p % BSIZE] == if o <= p % BSIZE < o + m then src[w + p % BSIZE - o] else B[a][p % BSIZE];
      } else {
        assert !(off + w <= p < off + w + m);
      }
    }
  }

  ghost predicate Extends1Slots(B: Blocks, ino: Inode, B': Blocks, ino': Inode)
    requires |ino.addrs| == |ino'.addrs| == NDIRECT + 1
  {
    forall k :: 0 <= k < SLOTS && SlotAddr(B, ino, k) != 0 ==> SlotAddr(B', ino', k) == SlotAddr(B, ino, k)
  }

  // ---------------------------------------------------------------------------------
  // itrunc
  // ---------------------------------------------------------------------------------

  /** Slots of an inode freed so far: d direct ones, then e listed in the indirect block. */
  predicate Gone(k: int, d: int, e: int) { (k < d && k < NDIRECT) || NDIRECT < k <= NDIRECT + e }

  ghost function Drop(O: Owners, i: int, d: int, e: int): (O': Owners)
    ensures |O'| == |O|
    ensures forall b :: 0 <= b < |O| ==>
              O'[b] == if O[b].Slot? && O[b].inum == i && Gone(O[b].k, d, e) then Free else O[b]
  {
    seq(|O|, b requires 0 <= b < |O| =>
      if O[b].Slot? && O[b].inum == i && Gone(O[b].k, d, e) then Free else O[b])
  }

  ghost function DropAll(O: Owners, i: int): (O': Owners)
    ensures |O'| == |O|
    ensures forall b :: 0 <= b < |O| ==> O'[b] == if O[b].Slot? && O[b].inum == i then Free else O[b]
  {
    seq(|O|, b requires 0 <= b < |O| => if O[b].Slot? && O[b].inum == i then Free else O[b])
  }

  /** Slot k leaves the freed part and (d', e') is that part with k in it. */
  lemma DropStep(c: Layout, B: Blocks, I: Inodes, O: Owners, i: int, k: int, d: int, e: int, d': int, e': int)
    requires Inv(c, B, I, O) && i in I && 0 <= k < SLOTS && !Gone(k, d, e)
    requires forall m :: 0 <= m < SLOTS ==> (Gone(m, d', e') <==> Gone(m, d, e) || m == k)
    ensures var a := SlotAddr(B, I[i], k);
            if a == 0 then Drop(O, i, d', e') == Drop(O, i, d, e)
            else a < |O| && Drop(O, i, d, e)[a] == Slot(i, k) && Drop(O, i, d', e') == Drop(O, i, d, e)[a := Free]
  {
    hide SlotAddr, BitsOk, Gone;
    assert SlotOwned(B, I, O, i, k);
    var a := SlotAddr(B, I[i], k);
    var was, now := Drop(O, i, d, e), Drop(O, i, d', e');
    forall b | 0 <= b < |O| ensures now[b] == if a != 0 && b == a then Free else was[b] {
      assert OwnerPlaced(B, I, O, b);
      if O[b].Slot? && O[b].inum == i { assert Gone(O[b].k, d', e') <==> Gone(O[b].k, d, e) || O[b].k == k; }
    }
    if a == 0 { assert now == was; } else { assert now == was[a := Free]; }
  }

  const NO_ADDRS: seq<nat> := seq(13, _ => 0)

  lemma TruncOther(c: Layout, B0: Blocks, I0: Inodes, O0: Owners, B: Blocks, j: int)
    requires Inv(c, B0, I0, O0) && SlotBlocksSame(B0, B, O0) && j in I0
    ensures InodeOk(B, I0[j]) && Extends1(B0, I0[j], B, I0[j])
    ensures forall k :: SlotAddr(B, I0[j], k) == SlotAddr(B0, I0[j], k)
  {
    hide BitsOk, SlotAddr, ByteAt;
    assert InodeOk(B0, I0[j]);
    forall k ensures SlotAddr(B, I0[j], k) == SlotAddr(B0, I0[j], k) { SameSlots(c, B0, I0, O0, B, j, k); }
    forall p | 0 <= p < MAXFILE * BSIZE ensures ByteAt(B, I0[j], p) == ByteAt(B0, I0[j], p) {
      SameBytes(c, B0, I0, O0, B, j, p);
    }
  }

  lemma Truncated(c: Layout, B0: Blocks, I0: Inodes, O0: Owners, B: Blocks, i: int)
    requires Inv(c, B0, I0, O0) && SlotBlocksSame(B0, B, O0) && i in I0
    requires LayoutOk(c, B, DropAll(O0, i)) && BitsOk(c, B, DropAll(O0, i))
    ensures Inv(c, B, I0[i := Inode(0, NO_ADDRS)], DropAll(O0, i))
    ensures forall j :: j in I0 && j != i ==> Extends1(B0, I0[j], B, I0[j])
  {
    hide BitsOk, ByteAt, LayoutOk;
    var I, O := I0[i := Inode(0, NO_ADDRS)], DropAll(O0, i);
    forall j | j in I0 ensures InodeOk(B, I[j]) && (j != i ==> Extends1(B0, I0[j], B, I0[j])) {
      TruncOther(c, B0, I0, O0, B, j);
    }
    forall j, k | j in I && 0 <= k < SLOTS ensures SlotOwned(B, I, O, j, k) {
      TruncOther(c, B0, I0, O0, B, j);
      assert SlotOwned(B0, I0, O0, j, k);
    }
    forall b | 0 <= b < |O| ensures OwnerPlaced(B, I, O, b) {
      assert OwnerPlaced(B0, I0, O0, b);
      if O[b].Slot? { TruncOther(c, B0, I0, O0, B, O[b].inum); }
      hide SlotAddr;
    }
  }
}
