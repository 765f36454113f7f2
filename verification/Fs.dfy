/**
  Block allocation and inode contents of kernel/fs.c: balloc, bfree, bmap, itrunc, readi and
  writei, on the blocks as bread and log_write present them.
 */
module Fs {
  import opened FsLayout

  /** s with new in place of the bytes at off. */
  ghost function Splice(s: seq<int>, off: nat, new_: seq<int>): (r: seq<int>)
    requires off <= |s|
  {
    s[..off] + new_ + (if off + |new_| <= |s| then s[off + |new_|..] else [])
  }

  function Min(a: int, b: int): (m: int) { if a < b then a else b }
  function Max(a: int, b: int): (m: int) { if a < b then b else a }

  /** What was written is read back, and what lies outside is what it was. */
  lemma SpliceRead(s: seq<int>, off: nat, new_: seq<int>)
    requires off <= |s|
    ensures |Splice(s, off, new_)| == Max(|s|, off + |new_|)
    ensures Splice(s, off, new_)[off..off + |new_|] == new_
    ensures Splice(s, off, new_)[..off] == s[..off]
    ensures off + |new_| <= |s| ==> Splice(s, off, new_)[off + |new_|..] == s[off + |new_|..]
  {}

  ghost predicate NoneFree(O: Owners) { forall b :: 0 <= b < |O| ==> !O[b].Free? }

  /** Every other block, metadata included, is as it was. */
  ghost predicate ChangedOnly(B: Blocks, B': Blocks, changed: set<int>) {
    |B'| == |B| && forall b :: 0 <= b < |B| && b !in changed ==> B'[b] == B[b]
  }

  lemma TwoStores(B: Blocks, x: int, X: Block, y: int, Y: Block)
    requires 0 <= x < |B| && 0 <= y < |B|
    ensures ChangedOnly(B, B[x := X][y := Y], {y, x})
  {}

  class FileSystem {
    const c: Layout
    var blocks: Blocks
    var inodes: Inodes  // in memory
    var dinodes: Inodes // as written back by iupdate
    ghost var owner: Owners

    ghost predicate Valid()
      reads this
    {
      Inv(c, blocks, inodes, owner)
    }

    /** A disk whose bitmap marks all but the free blocks, with empty inodes only. */
    constructor (c: Layout, blocks: Blocks, inums: set<int>, ghost owner: Owners)
      requires LayoutOk(c, blocks, owner) && BitsOk(c, blocks, owner)
      requires forall b :: 0 <= b < |owner| ==> !owner[b].Slot?
      ensures Valid() && this.c == c && this.blocks == blocks && this.owner == owner
      ensures inodes == map i | i in inums :: Inode(0, NO_ADDRS)
    {
      this.c, this.blocks, this.owner := c, blocks, owner;
      inodes := map i | i in inums :: Inode(0, NO_ADDRS);
      dinodes := map i | i in inums :: Inode(0, NO_ADDRS);
    }

    /** Any file system in good order. */
    constructor Mount(c: Layout, blocks: Blocks, inodes: Inodes, ghost owner: Owners)
      requires Inv(c, blocks, inodes, owner)
      ensures Valid() && this.c == c && this.blocks == blocks && this.inodes == inodes && this.owner == owner
    {
      this.c, this.blocks, this.inodes, this.dinodes, this.owner := c, blocks, inodes, inodes, owner;
    }

    /** balloc(): the lowest free block, marked and zeroed; 0 if there is none. */
    method Balloc() returns (r: nat)
      requires Valid()
      modifies this`blocks, this`owner
      ensures Valid() && Extends(old(blocks), inodes, blocks, inodes) && SlotBlocksSame(old(blocks), blocks, old(owner))
      ensures r == 0 <==> NoneFree(old(owner))
      ensures r == 0 ==> blocks == old(blocks) && owner == old(owner)
      ensures r != 0 ==> r < c.size && old(owner)[r].Free? && owner == old(owner)[r := Held]
      ensures r != 0 ==> blocks[r] == ZERO_BLOCK && forall b :: 0 <= b < r ==> !old(owner)[b].Free?
      ensures r != 0 ==> ChangedOnly(old(blocks), blocks, {r, c.bmapstart + r / BPB})
    {
      hide Inv, LayoutOk, BitsOk, Extends, Bit, FlipByte, FlipMark, SlotBlocksSame, ChangedOnly;
      ExtendsRefl(c, blocks, inodes, owner);
      Lengths(c, blocks, inodes, owner);
      var b := 0;
      while b < c.size
        invariant 0 <= b && b % BPB == 0
        invariant forall x :: 0 <= x < b && x < |owner| ==> !owner[x].Free?
        invariant Valid() && blocks == old(blocks) && owner == old(owner)
      {
        Locate(c, blocks, owner, b, 0);
        var m := c.bmapstart + b / BPB;
        var bi := 0;
        while bi < BPB && b + bi < c.size
          invariant 0 <= bi <= BPB && b + bi <= c.size + BPB
          invariant forall x :: 0 <= x < b + bi && x < |owner| ==> !owner[x].Free?
          invariant Valid() && blocks == old(blocks) && owner == old(owner)
        {
          Locate(c, blocks, owner, b, bi);
          if !Bit(blocks[m][bi / 8], bi % 8) {
            TakeBlock(c, blocks, inodes, owner, b + bi);
            FlipMarkAt(c, blocks, b, bi);
            TwoStores(blocks, m, blocks[m][bi / 8 := FlipByte(blocks[m][bi / 8], bi % 8)], b + bi, ZERO_BLOCK);
            blocks := blocks[m := blocks[m][bi / 8 := FlipByte(blocks[m][bi / 8], bi % 8)]];
            blocks := blocks[b + bi := ZERO_BLOCK];
            owner := owner[b + bi := Held];
            return b + bi;
          }
          bi := bi + 1;
        }
        b := b + BPB;
      }
      SlotsUnchanged(blocks, owner);
      r := 0;
    }

    /** bfree(): panics exactly on a free block; otherwise clears its bit. */
    method Bfree(b: nat) returns (ok: bool)
      requires LayoutOk(c, blocks, owner) && BitsOk(c, blocks, owner) && b < c.size && !owner[b].Meta?
      modifies this`blocks, this`owner
      ensures LayoutOk(c, blocks, owner) && BitsOk(c, blocks, owner)
      ensures ok <==> !old(owner)[b].Free?
      ensures !ok ==> blocks == old(blocks) && owner == old(owner)
      ensures ok ==> owner == old(owner)[b := Free]
      ensures NonMetaSame(old(blocks), blocks, old(owner))
      ensures ChangedOnly(old(blocks), blocks, {c.bmapstart + b / BPB})
    {
      hide Marked;
      assert BitmapBlock(c, owner, b) && BitOk(c, blocks, owner, b);
      Locate(c, blocks, owner, b - b % BPB, b % BPB);
      var m, bi := c.bmapstart + b / BPB, b % BPB;
      if !Bit(blocks[m][bi / 8], bi % 8) {
        return false;
      }
      FlipBits(c, blocks, owner, b, Free);
      FlipMarkAt(c, blocks, b - b % BPB, bi);
      hide LayoutOk, BitsOk, FlipMark;
      blocks := blocks[m := blocks[m][bi / 8 := FlipByte(blocks[m][bi / 8], bi % 8)]];
      owner := owner[b := Free];
      ok := true;
    }

    /** The part of bmap that fills an empty slot of the inode itself. */
    method FillDirect(i: int, k: nat) returns (r: nat)
      requires Valid() && i in inodes && k <= NDIRECT
      requires |inodes[i].addrs| == NDIRECT + 1 && inodes[i].addrs[k] == 0
      modifies this`blocks, this`owner, this`inodes
      ensures Valid() && Extends(old(blocks), old(inodes), blocks, inodes) && i in inodes
              && |inodes[i].addrs| == NDIRECT + 1
      ensures r == inodes[i].addrs[k] && (r == 0 <==> NoneFree(old(owner)))
      ensures if r == 0 then owner == old(owner)
              else r < |old(owner)| && old(owner)[r].Free? && owner == old(owner)[r := Slot(i, k)]
    {
      hide Inv, Extends;
      r := Balloc();
      if r == 0 {
        return;
      }
      Lengths(c, blocks, inodes, owner);
      AttachDirectSlots(c, blocks, inodes, owner, i, k, r);
      ghost var I', O' := inodes[i := inodes[i].(addrs := inodes[i].addrs[k := r])], owner[r := Slot(i, k)];
      Attach(c, blocks, inodes, owner, blocks, I', i, k, r);
      ExtendsTrans(old(blocks), inodes, blocks, inodes, blocks, I');
      hide Attached, SlotAddr;
      inodes := inodes[i := inodes[i].(addrs := inodes[i].addrs[k := r])];
      owner := O';
    }

    /** The part of bmap that fills an empty slot of the indirect block. */
    method FillIndirect(i: int, d: nat, j: nat) returns (r: nat)
      requires Valid() && i in inodes && j < NINDIRECT
      requires |inodes[i].addrs| == NDIRECT + 1 && inodes[i].addrs[NDIRECT] == d != 0
      requires d < |blocks| && Word(blocks[d], j) == 0
      modifies this`blocks, this`owner
      ensures Valid() && Extends(old(blocks), inodes, blocks, inodes)
      ensures |blocks| == old(|blocks|) && r == Word(blocks[d], j) && (r == 0 <==> NoneFree(old(owner)))
      ensures if r == 0 then owner == old(owner)
              else r < |old(owner)| && old(owner)[r].Free? && owner == old(owner)[r := Slot(i, NDIRECT + 1 + j)]
    {
      hide Inv, Extends, Extends1, Word, SetWord;
      Lengths(c, blocks, inodes, owner);
      r := Balloc();
      if r == 0 {
        return;
      }
      Lengths(c, blocks, inodes, owner);
      var k := NDIRECT + 1 + j;
      StillEmpty(c, old(blocks), inodes, old(owner), blocks, i, d, j);
      AttachIndirectSlots(c, blocks, inodes, owner, i, k, r);
      SetWordWord(blocks[d], j, r, j);
      ghost var B1, O' := blocks, owner[r := Slot(i, k)];
      var B' := blocks[d := SetWord(blocks[d], j, r)];
      Attach(c, blocks, inodes, owner, B', inodes, i, k, r);
      ExtendsTrans(old(blocks), inodes, B1, inodes, B', inodes);
      hide Attached, SlotAddr;
      blocks := B';
      owner := O';
    }

    /** bmap(): the block of the file's bn-th block, allocated if need be; 0 when out of space. */
    method Bmap(i: int, bn: nat) returns (r: nat)
      requires Valid() && i in inodes && bn < MAXFILE
      modifies this`blocks, this`owner, this`inodes
      ensures Valid() && Extends(old(blocks), old(inodes), blocks, inodes)
      ensures i in inodes && |inodes[i].addrs| == NDIRECT + 1 && |blocks| == old(|blocks|)
      ensures r != 0 ==> r == SlotAddr(blocks, inodes[i], DataSlot(bn))
      ensures r == 0 ==> NoneFree(owner)
      ensures |old(inodes)[i].addrs| == NDIRECT + 1
      ensures old(SlotAddr(blocks, inodes[i], DataSlot(bn))) != 0 ==>
                blocks == old(blocks) && inodes == old(inodes) && owner == old(owner) && r != 0
    {
      Lengths(c, blocks, inodes, owner);
      ExtendsRefl(c, blocks, inodes, owner);
      hide Inv, Extends, Word;
      if bn < NDIRECT {
        r := inodes[i].addrs[bn];
        if r == 0 {
          r := FillDirect(i, bn);
          Lengths(c, blocks, inodes, owner);
        }
        return;
      }
      var j := bn - NDIRECT;
      var d := inodes[i].addrs[NDIRECT];
      if d == 0 {
        d := FillDirect(i, NDIRECT);
        if d == 0 {
          Lengths(c, blocks, inodes, owner);
          return 0;
        }
      }
      Lengths(c, blocks, inodes, owner);
      r := Word(blocks[d], j);
      if r == 0 {
        ghost var B1, I1 := blocks, inodes;
        r := FillIndirect(i, d, j);
        ExtendsTrans(old(blocks), old(inodes), B1, I1, blocks, inodes);
      }
      Lengths(c, blocks, inodes, owner);
    }

    /** itrunc's loop over the indirect block `ind`. */
    method FreeListed(i: int, ind: nat, ghost B0: Blocks, ghost I0: Inodes, ghost O0: Owners)
      requires FsLayout.Inv(c, B0, I0, O0) && i in I0 && |I0[i].addrs| == NDIRECT + 1
               && I0[i].addrs[NDIRECT] == ind != 0
      requires LayoutOk(c, blocks, owner) && BitsOk(c, blocks, owner)
      requires owner == Drop(O0, i, NDIRECT, 0) && NonMetaSame(B0, blocks, O0)
      modifies this`blocks, this`owner
      ensures LayoutOk(c, blocks, owner) && BitsOk(c, blocks, owner)
      ensures owner == Drop(O0, i, NDIRECT, NINDIRECT) && NonMetaSame(B0, blocks, O0)
    {
      hide Inv, SlotAddr, LayoutOk, BitsOk, Gone, Word, NonMetaSame;
      for j := 0 to NINDIRECT
        invariant LayoutOk(c, blocks, owner) && BitsOk(c, blocks, owner)
        invariant owner == Drop(O0, i, NDIRECT, j) && NonMetaSame(B0, blocks, O0)
      {
        DropIndirect(c, B0, I0, O0, i, j, blocks);
        var a := Word(blocks[ind], j);
        if a != 0 {
          ghost var B1 := blocks;
          Sizes(c, blocks, owner);
          var ok := Bfree(a);
          assert ok;
          BlocksSameTrans(B0, B1, blocks, O0, i, NDIRECT, j);
        }
      }
    }

    /**
      itrunc(): frees the blocks of inode i, and no others, without ever freeing a free block.
     */
    method Itrunc(i: int)
      requires Valid() && i in inodes
      modifies this
      ensures Valid() && owner == DropAll(old(owner), i)
      ensures inodes == old(inodes)[i := Inode(0, NO_ADDRS)] && dinodes == old(dinodes)[i := inodes[i]]
      ensures forall j :: j in inodes && j != i ==> Extends1(old(blocks), old(inodes)[j], blocks, inodes[j])
    {
      hide Inv, SlotAddr, Extends1, LayoutOk, BitsOk, Gone, Word, NonMetaSame;
      ghost var B0, I0, O0 := blocks, inodes, owner;
      Lengths(c, B0, I0, O0);
      DropNone(c, B0, I0, O0, i);
      var d := 0;
      while d < NDIRECT
        invariant 0 <= d <= NDIRECT && i in inodes && |inodes[i].addrs| == NDIRECT + 1
        invariant inodes == I0[i := I0[i].(addrs := inodes[i].addrs)] && dinodes == old(dinodes)
        invariant forall k :: 0 <= k < d ==> inodes[i].addrs[k] == 0
        invariant forall k :: d <= k <= NDIRECT ==> inodes[i].addrs[k] == I0[i].addrs[k]
        invariant LayoutOk(c, blocks, owner) && BitsOk(c, blocks, owner)
        invariant owner == Drop(O0, i, d, 0) && NonMetaSame(B0, blocks, O0)
      {
        DropDirect(c, B0, I0, O0, i, d);
        if inodes[i].addrs[d] != 0 {
          ghost var B1 := blocks;
          Sizes(c, blocks, owner);
          var ok := Bfree(inodes[i].addrs[d]);
          assert ok;
          BlocksSameTrans(B0, B1, blocks, O0, i, d, 0);
          inodes := inodes[i := inodes[i].(addrs := inodes[i].addrs[d := 0])];
        }
        d := d + 1;
      }
      var ind := inodes[i].addrs[NDIRECT];
      IndirectSlot(c, B0, I0, O0, i);
      if ind != 0 {
        FreeListed(i, ind, B0, I0, O0);
        DropLast(c, B0, I0, O0, i);
        ghost var B1 := blocks;
        Sizes(c, blocks, owner);
        var ok := Bfree(ind);
        assert ok;
        BlocksSameTrans(B0, B1, blocks, O0, i, NDIRECT, NINDIRECT);
        inodes := inodes[i := inodes[i].(addrs := inodes[i].addrs[NDIRECT := 0])];
      }
      assert owner == DropAll(O0, i);
      SlotsWithin(B0, blocks, O0);
      Truncated(c, B0, I0, O0, blocks, i);
      assert inodes[i].addrs == NO_ADDRS;
      inodes := inodes[i := inodes[i].(size := 0)];
      dinodes := dinodes[i := inodes[i]];
      assert inodes == I0[i := Inode(0, NO_ADDRS)];
    }

    /**
      readi(): `room` bytes of the destination can be written. Returns the bytes of the file in
      the clipped range, or -1 when the destination is too small; the file system is unchanged.
     */
    method Readi(i: int, off: nat, n: nat, room: nat) returns (res: int, out: seq<Byte>)
      requires Valid() && i in inodes && off < UINT && n < UINT && |inodes[i].addrs| == NDIRECT + 1
      modifies this`blocks, this`owner, this`inodes
      ensures blocks == old(blocks) && inodes == old(inodes) && owner == old(owner) && Valid()
      ensures off > inodes[i].size || off + n >= UINT ==> res == 0 && out == []
      ensures off <= inodes[i].size && off + n < UINT ==>
                var len := Min(n, inodes[i].size - off);
                && (room < len ==> res == -1)
                && (len <= room ==> res == len && out == Content(blocks, inodes[i])[off..off + len])
    {
      hide Inv, SlotAddr, Extends, ByteAt;
      Lengths(c, blocks, inodes, owner);
      out := [];
      if off > inodes[i].size || off + n >= UINT {
        return 0, [];
      }
      var len := Min(n, inodes[i].size - off);
      var tot := 0;
      while tot < len
        invariant 0 <= tot <= len && tot <= room && blocks == old(blocks) && inodes == old(inodes)
                  && owner == old(owner)
        invariant |out| == tot && Valid()
        invariant forall p :: 0 <= p < tot ==> out[p] == ByteAt(blocks, inodes[i], off + p)
      {
        var o := off + tot;
        MappedAt(c, blocks, inodes, owner, i, o);
        var addr := Bmap(i, o / BSIZE);
        assert addr != 0;
        var m := Min(len - tot, BSIZE - o % BSIZE);
        if room < tot + m {
          return -1, out;
        }
        BlockBytes(c, blocks, inodes, owner, i, o, m);
        out := out + blocks[addr][o % BSIZE..o % BSIZE + m];
        tot := tot + m;
      }
      assert out == Content(blocks, inodes[i])[off..off + len];
      res := tot;
    }

    /**
      One turn of writei's loop, with tot bytes written so far. `more` is false where it breaks
      off; `k` bytes are then stored. `kept` says whether a buffer that was changed but not
      logged outlives the call.
     */
    method WriteChunk(i: int, src: seq<Byte>, off: nat, n: nat, tot: nat, kept: bool, ghost B0: Blocks,
                      ghost I0: Inodes)
      returns (more: bool, m: nat, ghost k: nat)
      requires Valid() && i in inodes && i in I0 && tot < n && off + n <= MAXFILE * BSIZE && tot <= |src| <= n
      requires Wrote(B0, I0, blocks, inodes, i, off, tot, src) && off <= I0[i].size <= MAXFILE * BSIZE
      requires |inodes[i].addrs| == NDIRECT + 1 && inodes[i].size == I0[i].size
      requires Mapped(blocks, inodes[i], Max(I0[i].size, off + tot))
      modifies this`blocks, this`inodes, this`owner
      ensures Valid() && inodes.Keys == old(inodes.Keys)
      ensures |inodes[i].addrs| == NDIRECT + 1 && inodes[i].size == I0[i].size
      ensures more ==> 0 < m && tot + m <= |src| && k == tot + m
      ensures Mapped(blocks, inodes[i], Max(I0[i].size, if more then off + tot + m else off + tot))
      ensures tot <= k <= |src| && Wrote(B0, I0, blocks, inodes, i, off, k, src)
      ensures off + n <= I0[i].size ==> owner == old(owner)
      ensures more ==> (off + tot + m) % BSIZE == 0 || tot + m == n
      ensures !more && !kept ==> k == tot
      ensures !more ==> (NoneFree(owner) && k == tot) || (Interrupted(src, off, n, tot) && (kept ==> k == |src|))
    {
      hide Inv, SlotAddr, Extends, ByteAt, Wrote, Mapped, Patch, Extends1, Extends1Slots, NoneFree;
      var o := off + tot;
      m, k := 0, tot;
      ghost var B1, I1 := blocks, inodes;
      if o < I0[i].size { MappedAt(c, blocks, inodes, owner, i, o); }
      var addr := Bmap(i, o / BSIZE);
      WroteExtends(B0, I0, B1, I1, blocks, inodes, i, off, tot, src);
      MappedExtends(c, B1, I1, blocks, inodes, owner, i, Max(I0[i].size, o));
      if addr == 0 {
        return false, 0, tot;
      }
      m := Min(n - tot, BSIZE - o % BSIZE);
      var got := Min(m, |src| - tot); // either_copyin
      if got == m || kept {
        WroteStep(c, B0, I0, blocks, inodes, owner, i, off, tot, got, src);
        ghost var B2 := blocks;
        blocks := blocks[addr := Patch(blocks[addr], o % BSIZE, src[tot..tot + got])];
        MappedStep(c, B2, blocks, inodes[i], Max(I0[i].size, o), o, m);
        k := tot + got;
      }
      more := got == m;
    }

    /**
      writei(): `src` is the readable part of the n bytes to write. Returns the number of bytes
      written, or -1. When src ends within a chunk, what there is of the chunk was copied to a
      buffer that is not logged; src[..w] is in the file then if that buffer is kept.
     */
    method Writei(i: int, src: seq<Byte>, off: nat, n: nat, kept: bool) returns (res: int, ghost w: nat)
      requires Valid() && i in inodes && off < UINT && n < UINT && |src| <= n && |inodes[i].addrs| == NDIRECT + 1
      modifies this
      ensures Valid() && i in inodes
      ensures off > old(inodes)[i].size || off + n >= UINT || off + n > MAXFILE * BSIZE <==> res == -1
      ensures res == -1 ==> blocks == old(blocks) && inodes == old(inodes) && owner == old(owner)
      ensures res != -1 ==> 0 <= res <= w <= |src|
      ensures res != -1 ==>
                Wrote(old(blocks), old(inodes), blocks, inodes, i, off, if kept then w else res, src)
      ensures res != -1 && res < |src| ==>
                (w == |src| && Interrupted(src, off, n, res)) || (w == res && NoneFree(owner))
      ensures res != -1 && res < n ==> NoneFree(owner) || |src| < n
      ensures res != -1 ==> res == 0 || res == n || (off + res) % BSIZE == 0
      ensures res != -1 ==> inodes[i].size == Max(old(inodes)[i].size, off + res)
      ensures off + n <= old(inodes)[i].size ==> owner == old(owner)
      ensures res == n ==> Content(blocks, inodes[i]) == Splice(old(Content(blocks, inodes[i])), off, src)
      ensures res != -1 ==> forall j :: j in inodes && j != i ==>
                |old(inodes)[j].addrs| == |inodes[j].addrs| == NDIRECT + 1
                && Content(blocks, inodes[j]) == Content(old(blocks), old(inodes)[j])
      ensures res != -1 ==> dinodes == old(dinodes)[i := inodes[i]]
    {
      hide Inv, SlotAddr, Extends, ByteAt, Wrote, Mapped, Splice, NoneFree, Content;
      ghost var B0, I0 := blocks, inodes;
      Lengths(c, B0, I0, owner);
      if off > inodes[i].size || off + n >= UINT {
        return -1, 0;
      }
      if off + n > MAXFILE * BSIZE {
        return -1, 0;
      }
      WroteNone(c, blocks, inodes, owner, i, off, src);
      var tot := 0;
      ghost var k := 0;
      w := 0;
      while tot < n
        invariant 0 <= tot <= n && k == tot <= |src| && Valid() && inodes.Keys == I0.Keys && w == tot
        invariant Wrote(B0, I0, blocks, inodes, i, off, k, src)
        invariant |inodes[i].addrs| == NDIRECT + 1 && inodes[i].size == I0[i].size && dinodes == old(dinodes)
        invariant Mapped(blocks, inodes[i], Max(I0[i].size, off + tot))
        invariant off + n <= I0[i].size ==> owner == old(owner)
        invariant tot == 0 || tot == n || (off + tot) % BSIZE == 0
      {
        var more, m;
        more, m, k := WriteChunk(i, src, off, n, tot, kept, B0, I0);
        if !more {
          w := if k == tot && NoneFree(owner) then tot else |src|;
          break;
        }
        tot := tot + m;
        w := tot;
      }
      GrowInode(c, blocks, inodes, owner, i, off + tot);
      GrowWrote(B0, I0, blocks, inodes, i, off, k, src, Max(inodes[i].size, off + tot));
      if off + tot > inodes[i].size {
        inodes := inodes[i := inodes[i].(size := off + tot)];
      }
      assert inodes == inodes[i := inodes[i].(size := Max(I0[i].size, off + tot))];
      dinodes := dinodes[i := inodes[i]];
      res := tot;
      WroteContents(c, B0, I0, blocks, inodes, i, off, k, src);
    }
  }

  /** The chunk that starts after tot bytes is not wholly readable. */
  predicate Interrupted(src: seq<Byte>, off: nat, n: nat, tot: int) {
    tot < n && |src| < tot + Min(n - tot, BSIZE - (off + tot) % BSIZE)
  }

  // ---------------------------------------------------------------------------------
  // A write that returns 0 and changes the file
  // ---------------------------------------------------------------------------------

  const ONE_LAYOUT: Layout := Layout(4, 1)
  const ONE_BITMAP: Block := [7] + seq(1023, _ => 0)
  const ONE_BLOCKS: Blocks := [ZERO_BLOCK, ONE_BITMAP, ZERO_BLOCK, ZERO_BLOCK]
  const ONE_ADDRS: seq<nat> := [2, 0, 0, 0, 0, 0, 0, 0, 0, 0, 0, 0, 0]
  const ONE_INODES: Inodes := map[0 := Inode(2, ONE_ADDRS)]
  const ONE_OWNERS: Owners := [Meta, Meta, Slot(0, 0), Free]

  /** One file of two zero bytes in block 2; block 3 is free. */
  lemma OneFileInv()
    ensures Inv(ONE_LAYOUT, ONE_BLOCKS, ONE_INODES, ONE_OWNERS)
  {
    var c, B, I, O := ONE_LAYOUT, ONE_BLOCKS, ONE_INODES, ONE_OWNERS;
    forall b | 0 <= b < 4 ensures BitOk(c, B, O, b) { OneFileBit(b); }
    forall i, k | i in I && 0 <= k < SLOTS ensures SlotOwned(B, I, O, i, k) {}
    forall b | 0 <= b < 4 ensures OwnerPlaced(B, I, O, b) {}
    forall p | 0 <= p < 2 ensures SlotAddr(B, I[0], DataSlot(p / BSIZE)) != 0 { assert p / BSIZE == 0; }
    hide BitOk, SlotOwned, OwnerPlaced;
    assert LayoutOk(c, B, O) by { forall b | 0 <= b < 4 ensures BitmapBlock(c, O, b) {} }
  }

  lemma OneFileBit(b: nat)
    requires b < 4
    ensures BitOk(ONE_LAYOUT, ONE_BLOCKS, ONE_OWNERS, b)
  {
    assert b / BPB == 0 && b % BPB == b && b / 8 == 0 && b % 8 == b;
    assert ONE_BLOCKS[1][0] == 7;
    assert Bit(7, 0) && Bit(3, 0) && Bit(1, 0) && !Bit(0, 0);
    assert Bit(7, 1) == Bit(3, 0) && Bit(3, 1) == Bit(1, 0) && Bit(7, 2) == Bit(3, 1);
    assert Bit(1, 1) == Bit(0, 0) && Bit(3, 2) == Bit(1, 1) && Bit(7, 3) == Bit(3, 2);
  }

  /** Two bytes are to be written, one is readable, the buffer is kept: writei returns 0, and byte 0 is new. */
  method ShortWriteExample() returns (res: int, before: int, after: int)
    ensures res == 0 && before == 0 && after == 7
  {
    hide Inv, Splice;
    OneFileInv();
    var fs := new FileSystem.Mount(ONE_LAYOUT, ONE_BLOCKS, ONE_INODES, ONE_OWNERS);
    before := ByteAt(fs.blocks, fs.inodes[0], 0);
    ghost var w;
    res, w := fs.Writei(0, [7], 0, 2, true);
    assert !NoneFree(fs.owner) by { assert fs.owner[3].Free?; }
    after := ByteAt(fs.blocks, fs.inodes[0], 0);
  }

  // ---------------------------------------------------------------------------------
  // Facts the methods use
  // ---------------------------------------------------------------------------------

  lemma Lengths(c: Layout, B: Blocks, I: Inodes, O: Owners)
    requires Inv(c, B, I, O)
    ensures |B| == |O| == c.size && 0 < c.size < UINT
    ensures forall i :: i in I ==> |I[i].addrs| == NDIRECT + 1 && I[i].size <= MAXFILE * BSIZE
    ensures forall i, k :: i in I && 0 <= k <= NDIRECT ==> I[i].addrs[k] < c.size
    ensures LayoutOk(c, B, O) && BitsOk(c, B, O)
  {
    forall i | i in I ensures |I[i].addrs| == NDIRECT + 1 && I[i].size <= MAXFILE * BSIZE { assert InodeOk(B, I[i]); }
    forall i, k | i in I && 0 <= k <= NDIRECT ensures I[i].addrs[k] < c.size { assert SlotOwned(B, I, O, i, k); }
  }

  lemma Sizes(c: Layout, B: Blocks, O: Owners)
    requires LayoutOk(c, B, O)
    ensures |B| == |O| == c.size && c.size > 0
  {}

  lemma Locate(c: Layout, B: Blocks, O: Owners, b: nat, bi: nat)
    requires LayoutOk(c, B, O) && BitsOk(c, B, O) && b % BPB == 0 && bi < BPB && b + bi < c.size
    ensures (b + bi) / BPB == b / BPB && (b + bi) % BPB == bi && c.bmapstart + b / BPB < |B|
    ensures Bit(B[c.bmapstart + b / BPB][bi / 8], bi % 8) <==> !O[b + bi].Free?
    ensures !Bit(B[c.bmapstart + b / BPB][bi / 8], bi % 8) ==> !O[b + bi].Meta?
  {
    assert BitOk(c, B, O, b + bi);
  }

  lemma FlipMarkAt(c: Layout, B: Blocks, b: nat, bi: nat)
    requires b % BPB == 0 && bi < BPB && c.bmapstart + b / BPB < |B|
    ensures (b + bi) / BPB == b / BPB
    ensures var m := c.bmapstart + b / BPB;
            FlipMark(B, c, b + bi) == B[m := B[m][bi / 8 := FlipByte(B[m][bi / 8], bi % 8)]]
  {
    assert (b + bi) % BPB == bi;
  }

  lemma StillEmpty(c: Layout, B: Blocks, I: Inodes, O: Owners, B': Blocks, i: int, d: nat, j: nat)
    requires Inv(c, B, I, O) && SlotBlocksSame(B, B', O) && i in I && j < NINDIRECT && |I[i].addrs| == NDIRECT + 1
    requires I[i].addrs[NDIRECT] == d && 0 < d < |B| && Word(B[d], j) == 0
    ensures Word(B'[d], j) == 0
  {
    assert SlotOwned(B, I, O, i, NDIRECT);
  }

  lemma DropNone(c: Layout, B: Blocks, I: Inodes, O: Owners, i: int)
    requires Inv(c, B, I, O)
    ensures Drop(O, i, 0, 0) == O && NonMetaSame(B, B, O)
  {
    forall b | 0 <= b < |O| ensures Drop(O, i, 0, 0)[b] == O[b] { assert OwnerPlaced(B, I, O, b); }
  }

  lemma DropDirect(c: Layout, B: Blocks, I: Inodes, O: Owners, i: int, d: nat)
    requires Inv(c, B, I, O) && i in I && d < NDIRECT && |I[i].addrs| == NDIRECT + 1
    ensures var a := I[i].addrs[d];
            if a == 0 then Drop(O, i, d + 1, 0) == Drop(O, i, d, 0)
            else a < |O| && Drop(O, i, d, 0)[a] == Slot(i, d) && Drop(O, i, d + 1, 0) == Drop(O, i, d, 0)[a := Free]
  {
    hide Inv;
    DropStep(c, B, I, O, i, d, d, 0, d + 1, 0);
  }

  /** Without an indirect block the direct slots are all there is. */
  lemma IndirectSlot(c: Layout, B: Blocks, I: Inodes, O: Owners, i: int)
    requires Inv(c, B, I, O) && i in I && |I[i].addrs| == NDIRECT + 1
    ensures I[i].addrs[NDIRECT] == 0 ==> Drop(O, i, NDIRECT, 0) == DropAll(O, i)
  {
    if I[i].addrs[NDIRECT] == 0 {
      forall b | 0 <= b < |O| ensures Drop(O, i, NDIRECT, 0)[b] == DropAll(O, i)[b] {
        assert OwnerPlaced(B, I, O, b);
      }
    }
  }

  lemma DropIndirect(c: Layout, B: Blocks, I: Inodes, O: Owners, i: int, j: nat, B': Blocks)
    requires Inv(c, B, I, O) && i in I && j < NINDIRECT && |I[i].addrs| == NDIRECT + 1 && I[i].addrs[NDIRECT] != 0
    requires NonMetaSame(B, B', O)
    ensures I[i].addrs[NDIRECT] < |B'|
    ensures var a := Word(B'[I[i].addrs[NDIRECT]], j);
            if a == 0 then Drop(O, i, NDIRECT, j + 1) == Drop(O, i, NDIRECT, j)
            else (&& a < |O| && Drop(O, i, NDIRECT, j)[a] == Slot(i, NDIRECT + 1 + j)
                  && Drop(O, i, NDIRECT, j + 1) == Drop(O, i, NDIRECT, j)[a := Free])
  {
    assert SlotOwned(B, I, O, i, NDIRECT);
    hide Inv;
    DropStep(c, B, I, O, i, NDIRECT + 1 + j, NDIRECT, j, NDIRECT, j + 1);
  }

  lemma DropLast(c: Layout, B: Blocks, I: Inodes, O: Owners, i: int)
    requires Inv(c, B, I, O) && i in I && |I[i].addrs| == NDIRECT + 1 && I[i].addrs[NDIRECT] != 0
    ensures var a := I[i].addrs[NDIRECT];
            a < |O| && Drop(O, i, NDIRECT, NINDIRECT)[a] == Slot(i, NDIRECT)
            && DropAll(O, i) == Drop(O, i, NDIRECT, NINDIRECT)[a := Free]
  {
    assert SlotOwned(B, I, O, i, NDIRECT);
    var a := I[i].addrs[NDIRECT];
    forall b | 0 <= b < |O| ensures DropAll(O, i)[b] == Drop(O, i, NDIRECT, NINDIRECT)[a := Free][b] {
      assert OwnerPlaced(B, I, O, b);
    }
  }

  /** Owners only ever go from slots to free while an inode is truncated. */
  lemma BlocksSameTrans(B0: Blocks, B1: Blocks, B2: Blocks, O0: Owners, i: int, d: int, e: int)
    requires NonMetaSame(B0, B1, O0) && NonMetaSame(B1, B2, Drop(O0, i, d, e))
    ensures NonMetaSame(B0, B2, O0)
  {}

  lemma SlotsWithin(B: Blocks, B': Blocks, O: Owners)
    requires NonMetaSame(B, B', O)
    ensures SlotBlocksSame(B, B', O)
  {}

  lemma SlotsUnchanged(B: Blocks, O: Owners)
    requires |B| == |O|
    ensures SlotBlocksSame(B, B, O)
  {}

  lemma MappedAt(c: Layout, B: Blocks, I: Inodes, O: Owners, i: int, o: nat)
    requires Inv(c, B, I, O) && i in I && o < I[i].size
    ensures |I[i].addrs| == NDIRECT + 1 && o / BSIZE < MAXFILE && SlotAddr(B, I[i], DataSlot(o / BSIZE)) != 0
  {
    assert InodeOk(B, I[i]);
  }

  /** The bytes of one block of the file. */
  lemma BlockBytes(c: Layout, B: Blocks, I: Inodes, O: Owners, i: int, o: nat, m: nat)
    requires Inv(c, B, I, O) && i in I && o < I[i].size && o % BSIZE + m <= BSIZE
    ensures |I[i].addrs| == NDIRECT + 1
    ensures var a := SlotAddr(B, I[i], DataSlot(o / BSIZE));
            a < |B| && forall q :: o % BSIZE <= q < o % BSIZE + m ==> B[a][q] == ByteAt(B, I[i], o - o % BSIZE + q)
  {
    MappedAt(c, B, I, O, i, o);
    assert SlotOwned(B, I, O, i, DataSlot(o / BSIZE));
    hide SlotAddr, Inv;
    var a := SlotAddr(B, I[i], DataSlot(o / BSIZE));
    forall q | o % BSIZE <= q < o % BSIZE + m ensures B[a][q] == ByteAt(B, I[i], o - o % BSIZE + q) {
      var p := o - o % BSIZE + q;
      assert p / BSIZE == o / BSIZE && p % BSIZE == q;
    }
  }

  lemma WroteNone(c: Layout, B: Blocks, I: Inodes, O: Owners, i: int, off: nat, src: seq<Byte>)
    requires Inv(c, B, I, O) && i in I && off <= I[i].size
    ensures Wrote(B, I, B, I, i, off, 0, src) && Mapped(B, I[i], Max(I[i].size, off))
  {
    hide SlotAddr, ByteAt;
    assert InodeOk(B, I[i]);
  }

  lemma MappedExtends(c: Layout, B: Blocks, I: Inodes, B': Blocks, I': Inodes, O: Owners, i: int, n: int)
    requires Extends(B, I, B', I') && i in I && |I[i].addrs| == NDIRECT + 1 && Mapped(B, I[i], n)
             && n <= MAXFILE * BSIZE
    ensures I'.Keys == I.Keys && |I'[i].addrs| == NDIRECT + 1 && Mapped(B', I'[i], n) && I'[i].size == I[i].size
  {
    assert Extends1(B, I[i], B', I'[i]);
    ExtendsMapped(B, I[i], B', I'[i], n);
  }

  lemma MappedStep(c: Layout, B: Blocks, B': Blocks, ino: Inode, n: int, o: nat, m: nat)
    requires |ino.addrs| == NDIRECT + 1 && Mapped(B, ino, n) && o <= n && n <= MAXFILE * BSIZE
             && Extends1Slots(B, ino, B', ino)
    requires o / BSIZE < MAXFILE && SlotAddr(B, ino, DataSlot(o / BSIZE)) != 0 && o % BSIZE + m <= BSIZE
    ensures Mapped(B', ino, n) && Mapped(B', ino, Max(n, o + m))
  {
    hide SlotAddr;
    forall p | 0 <= p < Max(n, o + m) ensures SlotAddr(B', ino, DataSlot(p / BSIZE)) != 0 {
      if p >= n { assert p / BSIZE == o / BSIZE; }
    }
  }

  lemma GrowInode(c: Layout, B: Blocks, I: Inodes, O: Owners, i: int, o: nat)
    requires Inv(c, B, I, O) && i in I && |I[i].addrs| == NDIRECT + 1 && o <= MAXFILE * BSIZE
    requires Mapped(B, I[i], Max(I[i].size, o))
    ensures Inv(c, B, I[i := I[i].(size := Max(I[i].size, o))], O)
  {
    hide BitsOk, LayoutOk;
    var I' := I[i := I[i].(size := Max(I[i].size, o))];
    forall j | j in I' ensures InodeOk(B, I'[j]) { assert InodeOk(B, I[j]); }
    forall j, k | j in I' && 0 <= k < SLOTS ensures SlotOwned(B, I', O, j, k) { assert SlotOwned(B, I, O, j, k); }
    forall b | 0 <= b < |O| ensures OwnerPlaced(B, I', O, b) { assert OwnerPlaced(B, I, O, b); }
  }

  lemma GrowWrote(B0: Blocks, I0: Inodes, B: Blocks, I: Inodes, i: int, off: int, w: int, src: seq<Byte>, n: nat)
    requires Wrote(B0, I0, B, I, i, off, w, src)
    ensures Wrote(B0, I0, B, I[i := I[i].(size := n)], i, off, w, src)
  {
    forall p ensures ByteAt(B, I[i].(size := n), p) == ByteAt(B, I[i], p) {}
    hide ByteAt, SlotAddr;
  }

  lemma WroteContents(c: Layout, B0: Blocks, I0: Inodes, B: Blocks, I: Inodes, i: int, off: nat, w: nat, src: seq<Byte>)
    requires Wrote(B0, I0, B, I, i, off, w, src) && off <= I0[i].size
    requires forall j :: j in I ==> j in I0 && |I0[j].addrs| == NDIRECT + 1 && I0[j].size <= MAXFILE * BSIZE
    requires I[i].size <= MAXFILE * BSIZE
    ensures I[i].size == Max(I0[i].size, off + w) && w == |src| ==>
              Content(B, I[i]) == Splice(Content(B0, I0[i]), off, src)
    ensures forall j :: j in I && j != i ==>
              |I[j].addrs| == NDIRECT + 1 && Content(B, I[j]) == Content(B0, I0[j])
  {
    hide SlotAddr, ByteAt;
    forall j | j in I && j != i ensures |I[j].addrs| == NDIRECT + 1 && Content(B, I[j]) == Content(B0, I0[j]) {
      assert Extends1(B0, I0[j], B, I[j]);
      ExtendsContent(B0, I0[j], B, I[j]);
    }
  }
}
