/**
  bootloader/sha256.c: SHA-256 with a context that takes its message in pieces, against the
  one-shot definition of sections 5.1.1 and 6.2.2 of FIPS 180-4.
 */
module Sha256 {

  import opened Words

  // ---------------------------------------------------------------------------------
  // The compression function
  // ---------------------------------------------------------------------------------

  const K0: seq<Word> :=
    [0x428a2f98, 0x71374491, 0xb5c0fbcf, 0xe9b5dba5, 0x3956c25b, 0x59f111f1, 0x923f82a4, 0xab1c5ed5]
  const K1: seq<Word> :=
    [0xd807aa98, 0x12835b01, 0x243185be, 0x550c7dc3, 0x72be5d74, 0x80deb1fe, 0x9bdc06a7, 0xc19bf174]
  const K2: seq<Word> :=
    [0xe49b69c1, 0xefbe4786, 0x0fc19dc6, 0x240ca1cc, 0x2de92c6f, 0x4a7484aa, 0x5cb0a9dc, 0x76f988da]
  const K3: seq<Word> :=
    [0x983e5152, 0xa831c66d, 0xb00327c8, 0xbf597fc7, 0xc6e00bf3, 0xd5a79147, 0x06ca6351, 0x14292967]
  const K4: seq<Word> :=
    [0x27b70a85, 0x2e1b2138, 0x4d2c6dfc, 0x53380d13, 0x650a7354, 0x766a0abb, 0x81c2c92e, 0x92722c85]
  const K5: seq<Word> :=
    [0xa2bfe8a1, 0xa81a664b, 0xc24b8b70, 0xc76c51a3, 0xd192e819, 0xd6990624, 0xf40e3585, 0x106aa070]
  const K6: seq<Word> :=
    [0x19a4c116, 0x1e376c08, 0x2748774c, 0x34b0bcb5, 0x391c0cb3, 0x4ed8aa4a, 0x5b9cca4f, 0x682e6ff3]
  const K7: seq<Word> :=
    [0x748f82ee, 0x78a5636f, 0x84c87814, 0x8cc70208, 0x90befffa, 0xa4506ceb, 0xbef9a3f7, 0xc67178f2]
  const K: seq<Word> := K0 + K1 + K2 + K3 + K4 + K5 + K6 + K7

  const IV: seq<Word> := [
    0x6a09e667, 0xbb67ae85, 0x3c6ef372, 0xa54ff53a, 0x510e527f, 0x9b05688c, 0x1f83d9ab, 0x5be0cd19
  ]

  /** Four bytes, the first being the highest. */
  function Join(a: Byte, b: Byte, c: Byte, d: Byte): (w: Word) {
    ((a as Word) << 24) | ((b as Word) << 16) | ((c as Word) << 8) | (d as Word)
  }

  /** Word t of the message schedule of a block. */
  function Schedule(block: seq<Byte>, t: nat): (w: Word)
    requires |block| == 64 && t < 64
  {
    if t < 16 then Join(block[4 * t], block[4 * t + 1], block[4 * t + 2], block[4 * t + 3])
    else Mix(Schedule(block, t - 2), Schedule(block, t - 7), Schedule(block, t - 15), Schedule(block, t - 16))
  }

  function Mix(w2: Word, w7: Word, w15: Word, w16: Word): (r: Word) {
    Add(Add(Add(Sig1(w2), w7), Sig0(w15)), w16)
  }

  lemma ScheduleStep(block: seq<Byte>, t: nat)
    requires |block| == 64 && t < 64
    ensures t < 16 ==> Schedule(block, t) == Join(block[4 * t], block[4 * t + 1], block[4 * t + 2], block[4 * t + 3])
    ensures t >= 16 ==>
              Schedule(block, t) ==
              Mix(Schedule(block, t - 2), Schedule(block, t - 7), Schedule(block, t - 15), Schedule(block, t - 16))
  {
    hide Join, Mix;
  }

  /** The working variables a .. h. */
  datatype Vars = Vars(a: Word, b: Word, c: Word, d: Word, e: Word, f: Word, g: Word, h: Word)

  function T1(v: Vars, kw: Word, w: Word): (r: Word) {
    Add(Add(Add(Add(v.h, Ep1(v.e)), Ch(v.e, v.f, v.g)), kw), w)
  }

  function T2(v: Vars): (r: Word) { Add(Ep0(v.a), Maj(v.a, v.b, v.c)) }

  /** The working variables after t rounds. */
  function Rounds(H: seq<Word>, block: seq<Byte>, t: nat): (v: Vars)
    requires |H| == 8 && |block| == 64 && t <= 64
  {
    if t == 0 then Vars(H[0], H[1], H[2], H[3], H[4], H[5], H[6], H[7]) else
    var v := Rounds(H, block, t - 1);
    var t1 := T1(v, K[t - 1], Schedule(block, t - 1));
    Vars(Add(t1, T2(v)), v.a, v.b, v.c, Add(v.d, t1), v.e, v.f, v.g)
  }

  function Compress(H: seq<Word>, block: seq<Byte>): (r: seq<Word>)
    requires |H| == 8 && |block| == 64
    ensures |r| == 8
  {
    var v := Rounds(H, block, 64);
    [Add(H[0], v.a), Add(H[1], v.b), Add(H[2], v.c), Add(H[3], v.d),
     Add(H[4], v.e), Add(H[5], v.f), Add(H[6], v.g), Add(H[7], v.h)]
  }

  // ---------------------------------------------------------------------------------
  // The one-shot hash
  // ---------------------------------------------------------------------------------

  /** The hash value after the whole blocks of m. */
  function Fold(m: seq<Byte>): (H: seq<Word>)
    requires |m| % 64 == 0
    ensures |H| == 8
  {
    if m == [] then IV else Compress(Fold(m[..|m| - 64]), m[|m| - 64..])
  }

  /** The byte that a store of n into a byte leaves. */
  function Low(n: nat): (b: Byte) { (n % 256) as Byte }

  /** n in k bytes, highest first. */
  function BigEndian(n: nat, k: nat): (r: seq<Byte>)
    ensures |r| == k
  {
    if k == 0 then [] else BigEndian(n / 256, k - 1) + [Low(n)]
  }

  function Zeros(k: nat): (r: seq<Byte>) { seq(k, _ => 0) }

  /** The number of zero bytes: the only one below 64 that makes whole blocks. */
  function ZeroCount(n: nat): (k: nat)
    ensures k < 64 && (n + 1 + k + 8) % 64 == 0
  {
    if n % 64 < 56 then 55 - n % 64 else 119 - n % 64
  }

  /** Section 5.1.1: a one bit, the fewest zero bits that make whole blocks, and the length in bits. */
  function Pad(m: seq<Byte>): (r: seq<Byte>)
    requires 8 * |m| < 0x1_0000_0000_0000_0000
    ensures |r| % 64 == 0
  {
    m + Stop(ZeroCount(|m|)) + BigEndian(8 * |m|, 8)
  }

  /** The one bit and k zero bytes. */
  function Stop(k: nat): (r: seq<Byte>)
    ensures |r| == k + 1
  {
    [0x80] + Zeros(k)
  }

  function ByteOf(w: Word, i: nat): (b: Byte)
    requires i < 4
  {
    ((if i == 0 then w >> 24
      else if i == 1 then w >> 16
      else if i == 2 then w >> 8
      else w) & 0xff) as Byte
  }

  function Output(H: seq<Word>): (r: seq<Byte>)
    requires |H| == 8
    ensures |r| == 32
  {
    seq(32, i requires 0 <= i < 32 => ByteOf(H[i / 4], i % 4))
  }

  function Hash(m: seq<Byte>): (r: seq<Byte>)
    requires 8 * |m| < 0x1_0000_0000_0000_0000
    ensures |r| == 32
  {
    Output(Fold(Pad(m)))
  }

  function Concat(pieces: seq<seq<Byte>>): (m: seq<Byte>) {
    if pieces == [] then [] else Concat(pieces[..|pieces| - 1]) + pieces[|pieces| - 1]
  }

  lemma FoldAppend(m: seq<Byte>, block: seq<Byte>)
    requires |m| % 64 == 0 && |block| == 64
    ensures Fold(m + block) == Compress(Fold(m), block)
  {
    var n := m + block;
    assert n[..|n| - 64] == m && n[|n| - 64..] == block;
  }

  lemma StopSplit(i: nat, j: nat)
    ensures Stop(i + j) == Stop(i) + Zeros(j)
  {}

  lemma Regroup(a: seq<Byte>, b: seq<Byte>, c: seq<Byte>, d: seq<Byte>)
    ensures a + b + (c + d) == a + (b + c) + d
  {}

  /** The padded message, when the last partial block has room for the length. */
  lemma PadShort(head: seq<Byte>, tail: seq<Byte>)
    requires |head| % 64 == 0 && |tail| < 56 && 8 * |head + tail| < 0x1_0000_0000_0000_0000
    ensures Pad(head + tail) == head + (tail + Stop(55 - |tail|)) + BigEndian(8 * |head + tail|, 8)
  {
    hide BigEndian, Stop;
    assert |head + tail| % 64 == |tail|;
    Regroup(head, tail, Stop(55 - |tail|), []);
    assert head + (tail + Stop(55 - |tail|)) == head + tail + Stop(55 - |tail|);
  }

  /** And when it has not: one more block. */
  lemma PadLong(head: seq<Byte>, tail: seq<Byte>)
    requires |head| % 64 == 0 && 56 <= |tail| < 64 && 8 * |head + tail| < 0x1_0000_0000_0000_0000
    ensures Pad(head + tail) == head + (tail + Stop(63 - |tail|)) + Zeros(56) + BigEndian(8 * |head + tail|, 8)
  {
    hide BigEndian, Stop, Zeros;
    assert |head + tail| % 64 == |tail|;
    StopSplit(63 - |tail|, 56);
    Regroup(head, tail, Stop(63 - |tail|), Zeros(56));
  }

  /** n >> 8 * k. */
  function Shift(n: nat, k: nat): (r: nat) { if k == 0 then n else Shift(n / 256, k - 1) }

  lemma {:induction false} BigEndianAt(n: nat, k: nat, i: nat)
    requires i < k
    ensures BigEndian(n, k)[k - 1 - i] == Low(Shift(n, i))
  {
    if i > 0 { BigEndianAt(n / 256, k - 1, i - 1); }
  }

  lemma EightBytes(n: nat)
    ensures BigEndian(n, 8) ==
            [Low(Shift(n, 7)), Low(Shift(n, 6)), Low(Shift(n, 5)), Low(Shift(n, 4)),
             Low(Shift(n, 3)), Low(Shift(n, 2)), Low(Shift(n, 1)), Low(Shift(n, 0))]
  {
    hide BigEndian, Shift;
    BigEndianAt(n, 8, 0);
    BigEndianAt(n, 8, 1);
    BigEndianAt(n, 8, 2);
    BigEndianAt(n, 8, 3);
    BigEndianAt(n, 8, 4);
    BigEndianAt(n, 8, 5);
    BigEndianAt(n, 8, 6);
    BigEndianAt(n, 8, 7);
  }

  // ---------------------------------------------------------------------------------
  // The context
  // ---------------------------------------------------------------------------------

  const ULL: nat := 0x1_0000_0000_0000_0000

  lemma BitsStep(n: nat)
    requires n % 64 == 0
    ensures ((8 * n) % ULL + 512) % ULL == (8 * (n + 64)) % ULL && (n + 64) % 64 == 0
  {}

  class Context {
    const data: array<Byte>
    var datalen: nat
    var bitlen: nat
    const state: array<Word>
    ghost var folded: seq<Byte>

    /** Whole blocks are folded into `state`, the rest waits in `data`. */
    ghost predicate Valid()
      reads this, data, state
    {
      && data.Length == 64 && state.Length == 8 && datalen < 64
      && |folded| % 64 == 0 && bitlen == (8 * |folded|) % ULL && state[..] == Fold(folded)
    }

    /** What has been hashed so far. */
    ghost function Message(): (m: seq<Byte>)
      reads this, data
      requires data.Length == 64 && datalen < 64
    {
      folded + data[..datalen]
    }

    /** sha256_init(). */
    constructor ()
      ensures Valid() && Message() == [] && fresh(data) && fresh(state)
    {
      data := new Byte[64](_ => 0);
      datalen := 0;
      bitlen := 0;
      state := new Word[8](_ => 0);
      folded := [];
      new;
      SetIV();
    }

    method SetIV()
      requires state.Length == 8
      modifies state
      ensures state[..] == IV
    {
      state[0] := 0x6a09e667;
      state[1] := 0xbb67ae85;
      state[2] := 0x3c6ef372;
      state[3] := 0xa54ff53a;
      state[4] := 0x510e527f;
      state[5] := 0x9b05688c;
      state[6] := 0x1f83d9ab;
      state[7] := 0x5be0cd19;
    }

    /** sha256_transform() on the context's own buffer. */
    method Transform()
      requires data.Length == 64 && state.Length == 8
      modifies state
      ensures state[..] == Compress(old(state[..]), data[..])
    {
      hide Add, T1, T2, Schedule;
      ghost var H, block := state[..], data[..];
      var m := ExpandBlock();
      var v := Vars(state[0], state[1], state[2], state[3], state[4], state[5], state[6], state[7]);
      for i := 0 to 64
        invariant v == Rounds(H, block, i) && state[..] == H && data[..] == block
      {
        var t1 := T1(v, K[i], m[i]);
        var t2 := T2(v);
        v := Vars(Add(t1, t2), v.a, v.b, v.c, Add(v.d, t1), v.e, v.f, v.g);
      }
      AddVars(v);
      assert state[..] == Compress(H, block);
    }

    method AddVars(v: Vars)
      requires state.Length == 8
      modifies state
      ensures var H := old(state[..]);
              state[..] == [Add(H[0], v.a), Add(H[1], v.b), Add(H[2], v.c), Add(H[3], v.d),
                            Add(H[4], v.e), Add(H[5], v.f), Add(H[6], v.g), Add(H[7], v.h)]
    {
      hide Add;
      AddFour(0, v.a, v.b, v.c, v.d);
      AddFour(4, v.e, v.f, v.g, v.h);
    }

    /** Four of the eight additions at the end of sha256_transform. */
    method AddFour(i: nat, a: Word, b: Word, c: Word, d: Word)
      requires state.Length == 8 && i + 4 <= 8
      modifies state
      ensures var H := old(state[..]);
              && state[i] == Add(H[i], a) && state[i + 1] == Add(H[i + 1], b)
              && state[i + 2] == Add(H[i + 2], c) && state[i + 3] == Add(H[i + 3], d)
              && forall k :: 0 <= k < 8 && !(i <= k < i + 4) ==> state[k] == H[k]
    {
      hide Add;
      state[i] := Add(state[i], a);
      state[i + 1] := Add(state[i + 1], b);
      state[i + 2] := Add(state[i + 2], c);
      state[i + 3] := Add(state[i + 3], d);
    }

    /** The array m[64] of sha256_transform. */
    method ExpandBlock() returns (m: seq<Word>)
      requires data.Length == 64
      ensures |m| == 64 && forall t :: 0 <= t < 64 ==> m[t] == Schedule(data[..], t)
    {
      hide Join, Mix, Schedule;
      m := [];
      for i := 0 to 16
        invariant |m| == i && forall t :: 0 <= t < i ==> m[t] == Schedule(data[..], t)
      {
        ScheduleStep(data[..], i);
        var j := 4 * i;
        m := m + [Join(data[j], data[j + 1], data[j + 2], data[j + 3])];
      }
      for i := 16 to 64
        invariant |m| == i && forall t :: 0 <= t < i ==> m[t] == Schedule(data[..], t)
      {
        ScheduleStep(data[..], i);
        m := m + [Mix(m[i - 2], m[i - 7], m[i - 15], m[i - 16])];
      }
    }

    /** One turn of sha256_update's loop. */
    method Absorb(b: Byte)
      requires Valid()
      modifies this`datalen, this`bitlen, this`folded, data, state
      ensures Valid() && Message() == old(Message()) + [b]
    {
      hide Fold, Compress;
      data[datalen] := b;
      datalen := datalen + 1;
      assert data[..datalen] == old(data[..datalen]) + [b];
      if datalen == 64 {
        Transform();
        assert data[..64] == data[..];
        FoldAppend(folded, data[..]);
        BitsStep(|folded|);
        folded := folded + data[..];
        bitlen := (bitlen + 512) % ULL;
        datalen := 0;
      }
    }

    /** sha256_update(); its counter is 32 bits wide. */
    method Update(piece: seq<Byte>)
      requires Valid() && |piece| < 0x1_0000_0000
      modifies this`datalen, this`bitlen, this`folded, data, state
      ensures Valid() && Message() == old(Message()) + piece
    {
      hide Fold;
      for i := 0 to |piece|
        invariant Valid() && Message() == old(Message()) + piece[..i]
      {
        Absorb(piece[i]);
        assert piece[..i + 1] == piece[..i] + [piece[i]];
      }
      assert piece[..|piece|] == piece;
    }

    /** The padding before the length: data[..56] of the last block. */
    method PadBuffer()
      requires Valid() && 8 * |Message()| < ULL
      modifies this`folded, data, state
      ensures |folded| % 64 == 0 && state[..] == Fold(folded)
      ensures folded + data[..56] + BigEndian(8 * |old(Message())|, 8) == Pad(old(Message()))
    {
      hide Fold, Compress, BigEndian, Pad, Stop, Zeros;
      ghost var tail := data[..datalen];
      if datalen < 56 {
        PadShort(folded, tail);
        FillZeros(56);
      } else {
        PadLong(folded, tail);
        FillZeros(64);
        assert data[..64] == data[..];
        Transform();
        FoldAppend(folded, tail + Stop(63 - |tail|));
        folded := folded + (tail + Stop(63 - |tail|));
        ZeroFront();
      }
    }

    /** memset(ctx->data, 0, 56). */
    method ZeroFront()
      requires data.Length == 64
      modifies data
      ensures data[..56] == Zeros(56)
    {
      for j := 0 to 56
        invariant forall k :: 0 <= k < j ==> data[k] == 0
      {
        data[j] := 0;
      }
    }

    /** 0x80 at datalen, then zeros up to n. */
    method FillZeros(n: nat)
      requires data.Length == 64 && datalen < n <= 64
      modifies data
      ensures data[..n] == old(data[..datalen]) + Stop(n - 1 - datalen)
    {
      var i := datalen;
      data[i] := 0x80;
      i := i + 1;
      while i < n
        invariant datalen < i <= n
        invariant forall k :: 0 <= k < datalen ==> data[k] == old(data[k])
        invariant data[datalen] == 0x80 && forall k :: datalen < k < i ==> data[k] == 0
      {
        data[i] := 0;
        i := i + 1;
      }
    }

    /** The eight bytes of bitlen, highest first. */
    method StoreLength()
      requires data.Length == 64
      modifies data
      ensures data[..] == old(data[..56]) + BigEndian(bitlen, 8)
    {
      hide BigEndian, Shift, Low;
      ghost var length := BigEndian(bitlen, 8);
      forall i | 0 <= i < 8 ensures length[7 - i] == Low(Shift(bitlen, i)) { BigEndianAt(bitlen, 8, i); }
      data[63] := Low(Shift(bitlen, 0));
      data[62] := Low(Shift(bitlen, 1));
      data[61] := Low(Shift(bitlen, 2));
      data[60] := Low(Shift(bitlen, 3));
      data[59] := Low(Shift(bitlen, 4));
      data[58] := Low(Shift(bitlen, 5));
      data[57] := Low(Shift(bitlen, 6));
      data[56] := Low(Shift(bitlen, 7));
    }

    /** sha256_final(). */
    method Final() returns (hash: seq<Byte>)
      requires Valid() && 8 * |Message()| < ULL
      modifies this`bitlen, this`folded, data, state
      ensures hash == Hash(old(Message()))
    {
      hide Fold, Compress, BigEndian, Pad, Output;
      PadBuffer();
      bitlen := (bitlen + datalen * 8) % ULL;
      ghost var front := data[..56];
      StoreLength();
      assert folded + (front + BigEndian(bitlen, 8)) == folded + front + BigEndian(bitlen, 8);
      FoldAppend(folded, data[..]);
      Transform();
      hash := Serialize();
    }

    /** One turn of sha256_final's output loop, for the words from j to j + 3. */
    method PutColumn(out: array<Byte>, i: nat, j: nat)
      requires state.Length == 8 && out.Length == 32 && i < 4 && (j == 0 || j == 4)
      modifies out
      ensures forall n :: 0 <= n < 32 ==>
                out[n] == if n % 4 == i && j <= n / 4 < j + 4 then ByteOf(state[n / 4], i) else old(out[n])
    {
      hide ByteOf;
      out[i + 4 * j] := ByteOf(state[j], i);
      out[i + 4 * j + 4] := ByteOf(state[j + 1], i);
      out[i + 4 * j + 8] := ByteOf(state[j + 2], i);
      out[i + 4 * j + 12] := ByteOf(state[j + 3], i);
    }

    method Serialize() returns (hash: seq<Byte>)
      requires state.Length == 8
      ensures hash == Output(state[..])
    {
      hide ByteOf;
      var out := new Byte[32](_ => 0);
      for i := 0 to 4
        invariant fresh(out) && forall n :: 0 <= n < 32 && n % 4 < i ==> out[n] == ByteOf(state[n / 4], n % 4)
      {
        PutColumn(out, i, 0);
        PutColumn(out, i, 4);
      }
      hash := out[..];
    }
  }

  /** However a message is cut into pieces, hashing them one by one hashes the message. */
  method HashPieces(pieces: seq<seq<Byte>>) returns (hash: seq<Byte>)
    requires forall i :: 0 <= i < |pieces| ==> |pieces[i]| < 0x1_0000_0000
    requires 8 * |Concat(pieces)| < ULL
    ensures hash == Hash(Concat(pieces))
  {
    hide Fold, Hash;
    var ctx := new Context();
    for i := 0 to |pieces|
      invariant ctx.Valid() && fresh(ctx) && fresh(ctx.data) && fresh(ctx.state) && ctx.Message() == Concat(pieces[..i])
    {
      ctx.Update(pieces[i]);
      assert pieces[..i + 1][..i] == pieces[..i];
    }
    assert pieces[..|pieces|] == pieces;
    hash := ctx.Final();
  }
}
