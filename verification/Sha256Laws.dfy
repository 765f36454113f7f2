/**
  The constants, byte orders and rounds of Sha256, in the terms of sections 3.1, 4.2.2, 5.3.3
  and 6.2.2 of FIPS 180-4.
 */
module Sha256Laws {
  import opened Words
  import opened Sha256

  // ---------------------------------------------------------------------------------
  // Sections 4.2.2 and 5.3.3: the constants
  // ---------------------------------------------------------------------------------

  /** The first 64 primes. */
  const P0: seq<nat> := [2, 3, 5, 7, 11, 13, 17, 19]
  const P1: seq<nat> := [23, 29, 31, 37, 41, 43, 47, 53]
  const P2: seq<nat> := [59, 61, 67, 71, 73, 79, 83, 89]
  const P3: seq<nat> := [97, 101, 103, 107, 109, 113, 127, 131]
  const P4: seq<nat> := [137, 139, 149, 151, 157, 163, 167, 173]
  const P5: seq<nat> := [179, 181, 191, 193, 197, 199, 211, 223]
  const P6: seq<nat> := [227, 229, 233, 239, 241, 251, 257, 263]
  const P7: seq<nat> := [269, 271, 277, 281, 283, 293, 307, 311]
  const PRIMES: seq<nat> := P0 + P1 + P2 + P3 + P4 + P5 + P6 + P7

  /** The whole parts of their cube roots. */
  const W0: seq<nat> := [1, 1, 1, 1, 2, 2, 2, 2]
  const W1: seq<nat> := [2, 3, 3, 3, 3, 3, 3, 3]
  const W2: seq<nat> := [3, 3, 4, 4, 4, 4, 4, 4]
  const W3: seq<nat> := [4, 4, 4, 4, 4, 4, 5, 5]
  const W4: seq<nat> := [5, 5, 5, 5, 5, 5, 5, 5]
  const W5: seq<nat> := [5, 5, 5, 5, 5, 5, 5, 6]
  const W6: seq<nat> := [6, 6, 6, 6, 6, 6, 6, 6]
  const W7: seq<nat> := [6, 6, 6, 6, 6, 6, 6, 6]

  const TWO32: nat := 0x1_0000_0000

  function Square(x: int): int { x * x }
  function Cube(x: int): int { x * x * x }

  /** c and the fraction k / 2^32 are the cube root of p, cut off after 32 bits. */
  predicate CubeRoot(k: Word, p: nat, c: nat) {
    Cube(c * TWO32 + k as int) <= p * Cube(TWO32) < Cube(c * TWO32 + k as int + 1)
  }

  predicate SquareRoot(k: Word, p: nat, c: nat) {
    Square(c * TWO32 + k as int) <= p * Square(TWO32) < Square(c * TWO32 + k as int + 1)
  }

  predicate CubeRoots(ks: seq<Word>, ps: seq<nat>, cs: seq<nat>) {
    |ks| == |ps| == |cs| && forall i :: 0 <= i < |ks| ==> CubeRoot(ks[i], ps[i], cs[i])
  }
  predicate SquareRoots(ks: seq<Word>, ps: seq<nat>, cs: seq<nat>) {
    |ks| == |ps| == |cs| && forall i :: 0 <= i < |ks| ==> SquareRoot(ks[i], ps[i], cs[i])
  }

  lemma KeyRow0()
    ensures CubeRoots(K0, P0, W0)
  {
    assert CubeRoots(K0[..4], P0[..4], [1, 1, 1, 1]);
    assert CubeRoots(K0[4..], P0[4..], [2, 2, 2, 2]);
    hide CubeRoot;
  }

  lemma KeyRow1()
    ensures CubeRoots(K1, P1, W1)
  {
    assert CubeRoots(K1[..4], P1[..4], [2, 3, 3, 3]);
    assert CubeRoots(K1[4..], P1[4..], [3, 3, 3, 3]);
    hide CubeRoot;
  }

  lemma KeyRow2()
    ensures CubeRoots(K2, P2, W2)
  {
    assert CubeRoots(K2[..4], P2[..4], [3, 3, 4, 4]);
    assert CubeRoots(K2[4..], P2[4..], [4, 4, 4, 4]);
    hide CubeRoot;
  }

  lemma KeyRow3()
    ensures CubeRoots(K3, P3, W3)
  {
    assert CubeRoots(K3[..4], P3[..4], [4, 4, 4, 4]);
    assert CubeRoots(K3[4..], P3[4..], [4, 4, 5, 5]);
    hide CubeRoot;
  }

  lemma KeyRow4()
    ensures CubeRoots(K4, P4, W4)
  {
    assert CubeRoots(K4[..4], P4[..4], [5, 5, 5, 5]);
    assert CubeRoots(K4[4..], P4[4..], [5, 5, 5, 5]);
    hide CubeRoot;
  }

  lemma KeyRow5()
    ensures CubeRoots(K5, P5, W5)
  {
    assert CubeRoots(K5[..4], P5[..4], [5, 5, 5, 5]);
    assert CubeRoots(K5[4..], P5[4..], [5, 5, 5, 6]);
    hide CubeRoot;
  }

  lemma KeyRow6()
    ensures CubeRoots(K6, P6, W6)
  {
    assert CubeRoots(K6[..4], P6[..4], [6, 6, 6, 6]);
    assert CubeRoots(K6[4..], P6[4..], [6, 6, 6, 6]);
    hide CubeRoot;
  }

  lemma KeyRow7()
    ensures CubeRoots(K7, P7, W7)
  {
    assert CubeRoots(K7[..4], P7[..4], [6, 6, 6, 6]);
    assert CubeRoots(K7[4..], P7[4..], [6, 6, 6, 6]);
    hide CubeRoot;
  }

  lemma AppendRoots(ks: seq<Word>, ps: seq<nat>, cs: seq<nat>, ks': seq<Word>, ps': seq<nat>, cs': seq<nat>)
    requires CubeRoots(ks, ps, cs) && CubeRoots(ks', ps', cs')
    ensures CubeRoots(ks + ks', ps + ps', cs + cs')
  {
    hide CubeRoot;
  }

  /** Each K[t] is the first 32 bits of the fraction of the cube root of the t-th prime. */
  lemma KeysAreRoots() returns (whole: seq<nat>)
    ensures |K| == 64 && CubeRoots(K, PRIMES, whole)
  {
    hide CubeRoots;
    KeyRow0();
    var k, p, w := K0, P0, W0;
    KeyRow1();
    AppendRoots(k, p, w, K1, P1, W1);
    k, p, w := k + K1, p + P1, w + W1;
    KeyRow2();
    AppendRoots(k, p, w, K2, P2, W2);
    k, p, w := k + K2, p + P2, w + W2;
    KeyRow3();
    AppendRoots(k, p, w, K3, P3, W3);
    k, p, w := k + K3, p + P3, w + W3;
    KeyRow4();
    AppendRoots(k, p, w, K4, P4, W4);
    k, p, w := k + K4, p + P4, w + W4;
    KeyRow5();
    AppendRoots(k, p, w, K5, P5, W5);
    k, p, w := k + K5, p + P5, w + W5;
    KeyRow6();
    AppendRoots(k, p, w, K6, P6, W6);
    k, p, w := k + K6, p + P6, w + W6;
    KeyRow7();
    AppendRoots(k, p, w, K7, P7, W7);
    k, p, w := k + K7, p + P7, w + W7;
    whole := w;
  }

  /** And IV[t] of its square root. */
  lemma StartsAreRoots()
    ensures SquareRoots(IV, P0, [1, 1, 2, 2, 3, 3, 4, 4])
  {
    assert SquareRoots(IV[..4], P0[..4], [1, 1, 2, 2]);
    assert SquareRoots(IV[4..], P0[4..], [3, 3, 4, 4]);
    hide SquareRoot;
  }

  // ---------------------------------------------------------------------------------
  // Section 3.1: words and lengths as bytes, the highest first
  // ---------------------------------------------------------------------------------

  /** The number that the bytes stand for. */
  function Value(s: seq<Byte>): (n: nat) {
    if s == [] then 0 else Value(s[..|s| - 1]) * 256 + s[|s| - 1] as int
  }

  lemma JoinHigh(a: Byte, b: Byte, c: Byte)
    ensures (((a as Word) << 16) | ((b as Word) << 8) | (c as Word)) as int
         == (a as int * 256 + b as int) * 256 + c as int
  {}

  lemma JoinLow(high: Word, d: Byte)
    requires high < 0x1000000
    ensures ((high << 8) | (d as Word)) as int == high as int * 256 + d as int
  {}

  lemma JoinSplit(a: Byte, b: Byte, c: Byte, d: Byte)
    ensures var high := ((a as Word) << 16) | ((b as Word) << 8) | (c as Word);
            high < 0x1000000 && Join(a, b, c, d) == (high << 8) | (d as Word)
  {}

  lemma JoinValue(a: Byte, b: Byte, c: Byte, d: Byte)
    ensures Join(a, b, c, d) as int == ((a as int * 256 + b as int) * 256 + c as int) * 256 + d as int
  {
    hide Join;
    JoinSplit(a, b, c, d);
    JoinHigh(a, b, c);
    JoinLow(((a as Word) << 16) | ((b as Word) << 8) | (c as Word), d);
  }

  lemma JoinBytes(w: Word)
    ensures Join(ByteOf(w, 0), ByteOf(w, 1), ByteOf(w, 2), ByteOf(w, 3)) == w
  {}

  lemma WordValue(w: Word)
    ensures w as int == ((ByteOf(w, 0) as int * 256 + ByteOf(w, 1) as int) * 256 + ByteOf(w, 2) as int) * 256
                        + ByteOf(w, 3) as int
  {
    hide Join, ByteOf;
    JoinBytes(w);
    JoinValue(ByteOf(w, 0), ByteOf(w, 1), ByteOf(w, 2), ByteOf(w, 3));
  }

  lemma OutputAt(H: seq<Word>, i: nat)
    requires |H| == 8 && i < 8
    ensures forall j :: 0 <= j < 4 ==> Output(H)[4 * i + j] == ByteOf(H[i], j)
  {
    hide ByteOf;
  }

  /** The digest is the eight words of the hash value, each with its highest byte first. */
  lemma OutputWords(H: seq<Word>, i: nat)
    requires |H| == 8 && i < 8
    ensures var r := Output(H);
            H[i] as int == ((r[4 * i] as int * 256 + r[4 * i + 1] as int) * 256 + r[4 * i + 2] as int) * 256
                           + r[4 * i + 3] as int
  {
    hide Join, ByteOf;
    OutputAt(H, i);
    WordValue(H[i]);
  }

  function Pow256(k: nat): (r: nat) { if k == 0 then 1 else 256 * Pow256(k - 1) }

  lemma LowValue(n: nat)
    ensures Low(n) as int == n % 256
  {
    var b := ByteValue(n % 256);
  }

  /** The length field holds the length. */
  lemma {:induction false} LengthValue(n: nat, k: nat)
    requires n < Pow256(k)
    ensures |BigEndian(n, k)| == k && Value(BigEndian(n, k)) == n
  {
    hide Low;
    if k > 0 {
      var high := BigEndian(n / 256, k - 1);
      LengthValue(n / 256, k - 1);
      LowValue(n);
      assert BigEndian(n, k)[..k - 1] == high;
    }
  }

  /** Section 5.1.1: the message, a one bit, zeros and the length in bits. */
  lemma Padded(m: seq<Byte>)
    requires 8 * |m| < Pow256(8)
    ensures 8 * |m| < ULL && |m| + 9 <= |Pad(m)| < |m| + 73 && |Pad(m)| % 64 == 0
    ensures var p := Pad(m);
            && p[..|m|] == m && p[|m|] == 0x80
            && (forall i :: |m| < i < |p| - 8 ==> p[i] == 0)
            && Value(p[|p| - 8..]) == 8 * |m|
  {
    hide BigEndian, Value, Low;
    var p, length := Pad(m), BigEndian(8 * |m|, 8);
    LengthValue(8 * |m|, 8);
    assert p[|p| - 8..] == length;
    assert p[..|m|] == m;
  }

  // ---------------------------------------------------------------------------------
  // Section 6.2.2: the rounds
  // ---------------------------------------------------------------------------------

  /** The words of s, added modulo 2^32. */
  function Sum(s: seq<Word>): (r: Word) {
    if s == [] then 0 else if |s| == 1 then s[0] else Add(Sum(s[..|s| - 1]), s[|s| - 1])
  }

  lemma SumFour(a: Word, b: Word, c: Word, d: Word)
    ensures Sum([a, b, c, d]) == Add(Add(Add(a, b), c), d)
  {
    hide Add;
    assert [a, b][..1] == [a] && Sum([a, b]) == Add(a, b);
    assert [a, b, c][..2] == [a, b] && Sum([a, b, c]) == Add(Add(a, b), c);
    assert [a, b, c, d][..3] == [a, b, c];
  }

  lemma SumFive(a: Word, b: Word, c: Word, d: Word, e: Word)
    ensures Sum([a, b, c, d, e]) == Add(Add(Add(Add(a, b), c), d), e)
  {
    hide Add;
    assert [a, b, c, d, e][..4] == [a, b, c, d];
    SumFour(a, b, c, d);
  }

  /** Step 1: the first sixteen words are the block's, the rest follow from those before. */
  lemma ScheduleWords(block: seq<Byte>, t: nat)
    requires |block| == 64 && t < 64
    ensures t < 16 ==> Schedule(block, t) as int == Value(block[4 * t..4 * t + 4])
    ensures t >= 16 ==>
              Schedule(block, t) == Sum([Sig1(Schedule(block, t - 2)), Schedule(block, t - 7),
                                         Sig0(Schedule(block, t - 15)), Schedule(block, t - 16)])
  {
    hide Sig0, Sig1, Join, Add;
    ScheduleStep(block, t);
    if t >= 16 {
      SumFour(Sig1(Schedule(block, t - 2)), Schedule(block, t - 7), Sig0(Schedule(block, t - 15)),
              Schedule(block, t - 16));
    } else {
      JoinValue(block[4 * t], block[4 * t + 1], block[4 * t + 2], block[4 * t + 3]);
      FourBytes(block[4 * t..4 * t + 4]);
    }
  }

  lemma FourBytes(s: seq<Byte>)
    requires |s| == 4
    ensures Value(s) == ((s[0] as int * 256 + s[1] as int) * 256 + s[2] as int) * 256 + s[3] as int
  {
    assert s[..3][..2] == s[..2] && s[..2][..1] == s[..1] && s[..1][..0] == [];
    assert Value(s[..1]) == s[0] as int;
    assert Value(s[..2]) == s[0] as int * 256 + s[1] as int;
    assert Value(s[..3]) == (s[0] as int * 256 + s[1] as int) * 256 + s[2] as int;
  }

  /** A(n) and E(n) for n = t + 4: the two words that round t makes, after the four before round 0. */
  function A(H: seq<Word>, block: seq<Byte>, n: nat): (w: Word)
    requires |H| == 8 && |block| == 64 && n < 68
    decreases n, 1
  {
    if n < 4 then H[3 - n]
    else
      Add(First(H, block, n),
          Add(Ep0(A(H, block, n - 1)), Maj(A(H, block, n - 1), A(H, block, n - 2), A(H, block, n - 3))))
  }

  function E(H: seq<Word>, block: seq<Byte>, n: nat): (w: Word)
    requires |H| == 8 && |block| == 64 && n < 68
    decreases n, 1
  {
    if n < 4 then H[7 - n] else Add(A(H, block, n - 4), First(H, block, n))
  }

  function First(H: seq<Word>, block: seq<Byte>, n: nat): (w: Word)
    requires |H| == 8 && |block| == 64 && 4 <= n < 68
    decreases n, 0
  {
    Sum([E(H, block, n - 4), Ep1(E(H, block, n - 1)),
         Ch(E(H, block, n - 1), E(H, block, n - 2), E(H, block, n - 3)), K[n - 4], Schedule(block, n - 4)])
  }

  /** Steps 2 and 3: the eight variables are the last four A's and the last four E's. */
  lemma {:induction false} Registers(H: seq<Word>, block: seq<Byte>, t: nat)
    requires |H| == 8 && |block| == 64 && t <= 64
    ensures Rounds(H, block, t) ==
            Vars(A(H, block, t + 3), A(H, block, t + 2), A(H, block, t + 1), A(H, block, t),
                 E(H, block, t + 3), E(H, block, t + 2), E(H, block, t + 1), E(H, block, t))
  {
    if t > 0 {
      hide Ep0, Ep1, Ch, Maj, Add, Schedule, Sum;
      Registers(H, block, t - 1);
      var v := Rounds(H, block, t - 1);
      SumFive(v.h, Ep1(v.e), Ch(v.e, v.f, v.g), K[t - 1], Schedule(block, t - 1));
    }
  }

  /** Step 4. */
  lemma Compressed(H: seq<Word>, block: seq<Byte>)
    requires |H| == 8 && |block| == 64
    ensures Compress(H, block) ==
            [Add(H[0], A(H, block, 67)), Add(H[1], A(H, block, 66)), Add(H[2], A(H, block, 65)),
             Add(H[3], A(H, block, 64)), Add(H[4], E(H, block, 67)), Add(H[5], E(H, block, 66)),
             Add(H[6], E(H, block, 65)), Add(H[7], E(H, block, 64))]
  {
    hide Rounds, A, E, Add;
    Registers(H, block, 64);
  }

  /** The hash value starts at IV and takes up the blocks in order. */
  lemma Blocks(m: seq<Byte>, block: seq<Byte>)
    requires |m| % 64 == 0 && |block| == 64
    ensures Fold([]) == IV && Fold(m + block) == Compress(Fold(m), block)
  {
    FoldAppend(m, block);
  }
}
