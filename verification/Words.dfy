/**
  The macros of bootloader/sha256.c on 32-bit words, and what each does to every bit: the
  functions of section 4.1.2 of FIPS 180-4.
 */
module Words {

  type Word = bv32
  type Byte = bv8

  function Shr(x: Word, n: nat): (r: Word)
    requires n < 32
  {
    x >> n
  }

  function Rotr(x: Word, n: nat): (r: Word)
    requires 0 < n < 32
  {
    (x >> n) | (x << (32 - n))
  }

  function Ch(x: Word, y: Word, z: Word): (r: Word) { (x & y) ^ (!x & z) }
  function Maj(x: Word, y: Word, z: Word): (r: Word) { (x & y) ^ (x & z) ^ (y & z) }
  function Ep0(x: Word): (r: Word) { Rotr(x, 2) ^ Rotr(x, 13) ^ Rotr(x, 22) }
  function Ep1(x: Word): (r: Word) { Rotr(x, 6) ^ Rotr(x, 11) ^ Rotr(x, 25) }
  function Sig0(x: Word): (r: Word) { Rotr(x, 7) ^ Rotr(x, 18) ^ Shr(x, 3) }
  function Sig1(x: Word): (r: Word) { Rotr(x, 17) ^ Rotr(x, 19) ^ Shr(x, 10) }

  /** Addition modulo 2^32. */
  function Add(x: Word, y: Word): (r: Word) { x + y }

  lemma AddNext(x: Word, y: Word)
    ensures Add(x, 0) == x && Add(x, y + 1) == Add(x, y) + 1
  {}

  lemma NextByte(b: Byte)
    requires b != 255
    ensures (b + 1) as int == b as int + 1
  {}

  /** The byte whose value is x. */
  lemma {:induction false} ByteValue(x: nat) returns (b: Byte)
    requires x < 256
    ensures b as int == x && x as Byte == b
  {
    if x == 0 {
      b := 0;
    } else {
      var a := ByteValue(x - 1);
      NextByte(a);
      b := a + 1;
    }
  }

  /** Bit i, counted from the lowest; indices wrap at 32. */
  function Bit(x: Word, i: bv5): bool { (x >> i) & 1 == 1 }

  /** An odd number of the three. */
  predicate Odd(a: bool, b: bool, c: bool) { (a != b) != c }

  lemma XorBits(x: Word, y: Word, z: Word, i: bv5)
    ensures Bit(x ^ y ^ z, i) == Odd(Bit(x, i), Bit(y, i), Bit(z, i))
  {}

  /** Each bit of x chooses between y and z. */
  lemma ChBit(x: Word, y: Word, z: Word, i: bv5)
    ensures Bit(x, i) ==> Bit(Ch(x, y, z), i) == Bit(y, i)
    ensures !Bit(x, i) ==> Bit(Ch(x, y, z), i) == Bit(z, i)
  {}

  /** The value that at least two of the three have. */
  lemma MajBit(x: Word, y: Word, z: Word, i: bv5)
    ensures Bit(x, i) == Bit(y, i) ==> Bit(Maj(x, y, z), i) == Bit(x, i)
    ensures Bit(x, i) != Bit(y, i) ==> Bit(Maj(x, y, z), i) == Bit(z, i)
  {}

  lemma Rotr2(x: Word, i: bv5)
    ensures Bit(Rotr(x, 2), i) == Bit(x, i + 2)
  {}

  lemma Rotr6(x: Word, i: bv5)
    ensures Bit(Rotr(x, 6), i) == Bit(x, i + 6)
  {}

  lemma Rotr7(x: Word, i: bv5)
    ensures Bit(Rotr(x, 7), i) == Bit(x, i + 7)
  {}

  lemma Rotr11(x: Word, i: bv5)
    ensures Bit(Rotr(x, 11), i) == Bit(x, i + 11)
  {}

  lemma Rotr13(x: Word, i: bv5)
    ensures Bit(Rotr(x, 13), i) == Bit(x, i + 13)
  {}

  lemma Rotr17(x: Word, i: bv5)
    ensures Bit(Rotr(x, 17), i) == Bit(x, i + 17)
  {}

  lemma Rotr18(x: Word, i: bv5)
    ensures Bit(Rotr(x, 18), i) == Bit(x, i + 18)
  {}

  lemma Rotr19(x: Word, i: bv5)
    ensures Bit(Rotr(x, 19), i) == Bit(x, i + 19)
  {}

  lemma Rotr22(x: Word, i: bv5)
    ensures Bit(Rotr(x, 22), i) == Bit(x, i + 22)
  {}

  lemma Rotr25(x: Word, i: bv5)
    ensures Bit(Rotr(x, 25), i) == Bit(x, i + 25)
  {}

  lemma Shr3(x: Word, i: bv5)
    ensures Bit(Shr(x, 3), i) == (i < 29 && Bit(x, i + 3))
  {}

  lemma Shr10(x: Word, i: bv5)
    ensures Bit(Shr(x, 10), i) == (i < 22 && Bit(x, i + 10))
  {}

  lemma Ep0Bit(x: Word, i: bv5)
    ensures Bit(Ep0(x), i) == Odd(Bit(x, i + 2), Bit(x, i + 13), Bit(x, i + 22))
  {
    hide Bit, Rotr, Shr;
    Rotr2(x, i);
    Rotr13(x, i);
    Rotr22(x, i);
    XorBits(Rotr(x, 2), Rotr(x, 13), Rotr(x, 22), i);
  }

  lemma Ep1Bit(x: Word, i: bv5)
    ensures Bit(Ep1(x), i) == Odd(Bit(x, i + 6), Bit(x, i + 11), Bit(x, i + 25))
  {
    hide Bit, Rotr, Shr;
    Rotr6(x, i);
    Rotr11(x, i);
    Rotr25(x, i);
    XorBits(Rotr(x, 6), Rotr(x, 11), Rotr(x, 25), i);
  }

  lemma Sig0Bit(x: Word, i: bv5)
    ensures Bit(Sig0(x), i) == Odd(Bit(x, i + 7), Bit(x, i + 18), (i < 29 && Bit(x, i + 3)))
  {
    hide Bit, Rotr, Shr;
    Rotr7(x, i);
    Rotr18(x, i);
    Shr3(x, i);
    XorBits(Rotr(x, 7), Rotr(x, 18), Shr(x, 3), i);
  }

  lemma Sig1Bit(x: Word, i: bv5)
    ensures Bit(Sig1(x), i) == Odd(Bit(x, i + 17), Bit(x, i + 19), (i < 22 && Bit(x, i + 10)))
  {
    hide Bit, Rotr, Shr;
    Rotr17(x, i);
    Rotr19(x, i);
    Shr10(x, i);
    XorBits(Rotr(x, 17), Rotr(x, 19), Shr(x, 10), i);
  }
}
