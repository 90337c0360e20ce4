/** Published values and examples, against which the definitions of the standards are checked. */
module KnownAnswers {
  import opened Words
  import opened Status
  import opened Iteration
  import opened BigEndians
  import opened Sha256Spec
  import Crc32

  // ---- the check value of CRC-32

  const DIGITS: seq<byte> := [0x31, 0x32, 0x33, 0x34, 0x35, 0x36, 0x37, 0x38, 0x39]

  function Ascii(d: nat): byte
    requires d < 10
  {
    0x30 + d
  }

  function One(b: bool): nat { if b then 1 else 0 }

  /** The lowest bit of a number, and what is left of it. */
  lemma LowBit(x: nat, n: nat, b: bool, y: nat)
    requires Crc32.Half(x, n) == 2 * y + One(b)
    ensures Crc32.Odd(Crc32.Half(x, n)) == b && Crc32.Half(x, n + 1) == y
  {
  }

  lemma DigitLane(d: nat, b0: bool, b1: bool, b2: bool, b3: bool)
    requires d < 10 && d == One(b0) + 2 * One(b1) + 4 * One(b2) + 8 * One(b3)
    ensures Crc32.Lane(Ascii(d)) == Crc32.Octet(b0, b1, b2, b3, true, true, false, false)
  {
    var x := Ascii(d);
    assert Crc32.Half(x, 0) == x;
    hide Crc32.Half, Crc32.Octet, Crc32.Odd;
    LowBit(x, 0, b0, 24 + One(b1) + 2 * One(b2) + 4 * One(b3));
    LowBit(x, 1, b1, 12 + One(b2) + 2 * One(b3));
    LowBit(x, 2, b2, 6 + One(b3));
    LowBit(x, 3, b3, 3);
    LowBit(x, 4, true, 1);
    LowBit(x, 5, true, 0);
    LowBit(x, 6, false, 0);
    LowBit(x, 7, false, 0);
  }

  /** A digit, as the register takes it in. */
  predicate Widens(d: nat, w: bv32)
    requires d < 10
  {
    Crc32.Wide(Ascii(d)) == w
  }

  lemma DigitWidens(d: nat, b0: bool, b1: bool, b2: bool, b3: bool, w: bv32)
    requires d < 10 && d == One(b0) + 2 * One(b1) + 4 * One(b2) + 8 * One(b3)
    requires Crc32.Extend(Crc32.Octet(b0, b1, b2, b3, true, true, false, false)) == w
    ensures Widens(d, w)
  {
    hide Crc32.Lane, Crc32.Octet, Crc32.Extend;
    DigitLane(d, b0, b1, b2, b3);
    assert Crc32.Wide(Ascii(d)) == Crc32.Extend(Crc32.Lane(Ascii(d)));
  }

  lemma LowDigits()
    ensures Widens(1, 0x31) && Widens(2, 0x32) && Widens(3, 0x33) && Widens(4, 0x34)
  {
    hide Widens;
    DigitWidens(1, true, false, false, false, 0x31);
    DigitWidens(2, false, true, false, false, 0x32);
    DigitWidens(3, true, true, false, false, 0x33);
    DigitWidens(4, false, false, true, false, 0x34);
  }

  lemma HighDigits()
    ensures Widens(5, 0x35) && Widens(6, 0x36) && Widens(7, 0x37) && Widens(8, 0x38) && Widens(9, 0x39)
  {
    hide Widens;
    DigitWidens(5, true, false, true, false, 0x35);
    DigitWidens(6, false, true, true, false, 0x36);
    DigitWidens(7, true, true, true, false, 0x37);
    DigitWidens(8, false, false, false, true, 0x38);
    DigitWidens(9, true, false, false, true, 0x39);
  }

  lemma Shifts()
    ensures Crc32.ShiftByte(0xffffffff ^ 0x31) == 0x7c231048
    ensures Crc32.ShiftByte(0x7c231048 ^ 0x32) == 0xb0acbb32
    ensures Crc32.ShiftByte(0xb0acbb32 ^ 0x33) == 0x77b79c2d
    ensures Crc32.ShiftByte(0x77b79c2d ^ 0x34) == 0x641c1f5c
    ensures Crc32.ShiftByte(0x641c1f5c ^ 0x35) == 0x340ac5e3
    ensures Crc32.ShiftByte(0x340ac5e3 ^ 0x36) == 0xf68d2c9e
    ensures Crc32.ShiftByte(0xf68d2c9e ^ 0x37) == 0xaffc9660
    ensures Crc32.ShiftByte(0xaffc9660 ^ 0x38) == 0x651f2550
    ensures Crc32.ShiftByte(0x651f2550 ^ 0x39) == 0x340bc6d9
  {
  }

  /** The register after some bytes, and after one digit more. */
  lemma DigitFed(data: seq<byte>, c: bv32, d: nat, w: bv32, next: bv32)
    requires d < 10 && Widens(d, w) && Fold(Crc32.Feed, 0xffffffff, data) == c && Crc32.ShiftByte(c ^ w) == next
    ensures Fold(Crc32.Feed, 0xffffffff, data + [Ascii(d)]) == next
  {
    assert Crc32.Xor(c, w) == c ^ w;
    hide Crc32.ShiftByte, Crc32.Wide, Crc32.Xor;
    var longer := data + [Ascii(d)];
    assert longer[..|longer| - 1] == data && longer[|longer| - 1] == Ascii(d);
  }

  lemma DigitsFed()
    ensures Fold(Crc32.Feed, 0xffffffff, DIGITS) == 0x340bc6d9
  {
    hide Widens, Crc32.Feed, Crc32.ShiftByte, Fold;
    Shifts();
    LowDigits();
    HighDigits();
    NothingFed();
    DigitFed(DIGITS[..0], 0xffffffff, 1, 0x31, 0x7c231048);
    assert DIGITS[..0] + [Ascii(1)] == DIGITS[..1];
    DigitFed(DIGITS[..1], 0x7c231048, 2, 0x32, 0xb0acbb32);
    assert DIGITS[..1] + [Ascii(2)] == DIGITS[..2];
    DigitFed(DIGITS[..2], 0xb0acbb32, 3, 0x33, 0x77b79c2d);
    assert DIGITS[..2] + [Ascii(3)] == DIGITS[..3];
    DigitFed(DIGITS[..3], 0x77b79c2d, 4, 0x34, 0x641c1f5c);
    assert DIGITS[..3] + [Ascii(4)] == DIGITS[..4];
    DigitFed(DIGITS[..4], 0x641c1f5c, 5, 0x35, 0x340ac5e3);
    assert DIGITS[..4] + [Ascii(5)] == DIGITS[..5];
    DigitFed(DIGITS[..5], 0x340ac5e3, 6, 0x36, 0xf68d2c9e);
    assert DIGITS[..5] + [Ascii(6)] == DIGITS[..6];
    DigitFed(DIGITS[..6], 0xf68d2c9e, 7, 0x37, 0xaffc9660);
    assert DIGITS[..6] + [Ascii(7)] == DIGITS[..7];
    DigitFed(DIGITS[..7], 0xaffc9660, 8, 0x38, 0x651f2550);
    assert DIGITS[..7] + [Ascii(8)] == DIGITS[..8];
    DigitFed(DIGITS[..8], 0x651f2550, 9, 0x39, 0x340bc6d9);
    assert DIGITS[..8] + [Ascii(9)] == DIGITS[..9];
    assert DIGITS[..9] == DIGITS;
  }

  lemma NothingFed()
    ensures Fold(Crc32.Feed, 0xffffffff, DIGITS[..0]) == 0xffffffff
  {
    hide Crc32.Feed;
  }

  /** The published check value: the checksum of the digits from one to nine. */
  lemma CrcCheck()
    ensures Crc32.Checksum(DIGITS) == 0xcbf43926
  {
    hide Crc32.Feed, Fold;
    DigitsFed();
    assert Crc32.Crc(DIGITS) == 0xcbf43926;
    hide Crc32.Crc;
  }

  // ---- the constants of SHA-256 (sections 4.2.2 and 5.3.3 of FIPS 180-4)

  /** The first 64 primes. */
  function Prime(t: nat): nat
    requires t < 64
  {
    var p: seq<seq<nat>> := [
      [2, 3, 5, 7, 11, 13, 17, 19], [23, 29, 31, 37, 41, 43, 47, 53],
      [59, 61, 67, 71, 73, 79, 83, 89], [97, 101, 103, 107, 109, 113, 127, 131],
      [137, 139, 149, 151, 157, 163, 167, 173], [179, 181, 191, 193, 197, 199, 211, 223],
      [227, 229, 233, 239, 241, 251, 257, 263], [269, 271, 277, 281, 283, 293, 307, 311]];
    p[t / 8][t % 8]
  }

  /** The whole part of a cube root. */
  function CubeRoot(p: nat): nat {
    if p < 8 then 1 else if p < 27 then 2 else if p < 64 then 3 else if p < 125 then 4 else if p < 216 then 5 else 6
  }

  /** The word holds the first 32 bits of the fraction of a root with this whole part. */
  predicate OfCubeRoot(k: nat, p: nat, whole: nat) {
    var r := 0x1_0000_0000 * whole + k;
    r * r * r <= p * 0x1_0000_0000_0000_0000_0000_0000 < (r + 1) * (r + 1) * (r + 1)
  }

  predicate OfSquareRoot(k: nat, p: nat, whole: nat) {
    var r := 0x1_0000_0000 * whole + k;
    r * r <= p * 0x1_0000_0000_0000_0000 < (r + 1) * (r + 1)
  }

  predicate RoundConstant(t: nat)
    requires t < 64
  {
    OfCubeRoot(Constant(t) as int, Prime(t), CubeRoot(Prime(t)))
  }

  lemma Row0()
    ensures RoundConstant(0) && RoundConstant(1) && RoundConstant(2) && RoundConstant(3)
    ensures RoundConstant(4) && RoundConstant(5) && RoundConstant(6) && RoundConstant(7)
  {
  }

  lemma Row1()
    ensures RoundConstant(8) && RoundConstant(9) && RoundConstant(10) && RoundConstant(11)
    ensures RoundConstant(12) && RoundConstant(13) && RoundConstant(14) && RoundConstant(15)
  {
  }

  lemma Row2()
    ensures RoundConstant(16) && RoundConstant(17) && RoundConstant(18) && RoundConstant(19)
    ensures RoundConstant(20) && RoundConstant(21) && RoundConstant(22) && RoundConstant(23)
  {
  }

  lemma Row3()
    ensures RoundConstant(24) && RoundConstant(25) && RoundConstant(26) && RoundConstant(27)
    ensures RoundConstant(28) && RoundConstant(29) && RoundConstant(30) && RoundConstant(31)
  {
  }

  lemma Row4()
    ensures RoundConstant(32) && RoundConstant(33) && RoundConstant(34) && RoundConstant(35)
    ensures RoundConstant(36) && RoundConstant(37) && RoundConstant(38) && RoundConstant(39)
  {
  }

  lemma Row5()
    ensures RoundConstant(40) && RoundConstant(41) && RoundConstant(42) && RoundConstant(43)
    ensures RoundConstant(44) && RoundConstant(45) && RoundConstant(46) && RoundConstant(47)
  {
  }

  lemma Row6()
    ensures RoundConstant(48) && RoundConstant(49) && RoundConstant(50) && RoundConstant(51)
    ensures RoundConstant(52) && RoundConstant(53) && RoundConstant(54) && RoundConstant(55)
  {
  }

  lemma Row7()
    ensures RoundConstant(56) && RoundConstant(57) && RoundConstant(58) && RoundConstant(59)
  {
  }

  lemma Row8()
    ensures RoundConstant(60) && RoundConstant(61) && RoundConstant(62) && RoundConstant(63)
  {
  }

  /** Each round constant holds the first 32 bits of the fraction of the cube root of its prime. */
  lemma RoundConstants(t: nat)
    requires t < 64
    ensures RoundConstant(t)
  {
    if t < 8 {
      Row0();
    } else if t < 16 {
      Row1();
    } else if t < 24 {
      Row2();
    } else if t < 32 {
      Row3();
    } else if t < 40 {
      Row4();
    } else if t < 48 {
      Row5();
    } else if t < 56 {
      Row6();
    } else {
      Row7();
      Row8();
    }
    hide RoundConstant;
  }

  /** The initial words hold those of the square roots of the first eight primes. */
  lemma InitialWords()
    ensures OfSquareRoot(INITIAL.a as int, 2, 1) && OfSquareRoot(INITIAL.b as int, 3, 1)
    ensures OfSquareRoot(INITIAL.c as int, 5, 2) && OfSquareRoot(INITIAL.d as int, 7, 2)
    ensures OfSquareRoot(INITIAL.e as int, 11, 3) && OfSquareRoot(INITIAL.f as int, 13, 3)
    ensures OfSquareRoot(INITIAL.g as int, 17, 4) && OfSquareRoot(INITIAL.h as int, 19, 4)
  {
  }

  // ---- the example "abc" (SHA-256 examples of FIPS 180-4)

  lemma FirstRound()
    ensures Round(INITIAL, Constant(0), 0x61626380) ==
            State(0x5d6aebcd, 0x6a09e667, 0xbb67ae85, 0x3c6ef372, 0xfa2a4622, 0x510e527f, 0x9b05688c, 0x1f83d9ab)
  {
  }

  lemma LastRound()
    ensures Round(State(0xd39a2165, 0x04d24d6c, 0xb85e2ce9, 0xb6ae8fff, 0xfb121210, 0x948d25b6, 0x961f4894, 0xb21bad3d),
                  Constant(63), 0x12b1edeb) ==
            State(0x506e3058, 0xd39a2165, 0x04d24d6c, 0xb85e2ce9, 0x5ef50f24, 0xfb121210, 0x948d25b6, 0x961f4894)
  {
  }

  lemma SomeWords()
    ensures Expanded(0x702138a4, 0xb73679a2, 0x000f0000, 0x61626380) == 0x93f5997f
    ensures Expanded(0x668b2ff8, 0xef57b9cd, 0xfb3e89cb, 0x065c43da) == 0x12b1edeb
  {
  }

  /** The compression is sixty-four rounds, the last with the last constant and the last word, and an addition. */
  lemma SixtyFourRounds(s: State, block: seq<byte>)
    requires |block| == 64
    ensures Rounds(s, block, 0) == s
    ensures Compress(s, block) == Added(s, Round(Rounds(s, block, 63), 0xc67178f2, Schedule(block, 63)))
  {
    hide Round, Schedule, Added;
  }

  lemma FinalAddition()
    ensures Added(INITIAL, State(0x506e3058, 0xd39a2165, 0x04d24d6c, 0xb85e2ce9,
                                 0x5ef50f24, 0xfb121210, 0x948d25b6, 0x961f4894)) ==
            State(0xba7816bf, 0x8f01cfea, 0x414140de, 0x5dae2223, 0xb00361a3, 0x96177a9c, 0xb410ff61, 0xf20015ad)
  {
  }

  lemma BackAgain(x: bv32)
    ensures (x as int) as bv32 == x
  {
  }

  lemma FirstWord()
    ensures BigWord(0x61, 0x62, 0x63, 0x80) == 0x61626380
  {
    var x: bv32 := 0x61626380;
    WordIs(0x61, 0x62, 0x63, 0x80, x as int);
    BackAgain(x);
    hide BigWord;
  }

  lemma WordIs(b0: byte, b1: byte, b2: byte, b3: byte, w: u32)
    requires WordOf(b3, b2, b1, b0) == w
    ensures BigWord(b0, b1, b2, b3) == w as bv32
  {
    hide WordOf;
  }

  lemma FirstBytes()
    ensures WordBytes(0xba7816bf) == [0xba, 0x78, 0x16, 0xbf]
  {
    assert ByteOf(0xba7816bf, 3) == 0xba && ByteOf(0xba7816bf, 2) == 0x78;
    assert ByteOf(0xba7816bf, 1) == 0x16 && ByteOf(0xba7816bf, 0) == 0xbf;
    hide ByteOf;
  }

  lemma PaddedBlock()
    ensures Padding(3) == [0x80] + Zeros(59) + [0x18]
  {
    assert Gap(3) == 52 && BitLen(3) == 0x18;
    assert BigEndian(0x18, 8) == Zeros(7) + [0x18] by {
      BigEndianOf(0x18);
    }
    hide BigEndian, Gap, BitLen;
    assert Zeros(52) + Zeros(7) == Zeros(59);
  }

  lemma {:induction false} BigEndianZero(n: nat)
    ensures BigEndian(0, n) == Zeros(n)
  {
    if n > 0 {
      BigEndianZero(n - 1);
      assert Zeros(n) == Zeros(n - 1) + [0];
    }
  }

  lemma BigEndianLast(v: nat, n: nat)
    requires n > 0
    ensures BigEndian(v, n) == BigEndian(v / 0x100, n - 1) + [v % 0x100]
  {
  }

  lemma BigEndianOf(x: byte)
    ensures BigEndian(x, 8) == Zeros(7) + [x]
  {
    hide BigEndian, Zeros;
    BigEndianLast(x, 8);
    BigEndianZero(7);
  }

  // ---- HMAC (section 2 of RFC 2104)

  /** The byte of the key at this place, or zero past its end. */
  function KeyByte(key: seq<byte>, i: nat): byte {
    if i < |key| then key[i] else 0
  }

  /** With a key of at most 64 bytes: an inner hash under bytes of 0x36 and an outer hash under bytes of 0x5c. */
  lemma HmacPads(key: seq<byte>, text: seq<byte>, inner: seq<byte>, outer: seq<byte>)
    requires |key| <= 64 && |inner| == |outer| == 64
    requires forall i :: 0 <= i < 64 ==> inner[i] == ((KeyByte(key, i) as bv8) ^ 0x36) as int
    requires forall i :: 0 <= i < 64 ==> outer[i] == ((KeyByte(key, i) as bv8) ^ 0x5c) as int
    ensures Hmac(key, text) == Hash(outer + Hash(inner + text))
  {
    hide Hash;
    forall i | 0 <= i < 64
      ensures KeyBlock(key)[i] == KeyByte(key, i)
      ensures XorByte(KeyByte(key, i), 0x36) == inner[i] && XorByte(KeyByte(key, i), 0x5c) == outer[i]
    {
    }
    hide XorByte;
    assert Masked(KeyBlock(key), 0x36) == inner && Masked(KeyBlock(key), 0x5c) == outer;
  }

  /** A longer key stands for its hash. */
  lemma HmacLongKey(key: seq<byte>, text: seq<byte>)
    requires |key| > 64
    ensures Hmac(key, text) == Hmac(Hash(key), text)
  {
    hide Hash, Masked;
  }
}
