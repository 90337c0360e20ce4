/** SHA-256 and HMAC as definitions over whole messages (FIPS 180-4, RFC 2104). */
module Sha256Spec {
  import opened Words
  import opened BigEndians

  datatype State = State(a: bv32, b: bv32, c: bv32, d: bv32, e: bv32, f: bv32, g: bv32, h: bv32)

  // ---- the compression function (section 6.2.2 of FIPS 180-4)

  /** Addition of words wraps around. */
  function Plus(x: bv32, y: bv32): bv32 { x + y }

  function SmallSigma0(x: bv32): bv32 { ((x >> 7) | (x << 25)) ^ ((x >> 18) | (x << 14)) ^ (x >> 3) }

  function SmallSigma1(x: bv32): bv32 { ((x >> 17) | (x << 15)) ^ ((x >> 19) | (x << 13)) ^ (x >> 10) }

  function BigSigma0(x: bv32): bv32 { ((x >> 2) | (x << 30)) ^ ((x >> 13) | (x << 19)) ^ ((x >> 22) | (x << 10)) }

  function BigSigma1(x: bv32): bv32 { ((x >> 6) | (x << 26)) ^ ((x >> 11) | (x << 21)) ^ ((x >> 25) | (x << 7)) }

  function Ch(x: bv32, y: bv32, z: bv32): bv32 { (x & y) ^ (!x & z) }

  function Maj(x: bv32, y: bv32, z: bv32): bv32 { (x & y) ^ (x & z) ^ (y & z) }

  function Constant(t: nat): bv32
    requires t < 64
  {
    var k: seq<seq<bv32>> := [
      [0x428a2f98, 0x71374491, 0xb5c0fbcf, 0xe9b5dba5, 0x3956c25b, 0x59f111f1, 0x923f82a4, 0xab1c5ed5],
      [0xd807aa98, 0x12835b01, 0x243185be, 0x550c7dc3, 0x72be5d74, 0x80deb1fe, 0x9bdc06a7, 0xc19bf174],
      [0xe49b69c1, 0xefbe4786, 0x0fc19dc6, 0x240ca1cc, 0x2de92c6f, 0x4a7484aa, 0x5cb0a9dc, 0x76f988da],
      [0x983e5152, 0xa831c66d, 0xb00327c8, 0xbf597fc7, 0xc6e00bf3, 0xd5a79147, 0x06ca6351, 0x14292967],
      [0x27b70a85, 0x2e1b2138, 0x4d2c6dfc, 0x53380d13, 0x650a7354, 0x766a0abb, 0x81c2c92e, 0x92722c85],
      [0xa2bfe8a1, 0xa81a664b, 0xc24b8b70, 0xc76c51a3, 0xd192e819, 0xd6990624, 0xf40e3585, 0x106aa070],
      [0x19a4c116, 0x1e376c08, 0x2748774c, 0x34b0bcb5, 0x391c0cb3, 0x4ed8aa4a, 0x5b9cca4f, 0x682e6ff3],
      [0x748f82ee, 0x78a5636f, 0x84c87814, 0x8cc70208, 0x90befffa, 0xa4506ceb, 0xbef9a3f7, 0xc67178f2]];
    k[t / 8][t % 8]
  }

  /** A word from its bytes, most significant first. */
  function BigWord(b0: byte, b1: byte, b2: byte, b3: byte): bv32 {
    WordOf(b3, b2, b1, b0) as bv32
  }

  /** The message schedule. */
  function Schedule(block: seq<byte>, t: nat): bv32
    requires |block| == 64
    decreases t
  {
    if t < 16 then BigWord(block[4 * t], block[4 * t + 1], block[4 * t + 2], block[4 * t + 3])
    else Expanded(Schedule(block, t - 2), Schedule(block, t - 7), Schedule(block, t - 15), Schedule(block, t - 16))
  }

  function Expanded(w2: bv32, w7: bv32, w15: bv32, w16: bv32): bv32 {
    Plus(Plus(Plus(w16, SmallSigma0(w15)), w7), SmallSigma1(w2))
  }

  function Round(s: State, k: bv32, w: bv32): State {
    var t1 := Plus(Plus(Plus(Plus(s.h, BigSigma1(s.e)), Ch(s.e, s.f, s.g)), k), w);
    var t2 := Plus(BigSigma0(s.a), Maj(s.a, s.b, s.c));
    State(Plus(t1, t2), s.a, s.b, s.c, Plus(s.d, t1), s.e, s.f, s.g)
  }

  function Rounds(s: State, block: seq<byte>, t: nat): State
    requires |block| == 64 && t <= 64
    decreases t
  {
    if t == 0 then s else Round(Rounds(s, block, t - 1), Constant(t - 1), Schedule(block, t - 1))
  }

  function Added(s: State, u: State): State {
    State(Plus(s.a, u.a), Plus(s.b, u.b), Plus(s.c, u.c), Plus(s.d, u.d),
          Plus(s.e, u.e), Plus(s.f, u.f), Plus(s.g, u.g), Plus(s.h, u.h))
  }

  function Compress(s: State, block: seq<byte>): State
    requires |block| == 64
  {
    Added(s, Rounds(s, block, 64))
  }

  // ---- padding, hash and HMAC

  const INITIAL := State(0x6a09e667, 0xbb67ae85, 0x3c6ef372, 0xa54ff53a, 0x510e527f, 0x9b05688c, 0x1f83d9ab, 0x5be0cd19)

  /** The fold of the compression over the blocks of a message. */
  function Digest(s: State, m: seq<byte>): State
    decreases |m|
  {
    if |m| < 64 then s else Digest(Compress(s, m[..64]), m[64..])
  }

  function Zeros(n: nat): (z: seq<byte>)
    ensures |z| == n
  {
    seq(n, _ => 0)
  }

  /** How many zero bytes bring the length to 56 modulo 64. */
  function Gap(n: nat): nat {
    (55 - n) % 64
  }

  /** The length in bits, as the 64-bit counter holds it. */
  function BitLen(n: nat): u64 {
    8 * n % 0x1_0000_0000_0000_0000
  }

  function Padding(n: nat): seq<byte> {
    [0x80] + Zeros(Gap(n)) + BigEndian(BitLen(n), 8)
  }

  /** The padding of section 5.1.1 of FIPS 180-4 fills whole blocks, with fewer than 64 zeros. */
  lemma PaddingFills(n: nat)
    ensures (n + |Padding(n)|) % 64 == 0 && 9 <= |Padding(n)| < 73
  {
    hide BigEndian, BitLen;
    var g := (55 - n) % 64;
    assert |Padding(n)| == g + 9;
    assert (n + g) % 64 == 55;
  }

  /** It ends in the length in bits, for every message that the standard admits. */
  lemma PaddingTellsLength(n: nat)
    requires n < 0x2000_0000_0000_0000
    ensures |Padding(n)| >= 8 && ValueOf(Padding(n)[|Padding(n)| - 8..]) == 8 * n
  {
    Powers();
    ValueOfBigEndian(BitLen(n), 8);
    hide BigEndian, ValueOf, Gap;
    assert Padding(n)[|Padding(n)| - 8..] == BigEndian(BitLen(n), 8);
  }

  function WordBytes(x: bv32): (b: seq<byte>)
    ensures |b| == 4
  {
    var w := x as int;
    [ByteOf(w, 3), ByteOf(w, 2), ByteOf(w, 1), ByteOf(w, 0)]
  }

  function Output(s: State): (h: seq<byte>)
    ensures |h| == 32
  {
    WordBytes(s.a) + WordBytes(s.b) + WordBytes(s.c) + WordBytes(s.d)
    + WordBytes(s.e) + WordBytes(s.f) + WordBytes(s.g) + WordBytes(s.h)
  }

  function Hash(m: seq<byte>): (h: seq<byte>)
    ensures |h| == 32
  {
    Output(Digest(INITIAL, m + Padding(|m|)))
  }

  function XorByte(a: byte, b: byte): byte {
    ((a as bv8) ^ (b as bv8)) as int
  }

  function Masked(key: seq<byte>, mask: byte): (b: seq<byte>)
    requires |key| == 64
    ensures |b| == 64
  {
    seq(64, i requires 0 <= i < 64 => XorByte(key[i], mask))
  }

  /** The key as one block: hashed when it is too long, then filled up with zeros. */
  function KeyBlock(key: seq<byte>): (k: seq<byte>)
    ensures |k| == 64
  {
    if |key| > 64 then Hash(key) + Zeros(32) else key + Zeros(64 - |key|)
  }

  function Hmac(key: seq<byte>, text: seq<byte>): seq<byte> {
    var k := KeyBlock(key);
    Hash(Masked(k, 0x5c) + Hash(Masked(k, 0x36) + text))
  }

  /** One more block at the end is one more compression. */
  lemma {:induction false} DigestThen(s: State, m: seq<byte>, block: seq<byte>)
    requires |m| % 64 == 0 && |block| == 64
    ensures Digest(s, m + block) == Compress(Digest(s, m), block)
    decreases |m|
  {
    hide Compress;
    if m == [] {
      assert m + block == block;
      assert block[..64] == block && block[64..] == [];
    } else {
      assert (m + block)[..64] == m[..64];
      assert (m + block)[64..] == m[64..] + block;
      DigestThen(Compress(s, m[..64]), m[64..], block);
    }
  }
}

/** The streaming context, as the bundle verifier uses it. */
module Sha256 {
  import opened Words
  import opened BigEndians
  import opened Sha256Spec

  lemma RoundsStart(s: State, block: seq<byte>)
    requires |block| == 64
    ensures Rounds(s, block, 0) == s
  {
  }

  lemma RoundsStep(s: State, block: seq<byte>, t: nat)
    requires |block| == 64 && t < 64
    ensures Rounds(s, block, t + 1) == Round(Rounds(s, block, t), Constant(t), Schedule(block, t))
  {
    hide Round, Constant, Schedule;
  }

  lemma ScheduleStep(block: seq<byte>, t: nat)
    requires |block| == 64
    ensures t < 16 ==> Schedule(block, t) == BigWord(block[4 * t], block[4 * t + 1], block[4 * t + 2], block[4 * t + 3])
    ensures t >= 16 ==>
              Schedule(block, t) ==
              Expanded(Schedule(block, t - 2), Schedule(block, t - 7), Schedule(block, t - 15), Schedule(block, t - 16))
  {
    hide BigWord, Expanded;
  }

  /** `sha256_transform`. */
  method Transform(s: State, block: seq<byte>) returns (r: State)
    requires |block| == 64
    ensures r == Compress(s, block)
  {
    var m := Expand(block);
    hide Schedule, Rounds, Round, Constant, Added;
    RoundsStart(s, block);
    var t := s;
    for i := 0 to 64
      invariant forall k :: 0 <= k < 64 ==> m[k] == Schedule(block, k)
      invariant t == Rounds(s, block, i)
    {
      RoundsStep(s, block, i);
      t := OneRound(t, Constant(i), m[i]);
    }
    r := Added(s, t);
  }

  /** The message schedule, in an array of 64 words. */
  method Expand(block: seq<byte>) returns (m: array<bv32>)
    requires |block| == 64
    ensures m.Length == 64 && forall t :: 0 <= t < 64 ==> m[t] == Schedule(block, t)
  {
    hide BigWord, Schedule, SmallSigma0, SmallSigma1, Plus;
    m := new bv32[64](_ => 0);
    for i := 0 to 16
      invariant forall k :: 0 <= k < i ==> m[k] == Schedule(block, k)
    {
      ScheduleStep(block, i);
      m[i] := BigWord(block[4 * i], block[4 * i + 1], block[4 * i + 2], block[4 * i + 3]);
    }
    for i := 16 to 64
      invariant forall k :: 0 <= k < i ==> m[k] == Schedule(block, k)
    {
      ScheduleStep(block, i);
      m[i] := Plus(Plus(Plus(m[i - 16], SmallSigma0(m[i - 15])), m[i - 7]), SmallSigma1(m[i - 2]));
    }
  }

  /** The body of the round loop, on the eight working variables. */
  method OneRound(s: State, k: bv32, w: bv32) returns (r: State)
    ensures r == Round(s, k, w)
  {
    hide BigSigma0, BigSigma1, Ch, Maj, Plus;
    var State(a, b, c, d, e, f, g, h) := s;
    var temp1 := Plus(Plus(Plus(Plus(h, BigSigma1(e)), Ch(e, f, g)), k), w);
    var temp2 := Plus(BigSigma0(a), Maj(a, b, c));
    h := g;
    g := f;
    f := e;
    e := Plus(d, temp1);
    d := c;
    c := b;
    b := a;
    a := Plus(temp1, temp2);
    r := State(a, b, c, d, e, f, g, h);
  }

  /** The part of a message that fills whole blocks. */
  function Whole(m: seq<byte>): (w: seq<byte>)
    ensures |w| % 64 == 0
  {
    m[..|m| - |m| % 64]
  }

  class Context {
    const data: array<byte>
    var datalen: nat
    var bitlen: u64
    var state: State

    /** What the context holds after taking in `m`. */
    ghost predicate Absorbed(m: seq<byte>)
      reads this, data
    {
      && data.Length == 64
      && datalen == |m| % 64
      && data[..datalen] == m[|m| - datalen..]
      && bitlen == BitLen(|m| - datalen)
      && state == Digest(INITIAL, Whole(m))
    }

    constructor ()
      ensures Absorbed([]) && fresh(data)
    {
      hide Digest, Whole, BitLen;
      EmptyDigest();
      data := new byte[64](_ => 0);
      datalen, bitlen, state := 0, 0, INITIAL;
    }

    /** `sha256_update`. */
    method Update(bytes: seq<byte>, ghost m: seq<byte>)
      requires Absorbed(m)
      modifies `datalen, `bitlen, `state, data
      ensures Absorbed(m + bytes)
    {
      hide Digest, Compress;
      assert m + bytes[..0] == m;
      for i := 0 to |bytes|
        invariant Absorbed(m + bytes[..i])
      {
        assert m + bytes[..i + 1] == m + bytes[..i] + [bytes[i]];
        Take(bytes[i], m + bytes[..i]);
      }
      assert bytes[..|bytes|] == bytes;
    }

    method Take(b: byte, ghost m: seq<byte>)
      requires Absorbed(m)
      modifies `datalen, `bitlen, `state, data
      ensures Absorbed(m + [b])
    {
      hide Digest, Compress, BitLen;
      data[datalen] := b;
      datalen := datalen + 1;
      if datalen == 64 {
        assert data[..] == (m + [b])[|m| - 63..];
        BlockDone(m, b, data[..]);
        BitLenSum(|m| + 1, 64);
        state := Transform(state, data[..]);
        bitlen := (bitlen + 512) % 0x1_0000_0000_0000_0000;
        datalen := 0;
      } else {
        BlockOpen(m, b);
      }
    }

    /** `sha256_final`. */
    method Final(ghost m: seq<byte>) returns (hash: seq<byte>)
      requires Absorbed(m)
      modifies `datalen, `bitlen, `state, data
      ensures hash == Hash(m)
    {
      hide Digest, Compress, Output, Padding, BitLen, Whole, BigEndian, Zeros;
      ghost var r := datalen;
      ghost var rest := m[|m| - r..];
      data[datalen] := 0x80;
      if datalen < 56 {
        ZeroRange(data, datalen + 1, 56);
      } else {
        ZeroRange(data, datalen + 1, 64);
        assert data[..] == rest + [0x80] + Zeros(63 - r);
        state := Transform(state, data[..]);
        ZeroRange(data, 0, 56);
        assert data[..56] == Zeros(56);
      }
      BitLenSum(|m|, r);
      bitlen := (bitlen + datalen * 8) % 0x1_0000_0000_0000_0000;
      PutLength(data, bitlen);
      assert data[..] == data[..56] + BigEndian(BitLen(|m|), 8);
      if r < 56 {
        assert data[..56] == rest + [0x80] + Zeros(55 - r);
        FinalShort(m, r, data[..]);
      } else {
        FinalLong(m, r, data[..]);
      }
      state := Transform(state, data[..]);
      hash := Output(state);
    }
  }

  method ZeroRange(data: array<byte>, from: nat, to: nat)
    requires from <= to <= data.Length
    modifies data
    ensures data[..] == old(data[..from]) + Zeros(to - from) + old(data[to..])
  {
    var i := from;
    while i < to
      invariant from <= i <= to
      invariant forall k :: 0 <= k < from || i <= k < data.Length ==> data[k] == old(data[k])
      invariant forall k :: from <= k < i ==> data[k] == 0
    {
      data[i] := 0;
      i := i + 1;
    }
  }

  /** The bit count in the last eight bytes, most significant first. */
  method PutLength(data: array<byte>, bitlen: u64)
    requires data.Length == 64
    modifies data
    ensures data[..56] == old(data[..56]) && data[56..] == BigEndian(bitlen, 8)
  {
    hide BigEndian, Shifted;
    ghost var bs := BigEndian(bitlen, 8);
    for k := 0 to 8
      invariant data[..56] == old(data[..56])
      invariant forall i :: 64 - k <= i < 64 ==> data[i] == bs[i - 56]
    {
      BigEndianAt(bitlen, 8, 7 - k);
      data[63 - k] := Shifted(bitlen, k) % 0x100;
    }
    assert data[56..] == bs;
  }

  lemma BitLenSum(n: nat, r: nat)
    requires r <= n
    ensures BitLen(n) == (BitLen(n - r) + r * 8) % 0x1_0000_0000_0000_0000
  {
  }

  lemma WholeAndRest(m: seq<byte>)
    ensures m == Whole(m) + m[|m| - |m| % 64..]
  {
  }

  lemma GapOf(n: nat)
    ensures Gap(n) == if n % 64 < 56 then 55 - n % 64 else 119 - n % 64
  {
  }

  lemma ZerosSplit(x: nat, y: nat)
    ensures Zeros(x + y) == Zeros(x) + Zeros(y)
  {
  }

  lemma RegroupedOnce(w: seq<byte>, rest: seq<byte>, one: seq<byte>, a: seq<byte>, len: seq<byte>)
    ensures (w + rest) + (one + a + len) == w + (rest + one + a + len)
  {
  }

  lemma Regrouped(w: seq<byte>, rest: seq<byte>, one: seq<byte>, a: seq<byte>, b: seq<byte>, len: seq<byte>)
    ensures (w + rest) + (one + (a + b) + len) == (w + (rest + one + a)) + (b + len)
  {
  }

  lemma PaddingShort(n: nat, r: nat)
    requires r == n % 64 && r < 56
    ensures Padding(n) == [0x80] + Zeros(55 - r) + BigEndian(BitLen(n), 8)
  {
    GapOf(n);
    hide Gap, BitLen, BigEndian, Zeros;
  }

  /** Room for marker and length: one last block. */
  lemma FinalShort(m: seq<byte>, r: nat, block: seq<byte>)
    requires r == |m| % 64 && r < 56 && |block| == 64
    requires block == m[|m| - r..] + [0x80] + Zeros(55 - r) + BigEndian(BitLen(|m|), 8)
    ensures Digest(INITIAL, m + Padding(|m|)) == Compress(Digest(INITIAL, Whole(m)), block)
  {
    hide Digest, Compress, BitLen, BigEndian, Whole, Zeros, Padding;
    WholeAndRest(m);
    PaddingShort(|m|, r);
    RegroupedOnce(Whole(m), m[|m| - r..], [0x80], Zeros(55 - r), BigEndian(BitLen(|m|), 8));
    DigestThen(INITIAL, Whole(m), block);
  }

  lemma PaddingLong(n: nat, r: nat)
    requires r == n % 64 && 56 <= r
    ensures Padding(n) == [0x80] + (Zeros(63 - r) + Zeros(56)) + BigEndian(BitLen(n), 8)
  {
    GapOf(n);
    ZerosSplit(63 - r, 56);
    hide Gap, BitLen, BigEndian, Zeros;
  }

  lemma LongBlocks(m: seq<byte>, r: nat, first: seq<byte>, block: seq<byte>)
    requires r == |m| % 64 && 56 <= r && |block| == 64
    requires first == m[|m| - r..] + [0x80] + Zeros(63 - r) && block == Zeros(56) + BigEndian(BitLen(|m|), 8)
    ensures m + Padding(|m|) == Whole(m) + first + block && |first| == 64
  {
    hide BitLen, BigEndian, Whole, Zeros, Padding;
    WholeAndRest(m);
    PaddingLong(|m|, r);
    Regrouped(Whole(m), m[|m| - r..], [0x80], Zeros(63 - r), Zeros(56), BigEndian(BitLen(|m|), 8));
  }

  /** No room: the marker ends one block, and the length a second one. */
  lemma FinalLong(m: seq<byte>, r: nat, block: seq<byte>)
    requires r == |m| % 64 && 56 <= r && |block| == 64
    requires block == Zeros(56) + BigEndian(BitLen(|m|), 8)
    ensures var first := m[|m| - r..] + [0x80] + Zeros(63 - r);
            Digest(INITIAL, m + Padding(|m|)) == Compress(Compress(Digest(INITIAL, Whole(m)), first), block)
  {
    hide Digest, Compress, BitLen, BigEndian, Whole, Zeros, Padding;
    var first := m[|m| - r..] + [0x80] + Zeros(63 - r);
    LongBlocks(m, r, first, block);
    DigestTwice(INITIAL, Whole(m), first, block);
  }

  lemma DigestTwice(s: State, w: seq<byte>, a: seq<byte>, b: seq<byte>)
    requires |w| % 64 == 0 && |a| == 64 && |b| == 64
    ensures Digest(s, w + a + b) == Compress(Compress(Digest(s, w), a), b)
  {
    hide Digest, Compress;
    DigestThen(s, w, a);
    DigestThen(s, w + a, b);
  }

  lemma EmptyDigest()
    ensures Digest(INITIAL, Whole([])) == INITIAL && BitLen(0) == 0
  {
    hide Compress;
  }

  lemma BlockDone(m: seq<byte>, b: byte, block: seq<byte>)
    requires |m| >= 63 && |m| % 64 == 63 && |block| == 64
    requires block == m[|m| - 63..] + [b]
    ensures Digest(INITIAL, Whole(m + [b])) == Compress(Digest(INITIAL, Whole(m)), block)
    ensures |m + [b]| % 64 == 0
  {
    hide Digest, Compress;
    assert Whole(m + [b]) == Whole(m) + block;
    DigestThen(INITIAL, Whole(m), block);
  }

  lemma BlockOpen(m: seq<byte>, b: byte)
    requires |m| % 64 < 63
    ensures Whole(m + [b]) == Whole(m) && |m + [b]| % 64 == |m| % 64 + 1
  {
  }

  /** `wdc_sha256`. */
  method Sum(data: seq<byte>) returns (hash: seq<byte>)
    ensures hash == Hash(data)
  {
    hide Hash;
    var ctx := new Context();
    ctx.Update(data, []);
    assert [] + data == data;
    hash := ctx.Final(data);
  }

  /** `wdc_hmac_sha256`. */
  method HmacSha256(key: seq<byte>, part0: seq<byte>, part1: seq<byte>, part2: seq<byte>) returns (hash: seq<byte>)
    ensures hash == Hmac(key, part0 + part1 + part2)
  {
    hide Hash, Masked, KeyBlock;
    var keyBlock := MakeKeyBlock(key);
    var ipad, opad := Masked(keyBlock, 0x36), Masked(keyBlock, 0x5c);
    var inner := SumOfFour(ipad, part0, part1, part2);
    hash := SumOfFour(opad, inner, [], []);
    assert inner + [] + [] == inner;
  }

  method SumOfFour(first: seq<byte>, x: seq<byte>, y: seq<byte>, z: seq<byte>) returns (hash: seq<byte>)
    ensures hash == Hash(first + (x + y + z))
  {
    hide Hash, Context.Absorbed;
    var ctx := new Context();
    ghost var m := [] + first;
    ctx.Update(first, []);
    ctx.Update(x, m);
    ctx.Update(y, m + x);
    ctx.Update(z, m + x + y);
    assert m + x + y + z == first + (x + y + z);
    hash := ctx.Final(first + (x + y + z));
  }

  method MakeKeyBlock(key: seq<byte>) returns (k: seq<byte>)
    ensures k == KeyBlock(key)
  {
    hide Hash;
    if |key| > 64 {
      var h := Sum(key);
      k := h + Zeros(32);
    } else {
      k := key + Zeros(64 - |key|);
    }
  }
}
