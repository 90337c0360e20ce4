/** Iterating and folding an arbitrary step, away from any particular arithmetic. */
module Iteration {

  function Iterate<T>(f: T -> T, c: T, n: nat): T {
    if n == 0 then c else f(Iterate(f, c, n - 1))
  }

  function Fold<T, B>(feed: (T, B) -> T, c: T, data: seq<B>): T {
    if data == [] then c else feed(Fold(feed, c, data[..|data| - 1]), data[|data| - 1])
  }

  ghost predicate Injective<T(!new)>(f: T -> T) {
    forall a, b :: f(a) == f(b) ==> a == b
  }

  ghost predicate Linear<T(!new)>(f: T -> T, op: (T, T) -> T) {
    forall a, b {:trigger f(op(a, b))} :: f(op(a, b)) == op(f(a), f(b))
  }

  lemma {:induction false} IterateInjective<T(!new)>(f: T -> T, a: T, b: T, n: nat)
    requires Injective(f) && Iterate(f, a, n) == Iterate(f, b, n)
    ensures a == b
  {
    if n > 0 {
      IterateInjective(f, a, b, n - 1);
    }
  }

  lemma {:induction false} IterateLinear<T(!new)>(f: T -> T, op: (T, T) -> T, a: T, b: T, n: nat)
    requires Linear(f, op)
    ensures Iterate(f, op(a, b), n) == op(Iterate(f, a, n), Iterate(f, b, n))
  {
    if n > 0 {
      IterateLinear(f, op, a, b, n - 1);
    }
  }

  lemma {:induction false} FoldAppend<T, B>(feed: (T, B) -> T, c: T, x: seq<B>, y: seq<B>)
    ensures Fold(feed, c, x + y) == Fold(feed, Fold(feed, c, x), y)
  {
    if y == [] {
      assert x + y == x;
    } else {
      var front := y[..|y| - 1];
      assert (x + y)[..|x + y| - 1] == x + front;
      FoldAppend(feed, c, x, front);
    }
  }

  lemma {:induction false} FoldInjective<T(!new), B(!new)>(feed: (T, B) -> T, a: T, b: T, data: seq<B>)
    requires forall c, d, e :: feed(c, e) == feed(d, e) ==> c == d
    requires Fold(feed, a, data) == Fold(feed, b, data)
    ensures a == b
  {
    if data != [] {
      FoldInjective(feed, a, b, data[..|data| - 1]);
    }
  }
}

/** The bitwise CRC-32 shared by the metadata seal and the journal records. */
module Crc32 {
  import opened Iteration
  import opened Words

  const POLY: bv32 := 0xedb88320

  /** One turn of the inner loop: shift right, and add the polynomial when a one falls out. */
  function ShiftBit(c: bv32): bv32 {
    (c >> 1) ^ (POLY & (0 - (c & 1)))
  }

  function Xor(a: bv32, b: bv32): bv32 { a ^ b }

  function Bit(on: bool, mask: bv8): bv8 { if on then mask else 0 }

  predicate Odd(x: int) { x % 2 == 1 }

  /** n times halved. */
  function Half(x: nat, n: nat): nat {
    if n == 0 then x else Half(x, n - 1) / 2
  }

  /** Eight bits as a byte-wide vector. */
  function Octet(b0: bool, b1: bool, b2: bool, b3: bool, b4: bool, b5: bool, b6: bool, b7: bool): bv8 {
    Bit(b0, 0x01) | Bit(b1, 0x02) | Bit(b2, 0x04) | Bit(b3, 0x08)
    | Bit(b4, 0x10) | Bit(b5, 0x20) | Bit(b6, 0x40) | Bit(b7, 0x80)
  }

  /** The bits of a byte, in binary. */
  function Lane(b: byte): bv8 {
    Octet(Odd(b), Odd(Half(b, 1)), Odd(Half(b, 2)), Odd(Half(b, 3)),
          Odd(Half(b, 4)), Odd(Half(b, 5)), Odd(Half(b, 6)), Odd(Half(b, 7)))
  }

  /** A byte extended to the width of the register. */
  function Wide(b: byte): bv32 { Extend(Lane(b)) }

  function Extend(x: bv8): bv32 { x as bv32 }

  function ShiftByte(c: bv32): bv32 {
    Iterate(ShiftBit, c, 8)
  }

  function Feed(c: bv32, b: byte): bv32 {
    ShiftByte(Xor(c, Wide(b)))
  }

  /** `crc32_update` started from zero over a whole buffer. */
  function Crc(data: seq<byte>): bv32 {
    !Fold(Feed, !0, data)
  }

  /** The checksum as the 32-bit field that stores it. */
  function Checksum(data: seq<byte>): u32 {
    Crc(data) as int
  }

  /** The inner loop: eight turns for one byte. */
  method Turn(c: bv32) returns (r: bv32)
    ensures r == ShiftByte(c)
  {
    r := c;
    for j := 0 to 8
      invariant r == Iterate(ShiftBit, c, j)
    {
      ghost var before := r;
      var mask: bv32 := 0 - (r & 1);
      r := (r >> 1) ^ (POLY & mask);
      assert r == ShiftBit(before);
    }
  }

  /** The outer loop, with the running value complemented on entry and on exit. */
  method Update(crc: bv32, data: array<byte>, len: nat) returns (r: bv32)
    requires len <= data.Length
    ensures r == !Fold(Feed, !crc, data[..len])
  {
    hide ShiftByte, Xor, Wide;
    r := !crc;
    for i := 0 to len
      invariant r == Fold(Feed, !crc, data[..i])
    {
      r := Turn(Xor(r, Wide(data[i])));
      assert data[..i + 1][..i] == data[..i];
    }
    r := !r;
  }

  // Each shift is a linear and invertible map, because the polynomial has its top bit set.

  lemma ShiftBitInjective()
    ensures Injective(ShiftBit)
  {
    forall a, b | ShiftBit(a) == ShiftBit(b)
      ensures a == b
    {
    }
  }

  lemma ShiftRightLinear(a: bv32, b: bv32)
    ensures (a ^ b) >> 1 == (a >> 1) ^ (b >> 1)
  {
  }

  lemma MaskLinear(a: bv32, b: bv32)
    ensures 0 - ((a ^ b) & 1) == (0 - (a & 1)) ^ (0 - (b & 1))
  {
  }

  lemma Assemble(h: bv32, k: bv32, m: bv32, n: bv32)
    ensures (h ^ k) ^ (POLY & (m ^ n)) == (h ^ (POLY & m)) ^ (k ^ (POLY & n))
  {
  }

  lemma ShiftBitXor(a: bv32, b: bv32)
    ensures ShiftBit(a ^ b) == ShiftBit(a) ^ ShiftBit(b)
  {
    ShiftRightLinear(a, b);
    MaskLinear(a, b);
    Assemble(a >> 1, b >> 1, 0 - (a & 1), 0 - (b & 1));
  }

  lemma ShiftBitLinear()
    ensures Linear(ShiftBit, Xor)
  {
    forall a, b
      ensures ShiftBit(Xor(a, b)) == Xor(ShiftBit(a), ShiftBit(b))
    {
      ShiftBitXor(a, b);
    }
  }

  lemma ShiftByteInjective(a: bv32, b: bv32)
    requires ShiftByte(a) == ShiftByte(b)
    ensures a == b
  {
    ShiftBitInjective();
    IterateInjective(ShiftBit, a, b, 8);
  }

  lemma ShiftByteLinear(a: bv32, b: bv32)
    ensures ShiftByte(Xor(a, b)) == Xor(ShiftByte(a), ShiftByte(b))
  {
    ShiftBitLinear();
    hide ShiftBit, Xor;
    IterateLinear(ShiftBit, Xor, a, b, 8);
  }

  // A byte that enters the register later is the same byte entering eight places higher now.

  function Up8(y: bv32): bv32 { y << 8 }

  predicate Low24(y: bv32) { y & 0xff000000 == 0 }

  lemma LowShift(y: bv32)
    requires Low24(y)
    ensures ShiftBit(ShiftBit(ShiftBit(ShiftBit(ShiftBit(ShiftBit(ShiftBit(ShiftBit(Up8(y))))))))) == y
  {
  }

  lemma Unroll<T>(f: T -> T, c: T)
    ensures Iterate(f, c, 8) == f(f(f(f(f(f(f(f(c))))))))
  {
    assert Iterate(f, c, 4) == f(f(f(f(c))));
  }

  lemma Slide(x: bv32, y: bv32)
    requires Low24(y)
    ensures Xor(ShiftByte(x), y) == ShiftByte(Xor(x, Up8(y)))
  {
    LowShift(y);
    hide ShiftBit, Xor, Up8, Low24;
    Unroll(ShiftBit, Up8(y));
    ShiftByteLinear(x, Up8(y));
  }

  /** The four bytes side by side in one word. */
  function Lanes(w: seq<byte>): bv32
    requires |w| == 4
  {
    Xor(Xor(Xor(Wide(w[0]), Up8(Wide(w[1]))), Up8(Up8(Wide(w[2])))), Up8(Up8(Up8(Wide(w[3])))))
  }

  lemma OctetDistinct(a0: bool, a1: bool, a2: bool, a3: bool, a4: bool, a5: bool, a6: bool, a7: bool,
                      b0: bool, b1: bool, b2: bool, b3: bool, b4: bool, b5: bool, b6: bool, b7: bool)
    requires Octet(a0, a1, a2, a3, a4, a5, a6, a7) == Octet(b0, b1, b2, b3, b4, b5, b6, b7)
    ensures a0 == b0 && a1 == b1 && a2 == b2 && a3 == b3 && a4 == b4 && a5 == b5 && a6 == b6 && a7 == b7
  {
  }

  lemma {:induction false} HalvesDetermine(a: nat, b: nat, n: nat)
    requires Half(a, n) == Half(b, n)
    requires forall k :: 0 <= k < n ==> Odd(Half(a, k)) == Odd(Half(b, k))
    ensures a == b
  {
    if n > 0 {
      assert Odd(Half(a, n - 1)) == Odd(Half(b, n - 1));
      HalvesDetermine(a, b, n - 1);
    }
  }

  lemma HalvesVanish(b: byte)
    ensures Half(b, 8) == 0
  {
    assert Half(b, 0) == b && Half(b, 1) < 128 && Half(b, 2) < 64 && Half(b, 3) < 32;
    assert Half(b, 4) < 16 && Half(b, 5) < 8 && Half(b, 6) < 4 && Half(b, 7) < 2;
  }

  lemma LaneInjective(a: byte, b: byte)
    requires Lane(a) == Lane(b)
    ensures a == b
  {
    HalvesVanish(a);
    HalvesVanish(b);
    hide Octet, Half, Odd;
    OctetDistinct(Odd(a), Odd(Half(a, 1)), Odd(Half(a, 2)), Odd(Half(a, 3)),
                  Odd(Half(a, 4)), Odd(Half(a, 5)), Odd(Half(a, 6)), Odd(Half(a, 7)),
                  Odd(b), Odd(Half(b, 1)), Odd(Half(b, 2)), Odd(Half(b, 3)),
                  Odd(Half(b, 4)), Odd(Half(b, 5)), Odd(Half(b, 6)), Odd(Half(b, 7)));
    HalfNone(a);
    HalfNone(b);
    HalvesDetermine(a, b, 8);
  }

  lemma HalfNone(a: nat)
    ensures Half(a, 0) == a
  {
  }

  lemma LanesEqual(v: seq<byte>, w: seq<byte>)
    requires |v| == |w| == 4 && Lanes(v) == Lanes(w)
    ensures Lane(v[0]) == Lane(w[0]) && Lane(v[1]) == Lane(w[1]) && Lane(v[2]) == Lane(w[2]) && Lane(v[3]) == Lane(w[3])
  {
    hide Lane, Xor, Up8, Extend;
    LanesDistinct(Lane(v[0]), Lane(v[1]), Lane(v[2]), Lane(v[3]), Lane(w[0]), Lane(w[1]), Lane(w[2]), Lane(w[3]));
  }

  lemma LanesInjective(v: seq<byte>, w: seq<byte>)
    requires |v| == |w| == 4 && Lanes(v) == Lanes(w)
    ensures v == w
  {
    hide Lane, Lanes;
    LanesEqual(v, w);
    LaneInjective(v[0], w[0]);
    LaneInjective(v[1], w[1]);
    LaneInjective(v[2], w[2]);
    LaneInjective(v[3], w[3]);
  }

  lemma LanesDistinct(a: bv8, b: bv8, c: bv8, d: bv8, a': bv8, b': bv8, c': bv8, d': bv8)
    requires Xor(Xor(Xor(Extend(a), Up8(Extend(b))), Up8(Up8(Extend(c)))), Up8(Up8(Up8(Extend(d)))))
         == Xor(Xor(Xor(Extend(a'), Up8(Extend(b'))), Up8(Up8(Extend(c')))), Up8(Up8(Up8(Extend(d')))))
    ensures a == a' && b == b' && c == c' && d == d'
  {
  }

  lemma XorAssoc(x: bv32, p: bv32, q: bv32)
    ensures Xor(Xor(x, p), q) == Xor(x, Xor(p, q))
  {
  }

  lemma XorCancel(x: bv32, p: bv32, q: bv32)
    requires Xor(x, p) == Xor(x, q)
    ensures p == q
  {
  }

  lemma Headroom(b: byte)
    ensures Low24(Wide(b)) && Low24(Up8(Wide(b))) && Low24(Up8(Up8(Wide(b))))
  {
  }

  lemma SlideAll(c: bv32, y0: bv32, y1: bv32, y2: bv32, y3: bv32)
    requires Low24(y1) && Low24(y2) && Low24(Up8(y2)) && Low24(y3) && Low24(Up8(y3)) && Low24(Up8(Up8(y3)))
    ensures ShiftByte(Xor(ShiftByte(Xor(ShiftByte(Xor(ShiftByte(Xor(c, y0)), y1)), y2)), y3))
         == ShiftByte(ShiftByte(ShiftByte(ShiftByte(
              Xor(c, Xor(Xor(Xor(y0, Up8(y1)), Up8(Up8(y2))), Up8(Up8(Up8(y3)))))))))
  {
    hide ShiftByte, Xor, Up8, Low24, Wide;
    var x1 := Xor(c, y0);
    var x2 := Xor(x1, Up8(y1));
    var x3 := Xor(x2, Up8(Up8(y2)));
    Slide(x1, y1);
    Slide(ShiftByte(x2), y2);
    Slide(x2, Up8(y2));
    Slide(ShiftByte(ShiftByte(x3)), y3);
    Slide(ShiftByte(x3), Up8(y3));
    Slide(x3, Up8(Up8(y3)));
    XorAssoc(c, y0, Up8(y1));
    XorAssoc(c, Xor(y0, Up8(y1)), Up8(Up8(y2)));
    XorAssoc(c, Xor(Xor(y0, Up8(y1)), Up8(Up8(y2))), Up8(Up8(Up8(y3))));
  }

  lemma FoldFour<T, B>(feed: (T, B) -> T, c: T, w: seq<B>)
    requires |w| == 4
    ensures Fold(feed, c, w) == feed(feed(feed(feed(c, w[0]), w[1]), w[2]), w[3])
  {
    assert w[..3][..2] == w[..2] && w[..2][..1] == w[..1] && w[..1][..0] == [];
    assert Fold(feed, c, w[..1]) == feed(c, w[0]);
    assert Fold(feed, c, w[..2]) == feed(feed(c, w[0]), w[1]);
  }

  /** Four bytes fed one after another act as one 32-bit word fed at once. */
  lemma FourBytes(c: bv32, w: seq<byte>)
    requires |w| == 4
    ensures Fold(Feed, c, w) == ShiftByte(ShiftByte(ShiftByte(ShiftByte(Xor(c, Lanes(w))))))
  {
    Headroom(w[1]); Headroom(w[2]); Headroom(w[3]);
    hide ShiftByte, Xor, Up8, Low24, Wide;
    FoldFour(Feed, c, w);
    SlideAll(c, Wide(w[0]), Wide(w[1]), Wide(w[2]), Wide(w[3]));
  }

  lemma FeedInjective()
    ensures forall c, d, e :: Feed(c, e) == Feed(d, e) ==> c == d
  {
    forall c, d, e | Feed(c, e) == Feed(d, e)
      ensures c == d
    {
      ShiftByteInjective(Xor(c, Wide(e)), Xor(d, Wide(e)));
      hide ShiftByte;
    }
  }

  /** Two buffers that differ, and differ only inside four consecutive bytes, have different checksums. */
  lemma BurstDetected(x: seq<byte>, y: seq<byte>, p: nat)
    requires |x| == |y| && p + 4 <= |x| && x != y
    requires x[..p] == y[..p] && x[p + 4..] == y[p + 4..]
    ensures Checksum(x) != Checksum(y)
  {
    var v, w, tail := x[p..p + 4], y[p..p + 4], x[p + 4..];
    assert x == x[..p] + (v + tail);
    assert y == y[..p] + (w + tail);
    if Checksum(x) == Checksum(y) {
      SameCrc(x, y);
      hide ShiftByte, Xor, Up8, Wide, Crc, Feed, Lanes;
      FoldAppend(Feed, !0, x[..p], v + tail);
      FoldAppend(Feed, !0, y[..p], w + tail);
      var c := Fold(Feed, !0, x[..p]);
      FoldAppend(Feed, c, v, tail);
      FoldAppend(Feed, c, w, tail);
      FeedInjective();
      FoldInjective(Feed, Fold(Feed, c, v), Fold(Feed, c, w), tail);
      FourBytes(c, v);
      FourBytes(c, w);
      var a, b := Xor(c, Lanes(v)), Xor(c, Lanes(w));
      ShiftByteInjective(ShiftByte(ShiftByte(ShiftByte(a))), ShiftByte(ShiftByte(ShiftByte(b))));
      ShiftByteInjective(ShiftByte(ShiftByte(a)), ShiftByte(ShiftByte(b)));
      ShiftByteInjective(ShiftByte(a), ShiftByte(b));
      ShiftByteInjective(a, b);
      XorCancel(c, Lanes(v), Lanes(w));
      LanesInjective(v, w);
      assert false;
    }
  }

  lemma FieldValue(c: bv32)
    ensures (c as int) as bv32 == c
  {
  }

  lemma SameCrc(x: seq<byte>, y: seq<byte>)
    requires Checksum(x) == Checksum(y)
    ensures Fold(Feed, !0, x) == Fold(Feed, !0, y)
  {
    hide Fold, Feed;
    FieldValue(Crc(x));
    FieldValue(Crc(y));
    assert !!Fold(Feed, !0, x) == !!Fold(Feed, !0, y);
  }
}
