/** Machine integers, and how a sequence of 32-bit words lies in little-endian memory. */
module Words {
  type byte = x: int | 0 <= x < 0x100
  type u16 = x: int | 0 <= x < 0x1_0000
  type u32 = x: int | 0 <= x < 0x1_0000_0000
  type u64 = x: int | 0 <= x < 0x1_0000_0000_0000_0000

  const MAX_U32: u32 := 0xffff_ffff

  /** `++` on a 32-bit counter. */
  function Next(x: u32): u32 {
    if x == MAX_U32 then 0 else x + 1
  }

  /** Byte k of a word, least significant first. */
  function ByteOf(w: u32, k: nat): byte
    requires k < 4
  {
    if k == 0 then w % 0x100
    else if k == 1 then w / 0x100 % 0x100
    else if k == 2 then w / 0x100 / 0x100 % 0x100
    else w / 0x100 / 0x100 / 0x100
  }

  function WordOf(a: byte, b: byte, c: byte, d: byte): u32 {
    a + 0x100 * b + 0x1_0000 * c + 0x100_0000 * d
  }

  function WordAt(m: seq<byte>, p: nat): u32
    requires p + 4 <= |m|
  {
    WordOf(m[p], m[p + 1], m[p + 2], m[p + 3])
  }

  /** The memory image of the words. */
  function Expand(ws: seq<u32>): (m: seq<byte>)
    ensures |m| == 4 * |ws|
  {
    seq(4 * |ws|, i requires 0 <= i < 4 * |ws| => ByteOf(ws[i / 4], i % 4))
  }

  /** The words that aligned memory holds. */
  function Collect(m: seq<byte>): (ws: seq<u32>)
    ensures |ws| == |m| / 4
  {
    seq(|m| / 4, i requires 0 <= i < |m| / 4 => WordAt(m, 4 * i))
  }

  lemma WordOfItsBytes(w: u32)
    ensures WordOf(ByteOf(w, 0), ByteOf(w, 1), ByteOf(w, 2), ByteOf(w, 3)) == w
  {
  }

  lemma BytesOfWord(a: byte, b: byte, c: byte, d: byte)
    ensures ByteOf(WordOf(a, b, c, d), 0) == a && ByteOf(WordOf(a, b, c, d), 1) == b
    ensures ByteOf(WordOf(a, b, c, d), 2) == c && ByteOf(WordOf(a, b, c, d), 3) == d
  {
  }

  /** Storing words and loading them back gives the words. */
  lemma CollectExpand(ws: seq<u32>)
    ensures Collect(Expand(ws)) == ws
  {
    var m := Expand(ws);
    hide ByteOf, WordOf;
    forall i | 0 <= i < |ws|
      ensures Collect(m)[i] == ws[i]
    {
      assert m[4 * i] == ByteOf(ws[i], 0);
      assert m[4 * i + 1] == ByteOf(ws[i], 1);
      assert m[4 * i + 2] == ByteOf(ws[i], 2);
      assert m[4 * i + 3] == ByteOf(ws[i], 3);
      WordOfItsBytes(ws[i]);
    }
  }

  /** Loading words from memory and storing them back gives the memory. */
  lemma ExpandCollect(m: seq<byte>)
    requires |m| % 4 == 0
    ensures Expand(Collect(m)) == m
  {
    hide ByteOf, WordOf;
    forall i | 0 <= i < |m|
      ensures Expand(Collect(m))[i] == m[i]
    {
      var p := 4 * (i / 4);
      BytesOfWord(m[p], m[p + 1], m[p + 2], m[p + 3]);
    }
  }
}

/** Bytes standing at an offset of a larger buffer. */
module Slices {
  import opened Words

  /** The bytes stand at the offset. */
  predicate At(buf: seq<byte>, offset: nat, bs: seq<byte>) {
    offset + |bs| <= |buf| && buf[offset..offset + |bs|] == bs
  }

  lemma AtSplit(buf: seq<byte>, offset: nat, x: seq<byte>, y: seq<byte>)
    requires At(buf, offset, x + y)
    ensures At(buf, offset, x) && At(buf, offset + |x|, y)
  {
    assert buf[offset..offset + |x|] == (x + y)[..|x|];
    assert buf[offset + |x|..offset + |x| + |y|] == (x + y)[|x|..];
  }

  lemma AtJoin(buf: seq<byte>, offset: nat, x: seq<byte>, y: seq<byte>)
    requires At(buf, offset, x) && At(buf, offset + |x|, y)
    ensures At(buf, offset, x + y)
  {
    assert buf[offset..offset + |x| + |y|]
        == buf[offset..offset + |x|] + buf[offset + |x|..offset + |x| + |y|];
  }
}

/** Numbers spelled in bytes, most significant first. */
module BigEndians {
  import opened Words

  function Power(n: nat): nat {
    if n == 0 then 1 else 0x100 * Power(n - 1)
  }

  /** The number that bytes spell, most significant first. */
  function ValueOf(bs: seq<byte>): (v: nat)
    ensures v < Power(|bs|)
    decreases |bs|
  {
    if bs == [] then 0 else 0x100 * ValueOf(bs[..|bs| - 1]) + bs[|bs| - 1]
  }

  function BigEndian(v: nat, n: nat): (bs: seq<byte>)
    ensures |bs| == n
    decreases n
  {
    if n == 0 then [] else BigEndian(v / 0x100, n - 1) + [v % 0x100]
  }

  lemma {:induction false} ValueOfBigEndian(v: nat, n: nat)
    requires v < Power(n)
    ensures ValueOf(BigEndian(v, n)) == v
    decreases n
  {
    if n > 0 {
      assert BigEndian(v, n)[..n - 1] == BigEndian(v / 0x100, n - 1);
      ValueOfBigEndian(v / 0x100, n - 1);
    }
  }

  lemma {:induction false} BigEndianOfValue(bs: seq<byte>)
    ensures BigEndian(ValueOf(bs), |bs|) == bs
    decreases |bs|
  {
    if bs != [] {
      var rest, last := bs[..|bs| - 1], bs[|bs| - 1];
      BigEndianOfValue(rest);
      LastByte(ValueOf(rest), last);
      assert bs == rest + [last];
    }
  }

  lemma LastByte(v: nat, b: byte)
    ensures (0x100 * v + b) / 0x100 == v && (0x100 * v + b) % 0x100 == b
  {
  }

  lemma Powers()
    ensures Power(0) == 1 && Power(1) == 0x100 && Power(2) == 0x1_0000
    ensures Power(4) == 0x1_0000_0000 && Power(8) == 0x1_0000_0000_0000_0000
  {
    assert Power(2) == 0x100 * Power(1);
    assert Power(4) == 0x100 * (0x100 * Power(2));
    assert Power(6) == 0x100 * (0x100 * Power(4));
    assert Power(8) == 0x100 * (0x100 * Power(6));
  }

  /** `value >> 8 * k`. */
  function Shifted(value: nat, k: nat): nat
    decreases k
  {
    if k == 0 then value else Shifted(value / 0x100, k - 1)
  }

  lemma {:induction false} BigEndianAt(value: nat, n: nat, i: nat)
    requires i < n
    ensures BigEndian(value, n)[i] == Shifted(value, n - 1 - i) % 0x100
    decreases n
  {
    if i < n - 1 {
      BigEndianAt(value / 0x100, n - 1, i);
    }
  }
}
