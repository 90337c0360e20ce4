/** Which bytes are UTF-8: exactly the encodings of sequences of Unicode scalar values (section 3 of RFC 3629). */
module Utf8 {
  import opened Words
  import opened GuestEncoding

  predicate Scalar(c: nat) {
    c <= 0x10_ffff && !(0xd800 <= c <= 0xdfff)
  }

  function Continuation(x: nat): byte
    requires x < 0x40
  {
    0x80 + x
  }

  /** One scalar value, in one to four bytes. */
  function EncodeOne(c: nat): (bs: seq<byte>)
    requires Scalar(c)
    ensures 1 <= |bs| <= 4
  {
    if c < 0x80 then [c]
    else if c < 0x800 then [0xc0 + c / 0x40, Continuation(c % 0x40)]
    else if c < 0x1_0000 then [0xe0 + c / 0x1000, Continuation(c / 0x40 % 0x40), Continuation(c % 0x40)]
    else [0xf0 + c / 0x4_0000, Continuation(c / 0x1000 % 0x40), Continuation(c / 0x40 % 0x40), Continuation(c % 0x40)]
  }

  predicate AllScalar(cs: seq<nat>) {
    forall c <- cs :: Scalar(c)
  }

  function Encode(cs: seq<nat>): seq<byte>
    requires AllScalar(cs)
    decreases |cs|
  {
    if cs == [] then [] else EncodeOne(cs[0]) + Encode(cs[1..])
  }

  /** The bytes start with the encoding of a scalar value. */
  predicate Starts(s: seq<byte>, c: nat) {
    Scalar(c) && EncodeOne(c) <= s
  }

  lemma EncodedFirst(c: nat, rest: seq<byte>)
    requires Scalar(c) && IsUtf8(rest)
    ensures IsUtf8(EncodeOne(c) + rest)
  {
    var s := EncodeOne(c) + rest;
    assert s[|EncodeOne(c)|..] == rest;
  }

  lemma {:induction false} EncodedIs(cs: seq<nat>)
    requires AllScalar(cs)
    ensures IsUtf8(Encode(cs))
    decreases |cs|
  {
    if cs != [] {
      hide IsUtf8;
      EncodedIs(cs[1..]);
      EncodedFirst(cs[0], Encode(cs[1..]));
    } else {
      assert IsUtf8([]);
    }
  }

  /** A number by its digits to base 64. */
  function Joined(w: nat, x: nat, y: nat, z: nat): nat {
    0x4_0000 * w + 0x1000 * x + 0x40 * y + z
  }

  lemma Digits(w: nat, x: nat, y: nat, z: nat)
    requires x < 0x40 && y < 0x40 && z < 0x40
    ensures var c := Joined(w, x, y, z);
            c % 0x40 == z && c / 0x40 % 0x40 == y && c / 0x1000 % 0x40 == x && c / 0x4_0000 == w
  {
    var c := Joined(w, x, y, z);
    assert c / 0x40 == 0x1000 * w + 0x40 * x + y;
    assert c / 0x1000 == 0x40 * w + x;
  }

  /** The scalar value that the first bytes spell. */
  function FirstOf(s: seq<byte>): nat
    requires s != [] && IsUtf8(s)
  {
    var b: seq<int> := s;
    if b[0] <= 0x7f then b[0]
    else if b[0] <= 0xdf then Joined(0, 0, b[0] - 0xc0, b[1] - 0x80)
    else if b[0] <= 0xef then Joined(0, b[0] - 0xe0, b[1] - 0x80, b[2] - 0x80)
    else Joined(b[0] - 0xf0, b[1] - 0x80, b[2] - 0x80, b[3] - 0x80)
  }

  lemma TwoStart(s: seq<byte>)
    requires s != [] && IsUtf8(s) && 0x7f < s[0] <= 0xdf
    ensures Starts(s, FirstOf(s)) && IsUtf8(s[|EncodeOne(FirstOf(s))|..])
  {
    var b: seq<int> := s;
    Digits(0, 0, b[0] - 0xc0, b[1] - 0x80);
    assert EncodeOne(FirstOf(s)) == s[..2];
  }

  lemma ThreeStart(s: seq<byte>)
    requires s != [] && IsUtf8(s) && 0xdf < s[0] <= 0xef
    ensures Starts(s, FirstOf(s)) && IsUtf8(s[|EncodeOne(FirstOf(s))|..])
  {
    var b: seq<int> := s;
    Digits(0, b[0] - 0xe0, b[1] - 0x80, b[2] - 0x80);
    assert FirstOf(s) / 0x1000 == b[0] - 0xe0;
    assert EncodeOne(FirstOf(s)) == s[..3];
  }

  lemma FourStart(s: seq<byte>)
    requires s != [] && IsUtf8(s) && 0xef < s[0]
    ensures Starts(s, FirstOf(s)) && IsUtf8(s[|EncodeOne(FirstOf(s))|..])
  {
    var b: seq<int> := s;
    Digits(b[0] - 0xf0, b[1] - 0x80, b[2] - 0x80, b[3] - 0x80);
    assert EncodeOne(FirstOf(s)) == s[..4];
  }

  lemma FirstStarts(s: seq<byte>)
    requires s != [] && IsUtf8(s)
    ensures Starts(s, FirstOf(s)) && IsUtf8(s[|EncodeOne(FirstOf(s))|..])
  {
    if s[0] > 0xef {
      FourStart(s);
    } else if s[0] > 0xdf {
      ThreeStart(s);
    } else if s[0] > 0x7f {
      TwoStart(s);
    }
  }

  /** The scalar values that a text spells. */
  lemma {:induction false} Spelled(s: seq<byte>) returns (cs: seq<nat>)
    requires IsUtf8(s)
    ensures AllScalar(cs) && Encode(cs) == s
    decreases |s|
  {
    cs := [];
    if s != [] {
      FirstStarts(s);
      hide IsUtf8, FirstOf, EncodeOne;
      var c := FirstOf(s);
      var rest := Spelled(s[|EncodeOne(c)|..]);
      cs := [c] + rest;
      assert cs[1..] == rest && s == EncodeOne(c) + s[|EncodeOne(c)|..];
    }
  }

  ghost predicate IsEncoding(s: seq<byte>) {
    exists cs: seq<nat> :: AllScalar(cs) && Encode(cs) == s
  }

  /** The check accepts exactly the encodings of scalar values: no overlong form, no surrogate, nothing cut off. */
  lemma Utf8Exactly(s: seq<byte>)
    ensures IsUtf8(s) <==> IsEncoding(s)
  {
    hide IsUtf8, Encode;
    if IsUtf8(s) {
      var cs := Spelled(s);
    }
    if cs: seq<nat> :| AllScalar(cs) && Encode(cs) == s {
      EncodedIs(cs);
    }
  }
}
