/** CBOR heads: major type and argument in one to nine bytes (section 3 of RFC 8949). */
module CborHead {
  import opened Words
  import opened BigEndians
  import opened Status

  const UNSIGNED: byte := 0
  const NEGATIVE: byte := 1
  const BYTES: byte := 2
  const TEXT: byte := 3
  const ARRAY: byte := 4
  const MAP: byte := 5
  const TAG: byte := 6
  const SIMPLE: byte := 7

  datatype Head = Head(major: byte, value: u64, next: nat)

  /** The argument bytes that follow the initial byte in each of the five forms. */
  function Extra(form: nat): nat
    requires form <= 4
  {
    if form == 0 then 0 else if form == 1 then 1 else if form == 2 then 2 else if form == 3 then 4 else 8
  }

  predicate Fits(form: nat, value: nat) {
    form <= 4 && value < (if form == 0 then 24 else Power(Extra(form)))
  }

  function Initial(major: byte, form: nat, value: nat): byte
    requires major < 8 && Fits(form, value)
  {
    32 * major + if form == 0 then value else 23 + form
  }

  /** A head in a chosen form. */
  function HeadAs(major: byte, form: nat, value: nat): (bs: seq<byte>)
    requires major < 8 && Fits(form, value)
    ensures |bs| == 1 + Extra(form)
  {
    [Initial(major, form, value)] + BigEndian(value, Extra(form))
  }

  function Shortest(value: u64): (form: nat)
    ensures Fits(form, value)
  {
    Powers();
    if value <= 23 then 0 else if value <= 0xff then 1 else if value <= 0xffff then 2
    else if value <= 0xffff_ffff then 3 else 4
  }

  /** The head that `put_type_value` writes. */
  function HeadBytes(major: byte, value: u64): (bs: seq<byte>)
    requires major < 8
    ensures 1 <= |bs| <= 9
  {
    HeadAs(major, Shortest(value), value)
  }

  /** No form that can hold the argument is shorter (section 4.2.1 of RFC 8949). */
  lemma ShortestForm(major: byte, form: nat, value: u64)
    requires major < 8 && Fits(form, value)
    ensures |HeadBytes(major, value)| <= |HeadAs(major, form, value)|
    ensures |HeadBytes(major, value)| == |HeadAs(major, form, value)| <==> form == Shortest(value)
  {
    Powers();
    hide BigEndian, Power;
  }

  function HeadAt(buf: seq<byte>, offset: nat): (r: Result<Head>)
    ensures r.Ok? ==> offset < r.value.next <= |buf| && r.value.major < 8
  {
    if offset >= |buf| then Err(ERR_BAD_ENCODING)
    else
      var major, info := buf[offset] / 32, buf[offset] % 32;
      var next := offset + 1;
      if info <= 23 then Ok(Head(major, info, next))
      else if info <= 27 then
        var n := Extra(info - 23);
        if |buf| - next < n then Err(ERR_BAD_ENCODING)
        else
          Powers();
          Ok(Head(major, ValueOf(buf[next..next + n]), next + n))
      else Err(ERR_BAD_ENCODING)
  }

  lemma InitialParts(major: byte, form: nat, value: nat)
    requires major < 8 && Fits(form, value)
    ensures Initial(major, form, value) / 32 == major
    ensures Initial(major, form, value) % 32 == if form == 0 then value else 23 + form
  {
  }

  lemma HeadParts(buf: seq<byte>, offset: nat, major: byte, form: nat, value: u64)
    requires major < 8 && Fits(form, value)
    requires offset + 1 + Extra(form) <= |buf| && buf[offset..offset + 1 + Extra(form)] == HeadAs(major, form, value)
    ensures buf[offset] == Initial(major, form, value)
    ensures buf[offset + 1..offset + 1 + Extra(form)] == BigEndian(value, Extra(form))
  {
    hide BigEndian, Initial;
    var n := Extra(form);
    var h := HeadAs(major, form, value);
    assert buf[offset] == buf[offset..offset + 1 + n][0];
    assert buf[offset + 1..offset + 1 + n] == buf[offset..offset + 1 + n][1..] == h[1..];
  }

  /** Every form of a head is read back. */
  lemma HeadReadBack(buf: seq<byte>, offset: nat, major: byte, form: nat, value: u64)
    requires major < 8 && Fits(form, value)
    requires offset + 1 + Extra(form) <= |buf| && buf[offset..offset + 1 + Extra(form)] == HeadAs(major, form, value)
    ensures HeadAt(buf, offset) == Ok(Head(major, value, offset + 1 + Extra(form)))
  {
    HeadParts(buf, offset, major, form, value);
    InitialParts(major, form, value);
    if form > 0 {
      ValueOfBigEndian(value, Extra(form));
    }
    hide BigEndian, Initial, HeadAs, ValueOf;
  }

  /** The form in which a head was written. */
  function FormAt(buf: seq<byte>, offset: nat): nat
    requires HeadAt(buf, offset).Ok?
  {
    if buf[offset] % 32 <= 23 then 0 else buf[offset] % 32 - 23
  }

  lemma InitialOf(b: byte, form: nat, value: nat)
    requires form == if b % 32 <= 23 then 0 else b % 32 - 23
    requires Fits(form, value) && (form == 0 ==> value == b % 32)
    ensures Initial(b / 32, form, value) == b
  {
    hide Fits;
    assert 32 * (b / 32) + b % 32 == b;
  }

  lemma HeadShape(buf: seq<byte>, offset: nat)
    requires HeadAt(buf, offset).Ok?
    ensures var h := HeadAt(buf, offset).value;
            var form := FormAt(buf, offset);
            && form <= 4 && h.major == buf[offset] / 32 && h.next == offset + 1 + Extra(form)
            && Fits(form, h.value)
            && h.value == if form == 0 then buf[offset] % 32 else ValueOf(buf[offset + 1..h.next])
  {
    Powers();
    hide ValueOf, Power;
  }

  /** Whatever is read as a head is the head of that argument in one of the five forms. */
  lemma ReadIsHead(buf: seq<byte>, offset: nat)
    requires HeadAt(buf, offset).Ok?
    ensures var h := HeadAt(buf, offset).value;
            var form := FormAt(buf, offset);
            Fits(form, h.value) && buf[offset..h.next] == HeadAs(h.major, form, h.value)
  {
    HeadShape(buf, offset);
    var h, form := HeadAt(buf, offset).value, FormAt(buf, offset);
    InitialOf(buf[offset], form, h.value);
    var tail := buf[offset + 1..h.next];
    BigEndianOfValue(tail);
    assert BigEndian(h.value, 0) == [];
    hide HeadAt, FormAt, BigEndian, ValueOf, Fits, Initial;
    assert buf[offset..h.next] == [buf[offset]] + tail;
    assert tail == BigEndian(h.value, Extra(form));
  }

  /** `read_type_value`. */
  method ReadTypeValue(buf: seq<byte>, offset: u32) returns (status: u32, major: byte, value: u64, next: u32)
    requires |buf| <= MAX_U32
    ensures (if status == OK then Ok(Head(major, value, next)) else Err(status)) == HeadAt(buf, offset)
  {
    major, value, next := 0, 0, 0;
    if offset >= |buf| { return ERR_BAD_ENCODING, major, value, next; }
    var initial, at := buf[offset], offset + 1;
    major := initial / 32;
    var info := initial % 32;
    if info <= 23 {
      return OK, major, info, at;
    }
    if info == 24 {
      if at >= |buf| { return ERR_BAD_ENCODING, major, value, next; }
      SpellOne(buf, at);
      return OK, major, buf[at], at + 1;
    }
    if info == 25 {
      if |buf| - at < 2 { return ERR_BAD_ENCODING, major, value, next; }
      SpellTwo(buf, at);
      return OK, major, 0x100 * (buf[at] as int) + buf[at + 1], at + 2;
    }
    if info == 26 {
      if |buf| - at < 4 { return ERR_BAD_ENCODING, major, value, next; }
      SpellFour(buf, at);
      value := 0x100_0000 * (buf[at] as int) + 0x1_0000 * (buf[at + 1] as int) + 0x100 * (buf[at + 2] as int)
               + buf[at + 3];
      return OK, major, value, at + 4;
    }
    if info == 27 {
      if |buf| - at < 8 { return ERR_BAD_ENCODING, major, value, next; }
      value := Fold8(buf, at);
      return OK, major, value, at + 8;
    }
    return ERR_BAD_ENCODING, major, value, next;
  }

  /** The eight shifts of the longest form. */
  method Fold8(buf: seq<byte>, at: u32) returns (value: u64)
    requires at + 8 <= |buf|
    ensures value == ValueOf(buf[at..at + 8])
  {
    Powers();
    var wide: nat := 0;
    var i := 0;
    while i < 8
      invariant 0 <= i <= 8
      invariant wide == ValueOf(buf[at..at + i])
    {
      assert buf[at..at + i + 1][..i] == buf[at..at + i];
      wide := 0x100 * wide + buf[at + i];
      i := i + 1;
    }
    value := wide;
  }

  lemma SpellOne(buf: seq<byte>, at: nat)
    requires at + 1 <= |buf|
    ensures ValueOf(buf[at..at + 1]) == buf[at]
  {
    assert buf[at..at + 1][..0] == [];
  }

  lemma SpellTwo(buf: seq<byte>, at: nat)
    requires at + 2 <= |buf|
    ensures ValueOf(buf[at..at + 2]) == 0x100 * (buf[at] as int) + buf[at + 1]
  {
    SpellOne(buf, at);
    assert buf[at..at + 2][..1] == buf[at..at + 1];
  }

  lemma SpellFour(buf: seq<byte>, at: nat)
    requires at + 4 <= |buf|
    ensures ValueOf(buf[at..at + 4])
            == 0x100_0000 * (buf[at] as int) + 0x1_0000 * (buf[at + 1] as int) + 0x100 * (buf[at + 2] as int)
               + buf[at + 3]
  {
    SpellTwo(buf, at);
    assert buf[at..at + 3][..2] == buf[at..at + 2];
    assert buf[at..at + 4][..3] == buf[at..at + 3];
  }
}
