/** The builder that writes an encoded map into a caller's buffer. */
module CborBuilder {
  import opened Words
  import opened BigEndians
  import opened Status
  import opened CborHead
  import opened CborReader
  import opened CborMap

  /** Bytes put one at a time: what does not fit is cut off. */
  function Filled(c: seq<byte>, cap: nat, bs: seq<byte>): (r: seq<byte>)
    requires |c| <= cap
    ensures |r| <= cap
  {
    if |c| + |bs| <= cap then c + bs else c + bs[..cap - |c|]
  }

  function Room(c: seq<byte>, cap: nat, bs: seq<byte>): u32 {
    if |c| + |bs| <= cap then OK else ERR_RESPONSE_TOO_SMALL
  }

  lemma FilledTwice(c: seq<byte>, cap: nat, x: seq<byte>, y: seq<byte>)
    requires |c| <= cap
    ensures Filled(Filled(c, cap, x), cap, y) == Filled(c, cap, x + y)
    ensures Room(c, cap, x) == OK ==> Room(Filled(c, cap, x), cap, y) == Room(c, cap, x + y)
    ensures Room(c, cap, x) != OK ==> Room(c, cap, x + y) != OK && Filled(c, cap, x) == Filled(c, cap, x + y)
  {
  }

  /** An entry whose payload is copied in one piece, or not at all. */
  function EntryFilled(c: seq<byte>, cap: nat, e: Entry): (r: seq<byte>)
    requires |c| <= cap && Sized(e.field)
    ensures |r| <= cap
  {
    match e.field
    case Blob(data) =>
      if |c| + |EntryBytes(e)| <= cap then c + EntryBytes(e)
      else Filled(c, cap, HeadBytes(UNSIGNED, e.key) + HeadBytes(BYTES, |data|))
    case Str(text) =>
      if |c| + |EntryBytes(e)| <= cap then c + EntryBytes(e)
      else Filled(c, cap, HeadBytes(UNSIGNED, e.key) + HeadBytes(TEXT, |text|))
    case _ => Filled(c, cap, EntryBytes(e))
  }

  /** Heads byte by byte, then the payload in one piece. */
  lemma ChunkFilled(c: seq<byte>, cap: nat, key: u32, major: byte, value: seq<byte>)
    requires |c| <= cap && |value| <= MAX_U32 && (major == BYTES || major == TEXT)
    ensures var e := Entry(key, if major == BYTES then Blob(value) else Str(value));
            var heads := HeadBytes(UNSIGNED, key) + HeadBytes(major, |value|);
            var c1 := Filled(c, cap, heads);
            if Room(c, cap, heads) == OK then
              && Room(c, cap, EntryBytes(e)) == Room(c1, cap, value)
              && EntryFilled(c, cap, e) == if Room(c1, cap, value) == OK then c1 + value else c1
            else Room(c, cap, EntryBytes(e)) == Room(c, cap, heads) && EntryFilled(c, cap, e) == c1
  {
    hide HeadBytes;
    var heads := HeadBytes(UNSIGNED, key) + HeadBytes(major, |value|);
    assert HeadBytes(UNSIGNED, key) + (HeadBytes(major, |value|) + value) == heads + value;
    assert c + (heads + value) == c + heads + value;
  }

  class Builder {
    const buf: array<byte>
    var len: u32

    predicate Valid()
      reads this
    {
      len <= buf.Length <= MAX_U32
    }

    function Contents(): seq<byte>
      requires Valid()
      reads this, buf
    {
      buf[..len]
    }

    constructor (buf: array<byte>)
      requires buf.Length <= MAX_U32
      ensures Valid() && this.buf == buf && Contents() == []
    {
      this.buf := buf;
      len := 0;
    }

    method PutU8(value: byte) returns (status: u32)
      requires Valid()
      modifies `len, buf
      ensures Valid()
      ensures status == Room(old(Contents()), buf.Length, [value])
      ensures Contents() == Filled(old(Contents()), buf.Length, [value])
    {
      if len >= buf.Length { return ERR_RESPONSE_TOO_SMALL; }
      buf[len] := value;
      len := len + 1;
      status := OK;
    }

    method PutRaw(value: seq<byte>) returns (status: u32)
      requires Valid() && |value| <= MAX_U32
      modifies `len, buf
      ensures Valid()
      ensures status == Room(old(Contents()), buf.Length, value)
      ensures Contents() == if status == OK then old(Contents()) + value else old(Contents())
    {
      if |value| > buf.Length || len > buf.Length - |value| { return ERR_RESPONSE_TOO_SMALL; }
      if |value| != 0 {
        forall i | 0 <= i < |value| {
          buf[len + i] := value[i];
        }
        assert buf[..len] == old(buf[..len]);
        assert buf[len..len + |value|] == value;
        len := len + |value|;
        assert buf[..len] == old(buf[..len]) + value;
      }
      status := OK;
    }

    /** The loop that puts the argument's bytes, most significant first. */
    method PutBigEndian(value: u64, n: nat) returns (status: u32)
      requires Valid()
      modifies `len, buf
      ensures Valid()
      ensures status == Room(old(Contents()), buf.Length, BigEndian(value, n))
      ensures Contents() == Filled(old(Contents()), buf.Length, BigEndian(value, n))
    {
      ghost var bs := BigEndian(value, n);
      assert old(Contents()) == old(Contents()) + bs[..0];
      for i := 0 to n
        invariant Valid()
        invariant |old(Contents())| + i <= buf.Length
        invariant Contents() == old(Contents()) + bs[..i]
      {
        BigEndianAt(value, n, i);
        assert bs[..i + 1] == bs[..i] + [bs[i]];
        status := PutU8(Shifted(value, n - 1 - i) % 0x100);
        if status != OK { return; }
      }
      status := OK;
    }

    method PutTypeValue(major: byte, value: u64) returns (status: u32)
      requires Valid() && major < 8
      modifies `len, buf
      ensures Valid()
      ensures status == Room(old(Contents()), buf.Length, HeadBytes(major, value))
      ensures Contents() == Filled(old(Contents()), buf.Length, HeadBytes(major, value))
    {
      var form := if value <= 23 then 0 else if value <= 0xff then 1 else if value <= 0xffff then 2
                  else if value <= 0xffff_ffff then 3 else 4;
      assert form == Shortest(value) && Fits(form, value);
      ghost var first := [Initial(major, form, value)];
      FilledTwice(Contents(), buf.Length, first, BigEndian(value, Extra(form)));
      hide BigEndian, Shifted, Fits, Filled, Power, Shortest;
      status := PutU8(32 * major + if form == 0 then value else 23 + form);
      if status != OK || form == 0 { return; }
      status := PutBigEndian(value, Extra(form));
    }

    method BeginMap(pairs: u32) returns (status: u32)
      requires Valid()
      modifies `len, buf
      ensures Valid()
      ensures status == Room(old(Contents()), buf.Length, HeadBytes(MAP, pairs))
      ensures Contents() == Filled(old(Contents()), buf.Length, HeadBytes(MAP, pairs))
    {
      status := PutTypeValue(MAP, pairs);
    }

    /** `wdc_cbor_put_key_u32` and `wdc_cbor_put_key_u64`. */
    method PutKeyUint(key: u32, value: u64) returns (status: u32)
      requires Valid()
      modifies `len, buf
      ensures Valid()
      ensures status == Room(old(Contents()), buf.Length, EntryBytes(Entry(key, Uint(value))))
      ensures Contents() == EntryFilled(old(Contents()), buf.Length, Entry(key, Uint(value)))
    {
      FilledTwice(Contents(), buf.Length, HeadBytes(UNSIGNED, key), HeadBytes(UNSIGNED, value));
      hide Filled, Room, HeadBytes;
      status := PutTypeValue(UNSIGNED, key);
      if status != OK { return; }
      status := PutTypeValue(UNSIGNED, value);
    }

    method PutKeyI32(key: u32, value: i32) returns (status: u32)
      requires Valid()
      modifies `len, buf
      ensures Valid()
      ensures status == Room(old(Contents()), buf.Length, EntryBytes(Entry(key, Int(value))))
      ensures Contents() == EntryFilled(old(Contents()), buf.Length, Entry(key, Int(value)))
    {
      FilledTwice(Contents(), buf.Length, HeadBytes(UNSIGNED, key), FieldBytes(Int(value)));
      hide Filled, Room, HeadBytes;
      status := PutTypeValue(UNSIGNED, key);
      if status != OK { return; }
      if value >= 0 {
        status := PutTypeValue(UNSIGNED, value);
      } else {
        status := PutTypeValue(NEGATIVE, -1 - value);
      }
    }

    method PutKeyBool(key: u32, value: bool) returns (status: u32)
      requires Valid()
      modifies `len, buf
      ensures Valid()
      ensures status == Room(old(Contents()), buf.Length, EntryBytes(Entry(key, Flag(value))))
      ensures Contents() == EntryFilled(old(Contents()), buf.Length, Entry(key, Flag(value)))
    {
      FilledTwice(Contents(), buf.Length, HeadBytes(UNSIGNED, key), FieldBytes(Flag(value)));
      hide Filled, Room, HeadBytes;
      status := PutTypeValue(UNSIGNED, key);
      if status != OK { return; }
      status := PutU8(if value then SIMPLE_TRUE else SIMPLE_FALSE);
    }

    method PutKeyBytes(key: u32, value: seq<byte>) returns (status: u32)
      requires Valid() && |value| <= MAX_U32
      modifies `len, buf
      ensures Valid()
      ensures status == Room(old(Contents()), buf.Length, EntryBytes(Entry(key, Blob(value))))
      ensures Contents() == EntryFilled(old(Contents()), buf.Length, Entry(key, Blob(value)))
    {
      status := PutChunk(key, BYTES, value);
    }

    /** The text is given without its terminating zero. */
    method PutKeyText(key: u32, value: seq<byte>) returns (status: u32)
      requires Valid() && |value| <= MAX_U32
      modifies `len, buf
      ensures Valid()
      ensures status == Room(old(Contents()), buf.Length, EntryBytes(Entry(key, Str(value))))
      ensures Contents() == EntryFilled(old(Contents()), buf.Length, Entry(key, Str(value)))
    {
      status := PutChunk(key, TEXT, value);
    }

    method PutChunk(key: u32, major: byte, value: seq<byte>) returns (status: u32)
      requires Valid() && |value| <= MAX_U32 && (major == BYTES || major == TEXT)
      modifies `len, buf
      ensures Valid()
      ensures var e := Entry(key, if major == BYTES then Blob(value) else Str(value));
              status == Room(old(Contents()), buf.Length, EntryBytes(e)) &&
              Contents() == EntryFilled(old(Contents()), buf.Length, e)
    {
      FilledTwice(Contents(), buf.Length, HeadBytes(UNSIGNED, key), HeadBytes(major, |value|));
      ChunkFilled(Contents(), buf.Length, key, major, value);
      hide HeadBytes, FieldBytes, EntryBytes, EntryFilled, Filled, Room;
      status := PutTypeValue(UNSIGNED, key);
      if status != OK { return; }
      status := PutTypeValue(major, |value|);
      if status != OK { return; }
      status := PutRaw(value);
    }
  }

  // ---- a whole map: the head, then one put after the other while nothing failed

  lemma {:induction false} EntriesAppend(x: seq<Entry>, y: seq<Entry>)
    requires AllSized(x) && AllSized(y)
    ensures EntriesBytes(x + y) == EntriesBytes(x) + EntriesBytes(y)
    decreases |x|
  {
    hide EntryBytes, Sized;
    if x == [] {
      assert x + y == y;
    } else {
      assert (x + y)[1..] == x[1..] + y;
      EntriesAppend(x[1..], y);
    }
  }

  lemma OneEntry(e: Entry)
    requires Sized(e.field)
    ensures EntriesBytes([e]) == EntryBytes(e)
  {
    assert [e][1..] == [];
    hide EntryBytes;
  }

  /** How far a run of puts has come: all written so far, or already more than fits. */
  predicate Progress(status: u32, c: seq<byte>, cap: nat, head: seq<byte>, es: seq<Entry>) {
    AllSized(es) &&
    if status == OK then c == head + EntriesBytes(es)
    else status == ERR_RESPONSE_TOO_SMALL && |head + EntriesBytes(es)| > cap
  }

  lemma NextEntry(head: seq<byte>, es: seq<Entry>, e: Entry)
    requires AllSized(es) && Sized(e.field)
    ensures AllSized(es + [e])
    ensures head + EntriesBytes(es + [e]) == head + EntriesBytes(es) + EntryBytes(e)
  {
    EntriesAppend(es, [e]);
    OneEntry(e);
    hide EntryBytes, Sized, EntriesBytes;
  }

  lemma StartsWith(status: u32, c: seq<byte>, cap: nat, head: seq<byte>)
    requires status == Room([], cap, head) && c == Filled([], cap, head)
    ensures Progress(status, c, cap, head, [])
  {
  }

  lemma ProgressDone(status: u32, c: seq<byte>, cap: nat, head: seq<byte>, es: seq<Entry>)
    requires Progress(status, c, cap, head, es) && |c| <= cap
    ensures AllSized(es)
    ensures status == if |head + EntriesBytes(es)| <= cap then OK else ERR_RESPONSE_TOO_SMALL
    ensures status == OK ==> c == head + EntriesBytes(es)
  {
    hide EntriesBytes;
  }

  /** `if (status == WDC_OK) { status = wdc_cbor_put_key_...; }` */
  method PutNext(b: Builder, before: u32, e: Entry, ghost head: seq<byte>, ghost es: seq<Entry>) returns (status: u32)
    requires b.Valid() && Sized(e.field)
    requires Progress(before, b.Contents(), b.buf.Length, head, es)
    modifies b`len, b.buf
    ensures b.Valid() && Progress(status, b.Contents(), b.buf.Length, head, es + [e])
  {
    NextEntry(head, es, e);
    hide EntryBytes, EntriesBytes;
    status := before;
    if status == OK {
      match e.field
      case Uint(u) => status := b.PutKeyUint(e.key, u);
      case Int(x) => status := b.PutKeyI32(e.key, x);
      case Flag(v) => status := b.PutKeyBool(e.key, v);
      case Blob(data) => status := b.PutKeyBytes(e.key, data);
      case Str(text) => status := b.PutKeyText(e.key, text);
    }
  }

  /** Any map written by the builder is its encoding, fits exactly when that fits, and gives every value back. */
  method WriteMap(b: Builder, es: seq<Entry>) returns (status: u32)
    requires b.Valid() && b.Contents() == [] && AllSized(es) && |es| <= MAX_ENTRIES
    modifies b`len, b.buf
    ensures b.Valid()
    ensures status == if |MapBytes(es)| <= b.buf.Length then OK else ERR_RESPONSE_TOO_SMALL
    ensures status == OK ==> b.Contents() == MapBytes(es) && IsEmptyOrMap(b.Contents())
    ensures status == OK ==> forall key :: Finds(b.Contents(), Find(b.Contents(), key), Lookup(es, key))
    ensures status == OK && DistinctKeys(es) ==> forall i :: 0 <= i < |es| ==> GivesBack(b.Contents(), es[i])
  {
    hide EntriesBytes, HeadBytes, Progress, Room, Filled, Finds, GivesBack, Sized, Find, Lookup;
    ghost var head := HeadBytes(MAP, |es|);
    status := b.BeginMap(|es|);
    StartsWith(status, b.Contents(), b.buf.Length, head);
    assert es[..0] == [];
    for i := 0 to |es|
      invariant b.Valid() && Progress(status, b.Contents(), b.buf.Length, head, es[..i])
    {
      assert es[..i + 1] == es[..i] + [es[i]];
      status := PutNext(b, status, es[i], head, es[..i]);
    }
    assert es[..|es|] == es;
    ProgressDone(status, b.Contents(), b.buf.Length, head, es);
    WrittenGivesBack(es);
  }

  lemma WrittenGivesBack(es: seq<Entry>)
    requires AllSized(es) && |es| <= MAX_ENTRIES
    ensures IsEmptyOrMap(MapBytes(es))
    ensures forall key :: Finds(MapBytes(es), Find(MapBytes(es), key), Lookup(es, key))
    ensures DistinctKeys(es) ==> forall i :: 0 <= i < |es| ==> GivesBack(MapBytes(es), es[i])
  {
    hide MapBytes, AllSized, Finds, GivesBack, Find, Lookup, IsEmptyOrMap;
    WrittenIsMap(es);
    forall key: u32
      ensures Finds(MapBytes(es), Find(MapBytes(es), key), Lookup(es, key))
    {
      FindsWritten(es, key);
    }
    if DistinctKeys(es) {
      forall i | 0 <= i < |es|
        ensures GivesBack(MapBytes(es), es[i])
      {
        FindsEach(es, i);
      }
    }
  }
}
