/** The event envelope: a CBOR map with four fixed entries and two optional ones. */
module EventEnvelope {
  import opened Words
  import opened BigEndians
  import opened Status
  import opened CborHead
  import opened CborReader
  import opened CborMap
  import opened CborBuilder

  const KEY_RESOURCE_ID: u32 := 3
  const KEY_ABI_VERSION: u32 := 12
  const KEY_EVENT_TYPE: u32 := 13
  const KEY_EVENT_ID: u32 := 14
  const KEY_TIMESTAMP_MS: u32 := 15
  const KEY_PAYLOAD: u32 := 16

  const ABI_MAJOR: u32 := 1
  const EVENT_ABI_VERSION: u32 := 0x1_0000
  const PAYLOAD_MAX := 128
  const RESOURCE_NONE: u32 := 0
  const LONGEST := 166
  const MAX_EVENT_BYTES := 2048

  datatype Event = Event(
    abiMajor: u32, eventType: u32, id: u32, resource: u32, timestamp: u64, payload: seq<byte>)

  function EventEntries(e: Event): (es: seq<Entry>)
    ensures |es| <= 6
  {
    FixedEntries(e)
    + (if e.resource != RESOURCE_NONE then [Entry(KEY_RESOURCE_ID, Uint(e.resource))] else [])
    + (if e.payload != [] then [Entry(KEY_PAYLOAD, Blob(e.payload))] else [])
  }

  function Envelope(e: Event): seq<byte>
    requires |e.payload| <= PAYLOAD_MAX
  {
    MapBytes(EventEntries(e))
  }

  function FixedEntries(e: Event): seq<Entry> {
    [Entry(KEY_ABI_VERSION, Uint(EVENT_ABI_VERSION)), Entry(KEY_EVENT_TYPE, Uint(e.eventType)),
     Entry(KEY_EVENT_ID, Uint(e.id)), Entry(KEY_TIMESTAMP_MS, Uint(e.timestamp))]
  }

  /** The four entries that every envelope has. */
  method PutFixed(b: Builder, before: u32, e: Event, ghost head: seq<byte>) returns (status: u32)
    requires b.Valid() && Progress(before, b.Contents(), b.buf.Length, head, [])
    modifies b`len, b.buf
    ensures b.Valid() && Progress(status, b.Contents(), b.buf.Length, head, FixedEntries(e))
  {
    hide Progress;
    ghost var es := FixedEntries(e);
    assert es[..1] == [] + [es[0]] && es[..2] == es[..1] + [es[1]];
    assert es[..3] == es[..2] + [es[2]] && es == es[..3] + [es[3]];
    status := PutNext(b, before, Entry(KEY_ABI_VERSION, Uint(EVENT_ABI_VERSION)), head, []);
    status := PutNext(b, status, Entry(KEY_EVENT_TYPE, Uint(e.eventType)), head, es[..1]);
    status := PutNext(b, status, Entry(KEY_EVENT_ID, Uint(e.id)), head, es[..2]);
    status := PutNext(b, status, Entry(KEY_TIMESTAMP_MS, Uint(e.timestamp)), head, es[..3]);
  }

  /** The two entries that are left out when they are empty. */
  method PutOptional(b: Builder, before: u32, e: Event, ghost head: seq<byte>) returns (status: u32)
    requires b.Valid() && |e.payload| <= PAYLOAD_MAX
    requires Progress(before, b.Contents(), b.buf.Length, head, FixedEntries(e))
    modifies b`len, b.buf
    ensures b.Valid() && Progress(status, b.Contents(), b.buf.Length, head, EventEntries(e))
  {
    hide Progress;
    ghost var es := FixedEntries(e);
    status := before;
    if e.resource != RESOURCE_NONE {
      status := PutNext(b, status, Entry(KEY_RESOURCE_ID, Uint(e.resource)), head, es);
      es := es + [Entry(KEY_RESOURCE_ID, Uint(e.resource))];
    }
    if e.payload != [] {
      status := PutNext(b, status, Entry(KEY_PAYLOAD, Blob(e.payload)), head, es);
      es := es + [Entry(KEY_PAYLOAD, Blob(e.payload))];
    }
    assert es == EventEntries(e);
  }

  /** `wdc_event_encode_cbor`. */
  method Encode(e: Event, out: array<byte>) returns (status: u32, len: u32)
    requires out.Length <= MAX_U32
    modifies out
    ensures |e.payload| > PAYLOAD_MAX ==> status == ERR_BAD_LENGTH && out[..] == old(out[..])
    ensures |e.payload| <= PAYLOAD_MAX ==>
              status == if |Envelope(e)| <= out.Length then OK else ERR_RESPONSE_TOO_SMALL
    ensures status == OK ==> |e.payload| <= PAYLOAD_MAX && len <= out.Length && out[..len] == Envelope(e)
    ensures status != OK ==> len == 0
  {
    if |e.payload| > PAYLOAD_MAX { return ERR_BAD_LENGTH, 0; }
    hide Envelope;
    var b := new Builder(out);
    status := Fill(b, e);
    len := if status == OK then b.len else 0;
  }

  method Fill(b: Builder, e: Event) returns (status: u32)
    requires b.Valid() && b.Contents() == [] && |e.payload| <= PAYLOAD_MAX
    modifies b`len, b.buf
    ensures b.Valid()
    ensures status == if |Envelope(e)| <= b.buf.Length then OK else ERR_RESPONSE_TOO_SMALL
    ensures status == OK ==> b.Contents() == Envelope(e)
  {
    var pairs := 4 + (if e.resource != RESOURCE_NONE then 1 else 0) + (if e.payload != [] then 1 else 0);
    hide EntriesBytes, HeadBytes, Envelope, EventEntries, FixedEntries, Progress, Room, Filled;
    EnvelopeShape(e, pairs);
    ghost var head := HeadBytes(MAP, pairs);
    status := b.BeginMap(pairs);
    StartsWith(status, b.Contents(), b.buf.Length, head);
    status := PutFixed(b, status, e, head);
    status := PutOptional(b, status, e, head);
    ProgressDone(status, b.Contents(), b.buf.Length, head, EventEntries(e));
  }

  lemma EnvelopeShape(e: Event, pairs: u32)
    requires |e.payload| <= PAYLOAD_MAX
    requires pairs == 4 + (if e.resource != RESOURCE_NONE then 1 else 0) + (if e.payload != [] then 1 else 0)
    ensures Envelope(e) == HeadBytes(MAP, pairs) + EntriesBytes(EventEntries(e))
  {
    hide EntriesBytes, HeadBytes;
  }

  /** `wdc_event_decode_envelope`. */
  function Decode(buf: seq<byte>): Result<Event> {
    if !IsEmptyOrMap(buf) then Err(ERR_BAD_ENCODING)
    else
      var version := FindU32(buf, KEY_ABI_VERSION);
      var eventType, id := FindU32(buf, KEY_EVENT_TYPE), FindU32(buf, KEY_EVENT_ID);
      var timestamp := FindU64(buf, KEY_TIMESTAMP_MS);
      var resource := FindU32(buf, KEY_RESOURCE_ID);
      var payload := FindPayload(buf, KEY_PAYLOAD, BYTES);
      if version.Err? then Err(ERR_BAD_ENCODING)
      else if version.value != EVENT_ABI_VERSION then Err(ERR_UNSUPPORTED_ABI)
      else if eventType.Err? || id.Err? || timestamp.Err? then Err(ERR_BAD_ENCODING)
      else if resource.Err? && resource.status != ERR_NOT_AVAILABLE then Err(ERR_BAD_ENCODING)
      else if payload.Err? && payload.status != ERR_NOT_AVAILABLE then Err(ERR_BAD_ENCODING)
      else if payload.Ok? && |payload.value| > PAYLOAD_MAX then Err(ERR_BAD_LENGTH)
      else
        Ok(Event(ABI_MAJOR, eventType.value, id.value,
                 if resource.Ok? then resource.value else RESOURCE_NONE, timestamp.value,
                 if payload.Ok? then payload.value else []))
  }

  lemma {:induction false} LookupAbsent(es: seq<Entry>, key: u32)
    requires forall i :: 0 <= i < |es| ==> es[i].key != key
    ensures Lookup(es, key) == Err(ERR_NOT_AVAILABLE)
    decreases |es|
  {
    if es != [] {
      LookupAbsent(es[1..], key);
    }
  }

  /** Where each value of an event is found among its entries. */
  lemma EventLookup(e: Event)
    ensures var es := EventEntries(e);
            && Lookup(es, KEY_ABI_VERSION) == Ok(Uint(EVENT_ABI_VERSION))
            && Lookup(es, KEY_EVENT_TYPE) == Ok(Uint(e.eventType))
            && Lookup(es, KEY_EVENT_ID) == Ok(Uint(e.id))
            && Lookup(es, KEY_TIMESTAMP_MS) == Ok(Uint(e.timestamp))
            && Lookup(es, KEY_RESOURCE_ID)
               == (if e.resource != RESOURCE_NONE then Ok(Uint(e.resource)) else Err(ERR_NOT_AVAILABLE))
            && Lookup(es, KEY_PAYLOAD)
               == (if e.payload != [] then Ok(Blob(e.payload)) else Err(ERR_NOT_AVAILABLE))
  {
    var es := EventEntries(e);
    LookupDistinct(es, 0);
    LookupDistinct(es, 1);
    LookupDistinct(es, 2);
    LookupDistinct(es, 3);
    if e.resource != RESOURCE_NONE { LookupDistinct(es, 4); } else { LookupAbsent(es, KEY_RESOURCE_ID); }
    if e.payload != [] { LookupDistinct(es, |es| - 1); } else { LookupAbsent(es, KEY_PAYLOAD); }
    hide Lookup;
  }

  // ---- what the entries of an envelope say

  function Number32(r: Result<Field>): Result<u32> {
    match r case Ok(f) => U32Of(f) case Err(status) => Err(status)
  }

  function Number64(r: Result<Field>): Result<u64> {
    match r case Ok(f) => U64Of(f) case Err(status) => Err(status)
  }

  function Data(r: Result<Field>): Result<seq<byte>> {
    match r case Ok(f) => BytesOf(f) case Err(status) => Err(status)
  }

  /** The first entry under the key is this number, of 32 bits. */
  predicate Says(es: seq<Entry>, key: u32, u: u32) {
    Number32(Lookup(es, key)) == Ok(u)
  }

  predicate Absent(es: seq<Entry>, key: u32) {
    Lookup(es, key) == Err(ERR_NOT_AVAILABLE)
  }

  /** The entries say all of the event but its payload. */
  predicate SaysEvent(es: seq<Entry>, e: Event) {
    && e.abiMajor == ABI_MAJOR && Says(es, KEY_ABI_VERSION, EVENT_ABI_VERSION)
    && Says(es, KEY_EVENT_TYPE, e.eventType) && Says(es, KEY_EVENT_ID, e.id)
    && Number64(Lookup(es, KEY_TIMESTAMP_MS)) == Ok(e.timestamp)
    && if Absent(es, KEY_RESOURCE_ID) then e.resource == RESOURCE_NONE else Says(es, KEY_RESOURCE_ID, e.resource)
  }

  predicate SaysPayload(es: seq<Entry>, data: seq<byte>) {
    if Absent(es, KEY_PAYLOAD) then data == [] else Data(Lookup(es, KEY_PAYLOAD)) == Ok(data)
  }

  lemma Reads(es: seq<Entry>, key: u32)
    requires AllSized(es) && |es| <= MAX_ENTRIES
    ensures var buf, r := MapBytes(es), Lookup(es, key);
            && FindU32(buf, key) == Number32(r) && FindU64(buf, key) == Number64(r)
            && FindPayload(buf, key, BYTES) == Data(r)
            && (Absent(es, key) <==> Number32(r) == Err(ERR_NOT_AVAILABLE))
            && (Absent(es, key) <==> Data(r) == Err(ERR_NOT_AVAILABLE))
  {
    FindersOnWritten(es, key);
    FailsAbsent(es, key);
    hide MapBytes, Lookup, FindU32, FindU64, FindI32, FindBool, FindPayload;
  }

  lemma {:induction false} FailsAbsent(es: seq<Entry>, key: u32)
    ensures Lookup(es, key).Err? ==> Absent(es, key)
    decreases |es|
  {
    if es != [] {
      FailsAbsent(es[1..], key);
    }
  }

  /** Decoding any entries gives exactly the event that they say, if its payload is at most 128 bytes. */
  lemma DecodesExactly(es: seq<Entry>, e: Event)
    requires AllSized(es) && |es| <= MAX_ENTRIES
    ensures Decode(MapBytes(es)) == Ok(e) <==>
              SaysEvent(es, e) && SaysPayload(es, e.payload) && |e.payload| <= PAYLOAD_MAX
  {
    WrittenIsMap(es);
    ReadsAll(es);
    hide MapBytes, Lookup, Number32, Number64, Data, FindU32, FindU64, FindPayload, IsEmptyOrMap, AllSized, Absent;
  }

  /** The entries say an event with a payload of more than 128 bytes. */
  ghost predicate SaysLong(es: seq<Entry>) {
    exists e: Event :: SaysEvent(es, e) && SaysPayload(es, e.payload) && |e.payload| > PAYLOAD_MAX
  }

  lemma LongRefused(es: seq<Entry>)
    requires AllSized(es) && |es| <= MAX_ENTRIES && SaysLong(es)
    ensures Decode(MapBytes(es)) == Err(ERR_BAD_LENGTH)
  {
    WrittenIsMap(es);
    ReadsAll(es);
    hide MapBytes, Lookup, Number32, Number64, Data, FindU32, FindU64, FindPayload, IsEmptyOrMap, AllSized, Absent;
  }

  lemma RefusedLong(es: seq<Entry>)
    requires AllSized(es) && |es| <= MAX_ENTRIES && Decode(MapBytes(es)) == Err(ERR_BAD_LENGTH)
    ensures SaysLong(es)
  {
    ReadsAll(es);
    hide MapBytes, Lookup, Number32, Number64, Data, FindU32, FindU64, FindPayload, IsEmptyOrMap, AllSized, Absent;
    var e := Event(ABI_MAJOR, Number32(Lookup(es, KEY_EVENT_TYPE)).value, Number32(Lookup(es, KEY_EVENT_ID)).value,
                   if Absent(es, KEY_RESOURCE_ID) then RESOURCE_NONE
                   else Number32(Lookup(es, KEY_RESOURCE_ID)).value,
                   Number64(Lookup(es, KEY_TIMESTAMP_MS)).value, Data(Lookup(es, KEY_PAYLOAD)).value);
    assert SaysEvent(es, e) && SaysPayload(es, e.payload);
  }

  /** Everything else is refused: for its version, for a payload that is only too long, or as badly encoded. */
  lemma RefusesExactly(es: seq<Entry>)
    requires AllSized(es) && |es| <= MAX_ENTRIES
    ensures var r, version := Decode(MapBytes(es)), Number32(Lookup(es, KEY_ABI_VERSION));
            && (r == Err(ERR_UNSUPPORTED_ABI) <==> version.Ok? && version.value != EVENT_ABI_VERSION)
            && (r == Err(ERR_BAD_LENGTH) <==> SaysLong(es))
            && (r.Err? ==> r.status in {ERR_UNSUPPORTED_ABI, ERR_BAD_LENGTH, ERR_BAD_ENCODING})
  {
    WrittenIsMap(es);
    ReadsAll(es);
    if SaysLong(es) {
      LongRefused(es);
    }
    if Decode(MapBytes(es)) == Err(ERR_BAD_LENGTH) {
      RefusedLong(es);
    }
    hide MapBytes, Lookup, Number32, Number64, Data, FindU32, FindU64, FindPayload, IsEmptyOrMap, AllSized, Absent,
         SaysLong;
  }

  lemma ReadsAll(es: seq<Entry>)
    requires AllSized(es) && |es| <= MAX_ENTRIES
    ensures var buf := MapBytes(es);
            && FindU32(buf, KEY_ABI_VERSION) == Number32(Lookup(es, KEY_ABI_VERSION))
            && FindU32(buf, KEY_EVENT_TYPE) == Number32(Lookup(es, KEY_EVENT_TYPE))
            && FindU32(buf, KEY_EVENT_ID) == Number32(Lookup(es, KEY_EVENT_ID))
            && FindU64(buf, KEY_TIMESTAMP_MS) == Number64(Lookup(es, KEY_TIMESTAMP_MS))
            && FindU32(buf, KEY_RESOURCE_ID) == Number32(Lookup(es, KEY_RESOURCE_ID))
            && FindPayload(buf, KEY_PAYLOAD, BYTES) == Data(Lookup(es, KEY_PAYLOAD))
    ensures Absent(es, KEY_RESOURCE_ID) <==> Number32(Lookup(es, KEY_RESOURCE_ID)) == Err(ERR_NOT_AVAILABLE)
    ensures Absent(es, KEY_PAYLOAD) <==> Data(Lookup(es, KEY_PAYLOAD)) == Err(ERR_NOT_AVAILABLE)
  {
    hide MapBytes, Lookup, Number32, Number64, Data, FindU32, FindU64, FindPayload, AllSized, Absent;
    Reads(es, KEY_ABI_VERSION);
    Reads(es, KEY_EVENT_TYPE);
    Reads(es, KEY_EVENT_ID);
    Reads(es, KEY_TIMESTAMP_MS);
    Reads(es, KEY_RESOURCE_ID);
    Reads(es, KEY_PAYLOAD);
  }

  /** Decoding an encoded event gives the event back; the ABI major number is always reported as 1. */
  lemma DecodeEncode(e: Event)
    requires |e.payload| <= PAYLOAD_MAX
    ensures Decode(Envelope(e)) == Ok(e.(abiMajor := ABI_MAJOR))
  {
    EventLookup(e);
    assert AllSized(EventEntries(e));
    hide Lookup, EventEntries, MapBytes, Decode, AllSized;
    DecodesExactly(EventEntries(e), e.(abiMajor := ABI_MAJOR));
  }

  lemma EntrySize(e: Entry)
    requires Sized(e.field) && e.key <= 23
    ensures e.field.Uint? ==> |EntryBytes(e)| <= if e.field.u <= MAX_U32 then 6 else 10
    ensures e.field.Blob? && |e.field.data| <= PAYLOAD_MAX ==> |EntryBytes(e)| <= 3 + |e.field.data|
  {
    hide BigEndian, Power;
  }

  /** No envelope is longer than 166 bytes, so the dispatcher's buffer is always large enough. */
  lemma EnvelopeFits(e: Event)
    requires |e.payload| <= PAYLOAD_MAX
    ensures |Envelope(e)| <= LONGEST < MAX_EVENT_BYTES
  {
    var es := EventEntries(e);
    assert |HeadBytes(MAP, |es|)| == 1;
    FixedSize(e);
    var fixed := FixedEntries(e);
    hide EntryBytes, HeadBytes, EntriesBytes, FixedEntries;
    SizeNext(fixed, Entry(KEY_RESOURCE_ID, Uint(e.resource)));
    SizeNext(fixed, Entry(KEY_PAYLOAD, Blob(e.payload)));
    SizeNext(fixed + [Entry(KEY_RESOURCE_ID, Uint(e.resource))], Entry(KEY_PAYLOAD, Blob(e.payload)));
    assert fixed + [] == fixed;
    var five := fixed + [Entry(KEY_RESOURCE_ID, Uint(e.resource))];
    assert five + [] == five;
  }

  lemma FixedSize(e: Event)
    ensures |EntriesBytes(FixedEntries(e))| <= 28
  {
    var es := FixedEntries(e);
    assert es[..2] == es[..1] + [es[1]] && es[..3] == es[..2] + [es[2]] && es == es[..3] + [es[3]];
    assert es[..1] == [es[0]];
    hide EntryBytes, EntriesBytes;
    OneEntry(es[0]);
    EntrySize(es[0]);
    SizeNext(es[..1], es[1]);
    SizeNext(es[..2], es[2]);
    SizeNext(es[..3], es[3]);
  }

  lemma SizeNext(es: seq<Entry>, e: Entry)
    requires AllSized(es) && Sized(e.field) && e.key <= 23
    ensures AllSized(es + [e])
    ensures e.field.Uint? ==> |EntriesBytes(es + [e])| <= |EntriesBytes(es)| + if e.field.u <= MAX_U32 then 6 else 10
    ensures e.field.Blob? && |e.field.data| <= PAYLOAD_MAX ==>
              |EntriesBytes(es + [e])| <= |EntriesBytes(es)| + 3 + |e.field.data|
  {
    NextEntry([], es, e);
    EntrySize(e);
    hide EntryBytes, EntriesBytes;
  }
}
