/** The A/B slot metadata block: its fields, its memory image, its seal, and slot verification. */
module BundleMetadata {
  import opened Words
  import opened Status
  import Crc32

  const MAGIC: u32 := 0x5744434d
  const VERSION: u16 := 1

  const SLOT_NONE: u32 := 0
  const SLOT_A: u32 := 1
  const SLOT_B: u32 := 2

  const EMPTY: u32 := 0
  const VERIFIED: u32 := 2
  const PENDING: u32 := 3
  const RUNNING_PENDING: u32 := 4
  const CONFIRMED: u32 := 5
  const FAILED: u32 := 6

  type Sha = h: seq<u32> | |h| == 8 witness [0, 0, 0, 0, 0, 0, 0, 0]

  datatype SlotRecord = SlotRecord(state: u32, version: u32, counter: u64, sha: Sha)

  datatype Metadata = Metadata(
    magic: u32, version: u16, reserved: u16,
    active: u32, lastGood: u32,
    a: SlotRecord, b: SlotRecord,
    boots: u32, faults: u32, reason: u32, generation: u32, crc: u32,
    padding: u32)

  predicate IsSlot(slot: u32) {
    slot == SLOT_A || slot == SLOT_B
  }

  function Record(m: Metadata, slot: u32): SlotRecord
    requires IsSlot(slot)
  {
    if slot == SLOT_A then m.a else m.b
  }

  function WithRecord(m: Metadata, slot: u32, r: SlotRecord): Metadata
    requires IsSlot(slot)
  {
    if slot == SLOT_A then m.(a := r) else m.(b := r)
  }

  function WithState(m: Metadata, slot: u32, state: u32): Metadata
    requires IsSlot(slot)
  {
    WithRecord(m, slot, Record(m, slot).(state := state))
  }

  predicate InState(m: Metadata, slot: u32, state: u32) {
    IsSlot(slot) && Record(m, slot).state == state
  }

  // ---- memory image: 34 words, 136 bytes, with the tail padding that the 8-byte alignment adds

  function Low(x: u64): u32 { x % 0x1_0000_0000 }
  function High(x: u64): u32 { x / 0x1_0000_0000 }
  function Join(lo: u32, hi: u32): u64 { lo + 0x1_0000_0000 * hi }
  function PackHalves(lo: u16, hi: u16): u32 { lo + 0x1_0000 * hi }
  function LowHalf(x: u32): u16 { x % 0x1_0000 }
  function HighHalf(x: u32): u16 { x / 0x1_0000 }

  function SlotWords(s: SlotRecord): (ws: seq<u32>)
    ensures |ws| == 12
  {
    [s.state, s.version, Low(s.counter), High(s.counter)] + s.sha
  }

  function Image(m: Metadata): (ws: seq<u32>)
    ensures |ws| == 34
  {
    [m.magic, PackHalves(m.version, m.reserved), m.active, m.lastGood]
    + SlotWords(m.a) + SlotWords(m.b)
    + [m.boots, m.faults, m.reason, m.generation, m.crc, m.padding]
  }

  function SlotOf(ws: seq<u32>): SlotRecord
    requires |ws| == 12
  {
    SlotRecord(ws[0], ws[1], Join(ws[2], ws[3]), ws[4..])
  }

  /** The metadata that 34 words of memory hold. */
  function Of(ws: seq<u32>): Metadata
    requires |ws| == 34
  {
    Metadata(ws[0], LowHalf(ws[1]), HighHalf(ws[1]), ws[2], ws[3],
             SlotOf(ws[4..16]), SlotOf(ws[16..28]),
             ws[28], ws[29], ws[30], ws[31], ws[32], ws[33])
  }

  lemma SlotOfSlotWords(s: SlotRecord)
    ensures SlotOf(SlotWords(s)) == s
  {
    assert SlotWords(s)[4..] == s.sha;
  }

  lemma SlotWordsOfSlot(ws: seq<u32>)
    requires |ws| == 12
    ensures SlotWords(SlotOf(ws)) == ws
  {
  }

  /** Every image of 34 words is that of the block it holds. */
  lemma ImageOf(ws: seq<u32>)
    requires |ws| == 34
    ensures Image(Of(ws)) == ws
  {
    SlotWordsOfSlot(ws[4..16]);
    SlotWordsOfSlot(ws[16..28]);
    hide SlotWords, SlotOf;
    assert PackHalves(LowHalf(ws[1]), HighHalf(ws[1])) == ws[1];
  }

  lemma OfImage(m: Metadata)
    ensures Of(Image(m)) == m
  {
    SlotOfSlotWords(m.a);
    SlotOfSlotWords(m.b);
    hide SlotWords, SlotOf;
    assert Image(m)[4..16] == SlotWords(m.a);
    assert Image(m)[16..28] == SlotWords(m.b);
  }

  // ---- seal

  /** `wdc_bundle_metadata_crc32`: the checksum of the image with the checksum field zeroed. */
  function Checksum(m: Metadata): u32 {
    Crc32.Checksum(Expand(Image(m.(crc := 0))))
  }

  function Seal(m: Metadata): Metadata {
    m.(crc := Checksum(m))
  }

  function Validate(m: Metadata): u32 {
    if m.magic != MAGIC || m.version != VERSION then ERR_BAD_ENCODING
    else if m.crc == Checksum(m) then OK else ERR_CONTRACT_VIOLATION
  }

  predicate Valid(m: Metadata) {
    Validate(m) == OK
  }

  const BLANK_SLOT := SlotRecord(EMPTY, 0, 0, [0, 0, 0, 0, 0, 0, 0, 0])

  /** `wdc_bundle_metadata_init`. */
  function Init(): Metadata {
    Seal(Metadata(MAGIC, VERSION, 0, SLOT_NONE, SLOT_NONE, BLANK_SLOT, BLANK_SLOT, 0, 0, 0, 0, 0, 0))
  }

  lemma SealIsValid(m: Metadata)
    requires m.magic == MAGIC && m.version == VERSION
    ensures Valid(Seal(m))
  {
    assert m.(crc := 0) == Seal(m).(crc := 0);
  }

  lemma SealIdempotent(m: Metadata)
    ensures Seal(Seal(m)) == Seal(m)
    ensures Valid(m) ==> Seal(m) == m
  {
    assert m.(crc := 0) == Seal(m).(crc := 0);
  }

  /** A block validates exactly when it has the right magic and version and sealing it changes nothing. */
  lemma ValidIsSealed(m: Metadata)
    ensures Valid(m) <==> m.magic == MAGIC && m.version == VERSION && Seal(m) == m
  {
    assert m.(crc := 0) == Seal(m).(crc := 0);
  }

  // ---- slot verification and the security floor

  /** What a bundle check leaves behind for the slot record. */
  datatype VerifyResult = VerifyResult(
    status: u32, payloadHashOk: bool, version: u32, counter: u64, sha: Sha)

  function MarkVerified(m: Metadata, slot: u32, v: VerifyResult): (u32, Metadata) {
    if v.status != OK || !v.payloadHashOk then (ERR_INVALID_STATE, m)
    else if !IsSlot(slot) then (ERR_INVALID_RESOURCE, m)
    else
      var m' := WithRecord(m, slot, SlotRecord(VERIFIED, v.version, v.counter, v.sha));
      (OK, Seal(m'.(generation := Next(m.generation))))
  }

  function Max(x: u64, y: u64): u64 { if x > y then x else y }

  /** `wdc_security_metadata_security_floor`: the largest counter of any slot that is not empty. */
  function SecurityFloor(m: Metadata): u64 {
    var f := if m.a.state != EMPTY then Max(0, m.a.counter) else 0;
    if m.b.state != EMPTY then Max(f, m.b.counter) else f
  }

  /** The metadata struct that the firmware updates through a pointer. */
  class MetadataBlock {
    var magic: u32
    var version: u16
    var reserved: u16
    var active: u32
    var lastGood: u32
    var a: SlotRecord
    var b: SlotRecord
    var boots: u32
    var faults: u32
    var reason: u32
    var generation: u32
    var crc: u32
    var padding: u32

    function Value(): Metadata
      reads this
    {
      Metadata(magic, version, reserved, active, lastGood, a, b, boots, faults, reason, generation, crc, padding)
    }

    constructor (m: Metadata)
      ensures Value() == m
    {
      magic, version, reserved := m.magic, m.version, m.reserved;
      active, lastGood, a, b := m.active, m.lastGood, m.a, m.b;
      boots, faults, reason := m.boots, m.faults, m.reason;
      generation, crc, padding := m.generation, m.crc, m.padding;
    }

    method SetState(slot: u32, state: u32)
      requires IsSlot(slot)
      modifies `a, `b
      ensures Value() == WithState(old(Value()), slot, state)
    {
      if slot == SLOT_A { a := a.(state := state); } else { b := b.(state := state); }
    }

    method DoSeal()
      modifies `crc
      ensures Value() == Seal(old(Value()))
    {
      crc := 0;
      crc := Checksum(Value());
    }

    method DoMarkVerified(slot: u32, v: VerifyResult) returns (status: u32)
      modifies this
      ensures (status, Value()) == MarkVerified(old(Value()), slot, v)
    {
      hide Checksum;
      if v.status != OK || !v.payloadHashOk { return ERR_INVALID_STATE; }
      if !IsSlot(slot) { return ERR_INVALID_RESOURCE; }
      SetState(slot, VERIFIED);
      if slot == SLOT_A {
        a := a.(version := v.version, counter := v.counter, sha := v.sha);
      } else {
        b := b.(version := v.version, counter := v.counter, sha := v.sha);
      }
      generation := Next(generation);
      DoSeal();
      status := OK;
    }
  }
}
