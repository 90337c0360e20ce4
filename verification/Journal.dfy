/** The two-record metadata journal: records in flash, selection, and the erase-then-write update. */
module Journal {
  import opened Words
  import opened Status
  import opened BundleMetadata
  import Crc32

  const RECORD_MAGIC: u32 := 0x57444a52
  const RECORD_VERSION: u16 := 1
  const COMMIT_MARKER: u32 := 0xc0deface
  const STRIDE: nat := 4096
  const RECORD_LEN: nat := 160
  const COVERED_LEN: nat := 152

  function Blank(n: nat): (s: seq<byte>)
    ensures |s| == n && forall i :: 0 <= i < n ==> s[i] == 0xff
  {
    seq(n, _ => 0xff)
  }

  type Sector = s: seq<byte> | |s| == STRIDE witness Blank(STRIDE)
  type RecordImage = s: seq<byte> | |s| == RECORD_LEN witness Blank(RECORD_LEN)

  datatype Flash = Flash(sector0: Sector, sector1: Sector)

  /** A record as the 40 words of its memory image; the word after the generation is alignment padding. */
  datatype JournalRecord = JournalRecord(
    magic: u32, version: u16, reserved: u16, generation: u32, gap: u32,
    metadata: Metadata, crc: u32, marker: u32)

  function RecordOf(image: RecordImage): JournalRecord {
    var ws := Collect(image);
    JournalRecord(ws[0], LowHalf(ws[1]), HighHalf(ws[1]), ws[2], ws[3], Of(ws[4..38]), ws[38], ws[39])
  }

  function RecordWords(r: JournalRecord): (ws: seq<u32>)
    ensures |ws| == 40
  {
    [r.magic, PackHalves(r.version, r.reserved), r.generation, r.gap] + Image(r.metadata) + [r.crc, r.marker]
  }

  function Store(r: JournalRecord): RecordImage {
    Expand(RecordWords(r))
  }

  /** `metadata_record_crc32`: the checksum and the marker count as zero. */
  function RecordChecksum(image: RecordImage): u32 {
    Crc32.Checksum(image[..COVERED_LEN] + [0, 0, 0, 0, 0, 0, 0, 0])
  }

  /** `metadata_record_from_metadata`. */
  function MakeRecord(m: Metadata): RecordImage {
    var open := JournalRecord(RECORD_MAGIC, RECORD_VERSION, 0, m.generation, 0xffff_ffff, Seal(m), 0, 0);
    Store(open.(crc := RecordChecksum(Store(open)), marker := COMMIT_MARKER))
  }

  predicate RecordValid(image: RecordImage) {
    var r := RecordOf(image);
    && r.magic == RECORD_MAGIC && r.version == RECORD_VERSION && r.marker == COMMIT_MARKER
    && r.crc == RecordChecksum(image)
    && Validate(r.metadata) == OK
    && r.generation == r.metadata.generation
  }

  function ImageOf(s: Sector): RecordImage {
    s[..RECORD_LEN]
  }

  predicate SectorValid(s: Sector) {
    RecordValid(ImageOf(s))
  }

  function MetadataOf(s: Sector): Metadata {
    RecordOf(ImageOf(s)).metadata
  }

  // ---- selection

  predicate HasRecord(f: Flash) {
    SectorValid(f.sector0) || SectorValid(f.sector1)
  }

  /** The index `select_best_metadata_record` reports; zero when no record is valid. */
  function BestIndex(f: Flash): nat {
    if !HasRecord(f) then 0
    else if SectorValid(f.sector0)
            && (!SectorValid(f.sector1) || MetadataOf(f.sector0).generation >= MetadataOf(f.sector1).generation)
    then 0 else 1
  }

  /** `wdc_ota_read_metadata`. */
  function Read(f: Flash): Metadata {
    if !HasRecord(f) then Init()
    else if BestIndex(f) == 0 then MetadataOf(f.sector0) else MetadataOf(f.sector1)
  }

  // ---- update

  /** Where an update stops: within the erase or within the write, after some bytes. */
  datatype Cut = InErase(done: nat) | InWrite(done: nat)

  datatype Fate = Complete | Interrupted(cut: Cut)

  predicate Landed(fate: Fate) {
    fate.Complete? || (fate.cut.InWrite? && fate.cut.done >= RECORD_LEN)
  }

  function Min(a: nat, b: nat): nat { if a < b then a else b }

  function CutErase(s: Sector, done: nat): Sector {
    Blank(Min(done, STRIDE)) + s[Min(done, STRIDE)..]
  }

  function CutWrite(s: Sector, r: RecordImage, done: nat): Sector {
    r[..Min(done, RECORD_LEN)] + s[Min(done, RECORD_LEN)..]
  }

  function UpdateSector(s: Sector, r: RecordImage, fate: Fate): Sector {
    match fate
    case Interrupted(InErase(done)) => CutErase(s, done)
    case Interrupted(InWrite(done)) => CutWrite(Blank(STRIDE), r, done)
    case Complete => CutWrite(Blank(STRIDE), r, RECORD_LEN)
  }

  function SectorAt(f: Flash, i: nat): Sector {
    if i == 0 then f.sector0 else f.sector1
  }

  function SetSector(f: Flash, i: nat, s: Sector): Flash {
    if i == 0 then f.(sector0 := s) else f.(sector1 := s)
  }

  function TargetIndex(f: Flash): nat {
    if HasRecord(f) && BestIndex(f) == 0 then 1 else 0
  }

  /** `wdc_ota_write_metadata`, with the point where the update may stop. */
  function Write(f: Flash, m: Metadata, fate: Fate): (u32, Flash) {
    if Read(f) == Seal(m) then (OK, f)
    else
      (if fate.Complete? then OK else ERR_IO,
       SetSector(f, TargetIndex(f), UpdateSector(SectorAt(f, TargetIndex(f)), MakeRecord(Seal(m)), fate)))
  }

  // ---- records

  lemma RecordOfStore(r: JournalRecord)
    ensures RecordOf(Store(r)) == r
  {
    CollectExpand(RecordWords(r));
    OfImage(r.metadata);
    hide Expand, Collect, Of, Image;
    assert RecordWords(r)[4..38] == Image(r.metadata);
  }

  lemma CoveredPart(r: JournalRecord, crc: u32, marker: u32)
    ensures Store(r)[..COVERED_LEN] == Store(r.(crc := crc, marker := marker))[..COVERED_LEN]
  {
    var ws, vs := RecordWords(r), RecordWords(r.(crc := crc, marker := marker));
    assert forall i :: 0 <= i < 38 ==> ws[i] == vs[i];
    hide RecordWords;
  }

  /** What is written is accepted exactly when the metadata carries the right magic and version. */
  lemma MadeRecord(m: Metadata)
    ensures RecordValid(MakeRecord(m)) <==> m.magic == MAGIC && m.version == VERSION
    ensures RecordOf(MakeRecord(m)).metadata == Seal(m)
  {
    var open := JournalRecord(RECORD_MAGIC, RECORD_VERSION, 0, m.generation, 0xffff_ffff, Seal(m), 0, 0);
    var r := open.(crc := RecordChecksum(Store(open)), marker := COMMIT_MARKER);
    RecordOfStore(r);
    CoveredPart(open, r.crc, r.marker);
    if m.magic == MAGIC && m.version == VERSION {
      SealIsValid(m);
    }
    hide Store, RecordOf, BundleMetadata.Checksum;
  }

  lemma HalvesPacked(x: u32)
    ensures PackHalves(LowHalf(x), HighHalf(x)) == x
  {
  }

  lemma StoreOfRecord(image: RecordImage)
    ensures Store(RecordOf(image)) == image
  {
    hide Expand, Collect, Of, Image, PackHalves, LowHalf, HighHalf;
    var ws := Collect(image);
    ExpandCollect(image);
    BundleMetadata.ImageOf(ws[4..38]);
    HalvesPacked(ws[1]);
    assert ws == ws[..4] + ws[4..38] + ws[38..];
    assert RecordWords(RecordOf(image)) == ws;
  }

  /** A sealed block in a record; two words of it are unused. */
  function Framed(m: Metadata, reserved: u16, gap: u32): RecordImage {
    var open := JournalRecord(RECORD_MAGIC, RECORD_VERSION, reserved, m.generation, gap, m, 0, 0);
    Store(open.(crc := RecordChecksum(Store(open)), marker := COMMIT_MARKER))
  }

  predicate Frames(image: RecordImage, m: Metadata, reserved: u16, gap: u32) {
    Valid(m) && image == Framed(m, reserved, gap)
  }

  lemma FramedRecord(m: Metadata, reserved: u16, gap: u32)
    ensures var open := JournalRecord(RECORD_MAGIC, RECORD_VERSION, reserved, m.generation, gap, m, 0, 0);
            var crc := RecordChecksum(Store(open));
            && RecordOf(Framed(m, reserved, gap)) == open.(crc := crc, marker := COMMIT_MARKER)
            && RecordChecksum(Framed(m, reserved, gap)) == crc
  {
    var open := JournalRecord(RECORD_MAGIC, RECORD_VERSION, reserved, m.generation, gap, m, 0, 0);
    RecordOfStore(open.(crc := RecordChecksum(Store(open)), marker := COMMIT_MARKER));
    CoveredPart(open, RecordChecksum(Store(open)), COMMIT_MARKER);
    hide Store, RecordOf, BundleMetadata.Checksum;
  }

  lemma ValidFrames(image: RecordImage)
    requires RecordValid(image)
    ensures var r := RecordOf(image);
            Frames(image, r.metadata, r.reserved, r.gap)
  {
    hide Store, RecordOf, Validate, RecordChecksum;
    var r := RecordOf(image);
    StoreOfRecord(image);
    CoveredPart(r, 0, 0);
    SameCovered(image, Store(r.(crc := 0, marker := 0)));
  }

  lemma FramesValid(image: RecordImage, m: Metadata, reserved: u16, gap: u32)
    requires Frames(image, m, reserved, gap)
    ensures RecordValid(image)
  {
    hide Store, RecordOf, Validate, RecordChecksum;
    FramedRecord(m, reserved, gap);
  }

  /** A record is accepted exactly if it frames a valid block: its generation, both checksums and all fixed words. */
  lemma ValidExactly(image: RecordImage)
    ensures RecordValid(image) <==>
              exists m: Metadata, reserved: u16, gap: u32 :: Frames(image, m, reserved, gap)
  {
    hide RecordValid, Frames;
    if RecordValid(image) {
      ValidFrames(image);
    }
    forall m: Metadata, reserved: u16, gap: u32 | Frames(image, m, reserved, gap)
      ensures RecordValid(image)
    {
      FramesValid(image, m, reserved, gap);
    }
  }

  lemma SameCovered(x: RecordImage, y: RecordImage)
    requires x[..COVERED_LEN] == y[..COVERED_LEN]
    ensures RecordChecksum(x) == RecordChecksum(y)
  {
  }

  /** A record whose last byte never landed is rejected by its commit marker. */
  lemma TornRejected(image: RecordImage)
    requires image[RECORD_LEN - 1] == 0xff || image[0] == 0xff
    ensures !RecordValid(image)
  {
    var ws := Collect(image);
    assert RecordOf(image).magic == ws[0] == WordAt(image, 0);
    assert RecordOf(image).marker == ws[39] == WordAt(image, 156);
    BytesOfWord(image[0], image[1], image[2], image[3]);
    BytesOfWord(image[156], image[157], image[158], image[159]);
    assert ByteOf(RECORD_MAGIC, 0) != 0xff && ByteOf(COMMIT_MARKER, 3) != 0xff;
    hide Validate, Of, RecordOf, RecordChecksum, WordOf, ByteOf;
  }

  // ---- atomicity

  /** An update that stopped early left the sector as it was, or left nothing acceptable in it. */
  lemma Stopped(s: Sector, r: RecordImage, fate: Fate)
    requires !Landed(fate)
    ensures UpdateSector(s, r, fate) == s || !SectorValid(UpdateSector(s, r, fate))
  {
    var s' := UpdateSector(s, r, fate);
    if fate.cut.InErase? && fate.cut.done == 0 {
      assert s' == s;
    } else {
      assert fate.cut.InErase? ==> ImageOf(s')[0] == 0xff;
      assert fate.cut.InWrite? ==> ImageOf(s')[RECORD_LEN - 1] == 0xff;
      TornRejected(ImageOf(s'));
    }
  }

  lemma Finished(s: Sector, r: RecordImage, fate: Fate)
    requires Landed(fate)
    ensures ImageOf(UpdateSector(s, r, fate)) == r
  {
  }

  /** When a finished write becomes the record that the next read selects. */
  predicate Supersedes(f: Flash, m: Metadata) {
    || !HasRecord(f)
    || m.generation > Read(f).generation
    || (m.generation == Read(f).generation && BestIndex(f) == 1)
  }

  predicate Visible(f: Flash, m: Metadata, fate: Fate) {
    || Read(f) == Seal(m)
    || (Landed(fate) && m.magic == MAGIC && m.version == VERSION && Supersedes(f, m))
  }

  function Replace(f: Flash, s: Sector): Flash {
    SetSector(f, TargetIndex(f), s)
  }

  lemma ReplacedByGarbage(f: Flash, s: Sector)
    requires !SectorValid(s)
    ensures Read(Replace(f, s)) == Read(f)
  {
    hide SectorValid, MetadataOf, Init;
  }

  lemma ReplacedByRecord(f: Flash, s: Sector)
    requires SectorValid(s)
    ensures Read(Replace(f, s)) == if Supersedes(f, MetadataOf(s)) then MetadataOf(s) else Read(f)
  {
    hide SectorValid, MetadataOf, Init;
  }

  lemma SupersedesByGeneration(f: Flash, m: Metadata)
    ensures Supersedes(f, m) <==> Supersedes(f, Seal(m))
  {
    hide Read, HasRecord, BestIndex, BundleMetadata.Checksum;
  }

  lemma WriteReplaces(f: Flash, m: Metadata, fate: Fate)
    requires Read(f) != Seal(m)
    ensures Write(f, m, fate).1 ==
            Replace(f, UpdateSector(SectorAt(f, TargetIndex(f)), MakeRecord(Seal(m)), fate))
  {
    hide Read, MakeRecord, UpdateSector, TargetIndex, Seal;
  }

  lemma SealKeepsHeader(m: Metadata)
    ensures Seal(m).magic == m.magic && Seal(m).version == m.version
  {
    hide BundleMetadata.Checksum;
  }

  /** For any flash, any block and any stopping point, the next read returns the old block or the new one, and which. */
  lemma Atomic(f: Flash, m: Metadata, fate: Fate)
    ensures Read(Write(f, m, fate).1) == if Visible(f, m, fate) then Seal(m) else Read(f)
  {
    if Read(f) != Seal(m) {
      var r := MakeRecord(Seal(m));
      var target := SectorAt(f, TargetIndex(f));
      var s := UpdateSector(target, r, fate);
      WriteReplaces(f, m, fate);
      MadeRecord(Seal(m));
      SealIdempotent(m);
      SealKeepsHeader(m);
      SupersedesByGeneration(f, m);
      if Landed(fate) {
        Finished(target, r, fate);
      } else {
        Stopped(target, r, fate);
      }
      hide MakeRecord, UpdateSector, RecordValid, RecordOf, Landed, Seal, Read, Write, TargetIndex, Replace,
           Supersedes, ImageOf, SectorAt, SetSector;
      if SectorValid(s) {
        ReplacedByRecord(f, s);
        if !Landed(fate) {
          SameSector(f, target, s);
        }
      } else {
        ReplacedByGarbage(f, s);
      }
    }
  }

  lemma SameSector(f: Flash, target: Sector, s: Sector)
    requires target == SectorAt(f, TargetIndex(f))
    requires s == target
    ensures Replace(f, s) == f
  {
    hide TargetIndex;
  }

  /** The record that the next read would select is never touched. */
  lemma SelectedUntouched(f: Flash, m: Metadata, fate: Fate)
    requires HasRecord(f)
    ensures BestIndex(f) == 0 ==> Write(f, m, fate).1.sector0 == f.sector0
    ensures BestIndex(f) == 1 ==> Write(f, m, fate).1.sector1 == f.sector1
  {
    hide Read, MakeRecord, UpdateSector, BestIndex, HasRecord, Seal;
  }

  /** A boot at the last generation wraps to zero, and the block it then writes is never seen again. */
  lemma WrappedWriteIsLost(f: Flash, m: Metadata, fate: Fate)
    requires HasRecord(f) && Read(f).generation == MAX_U32 && m.generation == Next(MAX_U32)
    ensures Read(Write(f, m, fate).1) == Read(f)
  {
    Atomic(f, m, fate);
    hide Write, BestIndex;
  }

  // ---- damage

  /** Cutting and padding two buffers keeps a difference that lies within one window. */
  lemma PaddedWindow(x: seq<byte>, y: seq<byte>, p: nat, n: nat, z: seq<byte>)
    requires |x| == |y| && p + 4 <= n <= |x| && x != y
    requires x[..p] == y[..p] && x[p + 4..] == y[p + 4..]
    ensures var (u, v) := (x[..n] + z, y[..n] + z);
            u != v && u[..p] == v[..p] && u[p + 4..] == v[p + 4..]
  {
    var u, v := x[..n] + z, y[..n] + z;
    assert x == x[..p] + x[p..p + 4] + x[p + 4..];
    assert y == y[..p] + y[p..p + 4] + y[p + 4..];
    assert u[p..p + 4] == x[p..p + 4] && v[p..p + 4] == y[p..p + 4];
    assert u[..p] == x[..p] && v[..p] == y[..p];
    assert u[p + 4..] == x[p + 4..][..n - p - 4] + z;
    assert v[p + 4..] == y[p + 4..][..n - p - 4] + z;
  }

  lemma BurstChangesChecksum(x: RecordImage, y: RecordImage, p: nat)
    requires x != y && p + 4 <= COVERED_LEN
    requires x[..p] == y[..p] && x[p + 4..] == y[p + 4..]
    ensures RecordChecksum(x) != RecordChecksum(y)
  {
    var z: seq<byte> := [0, 0, 0, 0, 0, 0, 0, 0];
    PaddedWindow(x, y, p, COVERED_LEN, z);
    hide Crc32.Checksum;
    Crc32.BurstDetected(x[..COVERED_LEN] + z, y[..COVERED_LEN] + z, p);
  }

  /** A valid record altered within four consecutive bytes that its checksum covers is rejected. */
  lemma BurstRejected(x: RecordImage, y: RecordImage, p: nat)
    requires RecordValid(x) && x != y && p + 4 <= COVERED_LEN
    requires x[..p] == y[..p] && x[p + 4..] == y[p + 4..]
    ensures !RecordValid(y)
  {
    hide RecordChecksum, RecordOf, Validate;
    BurstChangesChecksum(x, y, p);
    SameTail(x, y, p + 4);
  }

  lemma SameTail(x: RecordImage, y: RecordImage, p: nat)
    requires p <= COVERED_LEN && x[p..] == y[p..]
    ensures RecordOf(x).crc == RecordOf(y).crc && RecordOf(x).marker == RecordOf(y).marker
  {
    forall i | COVERED_LEN <= i < RECORD_LEN
      ensures x[i] == y[i]
    {
      assert x[p..][i - p] == y[p..][i - p];
    }
    LastWords(x);
    LastWords(y);
    hide RecordOf, WordOf;
  }

  lemma LastWords(x: RecordImage)
    ensures RecordOf(x).crc == WordAt(x, 152) && RecordOf(x).marker == WordAt(x, 156)
  {
    hide Of, WordAt;
    assert Collect(x)[38] == WordAt(x, 4 * 38) && Collect(x)[39] == WordAt(x, 4 * 39);
  }

  lemma TrailerEqual(x: RecordImage, y: RecordImage)
    requires RecordOf(x).crc == RecordOf(y).crc && RecordOf(x).marker == RecordOf(y).marker
    ensures forall i :: COVERED_LEN <= i < RECORD_LEN ==> x[i] == y[i]
  {
    hide RecordOf, WordAt;
    LastWords(x);
    LastWords(y);
    SameWordSameBytes(x, y, 152);
    SameWordSameBytes(x, y, 156);
  }

  /** A valid record altered only in its checksum and marker is rejected as well. */
  lemma TrailerDamageRejected(x: RecordImage, y: RecordImage)
    requires RecordValid(x) && x != y && x[..COVERED_LEN] == y[..COVERED_LEN]
    ensures !RecordValid(y)
  {
    hide RecordOf, Crc32.Checksum, Validate;
    assert x == x[..COVERED_LEN] + x[COVERED_LEN..];
    assert y == y[..COVERED_LEN] + y[COVERED_LEN..];
    if RecordValid(y) {
      TrailerEqual(x, y);
      assert false;
    }
  }

  lemma SameWordSameBytes(x: seq<byte>, y: seq<byte>, p: nat)
    requires p + 4 <= |x| && p + 4 <= |y| && WordAt(x, p) == WordAt(y, p)
    ensures x[p] == y[p] && x[p + 1] == y[p + 1] && x[p + 2] == y[p + 2] && x[p + 3] == y[p + 3]
  {
    BytesOfWord(x[p], x[p + 1], x[p + 2], x[p + 3]);
    BytesOfWord(y[p], y[p + 1], y[p + 2], y[p + 3]);
    hide ByteOf, WordOf;
  }

  // A window across the end of the covered bytes reaches into the last word of the block, its tail padding, which the
  // block's own checksum covers as well.

  lemma ImageOfPadding(m: Metadata, q: u32)
    ensures Image(m.(padding := q, crc := 0)) == Image(m.(crc := 0))[33 := q]
  {
    hide SlotWords;
  }

  lemma LastWordExpands(ws: seq<u32>, q: u32)
    requires |ws| == 34 && q != ws[33]
    ensures var (u, v) := (Expand(ws), Expand(ws[33 := q]));
            |u| == |v| == 136 && u[..132] == v[..132] && u != v
  {
    CollectExpand(ws);
    CollectExpand(ws[33 := q]);
    var u, v := Expand(ws), Expand(ws[33 := q]);
    assert Collect(u)[33] != Collect(v)[33];
    hide Collect, ByteOf;
    assert forall i :: 0 <= i < 132 ==> u[i] == v[i];
  }

  lemma PaddingIsSealed(m: Metadata, q: u32)
    requires Valid(m) && q != m.padding
    ensures !Valid(m.(padding := q))
  {
    var ws := Image(m.(crc := 0));
    ImageOfPadding(m, q);
    LastWordExpands(ws, q);
    hide Expand, Image, Crc32.Checksum;
    Crc32.BurstDetected(Expand(ws), Expand(ws[33 := q]), 132);
  }

  lemma BlockUpToPadding(x: RecordImage, y: RecordImage)
    requires x[..148] == y[..148]
    ensures RecordOf(y).metadata == RecordOf(x).metadata.(padding := WordAt(y, 148))
    ensures RecordOf(x).metadata.padding == WordAt(x, 148)
  {
    var vs, ws := Collect(x), Collect(y);
    forall i | 0 <= i < 37
      ensures vs[i] == ws[i]
    {
      assert x[..148][4 * i] == y[..148][4 * i] && x[..148][4 * i + 1] == y[..148][4 * i + 1];
      assert x[..148][4 * i + 2] == y[..148][4 * i + 2] && x[..148][4 * i + 3] == y[..148][4 * i + 3];
    }
    assert ws[4..38] == vs[4..38][33 := ws[37]];
    assert ws[37] == WordAt(y, 4 * 37) && vs[37] == WordAt(x, 4 * 37);
    hide Collect, WordAt;
    OfLastWord(vs[4..38], ws[37]);
  }

  lemma OfLastWord(ws: seq<u32>, q: u32)
    requires |ws| == 34
    ensures Of(ws[33 := q]) == Of(ws).(padding := q)
    ensures Of(ws).padding == ws[33]
  {
    assert ws[33 := q][4..16] == ws[4..16] && ws[33 := q][16..28] == ws[16..28];
    hide SlotOf, LowHalf, HighHalf;
  }

  lemma SamePadding(x: RecordImage, y: RecordImage)
    requires x[..148] == y[..148] && WordAt(x, 148) == WordAt(y, 148)
    ensures x[..COVERED_LEN] == y[..COVERED_LEN]
  {
    hide WordAt;
    SameWordSameBytes(x, y, 148);
    assert x[..COVERED_LEN] == x[..148] + [x[148], x[149], x[150], x[151]];
    assert y[..COVERED_LEN] == y[..148] + [y[148], y[149], y[150], y[151]];
  }

  lemma PaddingDamageRejected(x: RecordImage, y: RecordImage)
    requires RecordValid(x) && x[..148] == y[..148] && x[..COVERED_LEN] != y[..COVERED_LEN]
    ensures !RecordValid(y)
  {
    hide RecordOf, RecordChecksum, Validate, WordAt;
    BlockUpToPadding(x, y);
    if WordAt(x, 148) == WordAt(y, 148) {
      SamePadding(x, y);
    } else {
      PaddingIsSealed(RecordOf(x).metadata, WordAt(y, 148));
    }
  }

  /** A valid record altered anywhere within four consecutive bytes is rejected. */
  lemma WindowRejected(x: RecordImage, y: RecordImage, p: nat)
    requires RecordValid(x) && x != y && p + 4 <= RECORD_LEN
    requires x[..p] == y[..p] && x[p + 4..] == y[p + 4..]
    ensures !RecordValid(y)
  {
    hide RecordValid;
    if p + 4 <= COVERED_LEN {
      BurstRejected(x, y, p);
    } else if x[..COVERED_LEN] == y[..COVERED_LEN] {
      TrailerDamageRejected(x, y);
    } else {
      assert x[..148] == x[..p][..148] && y[..148] == y[..p][..148];
      PaddingDamageRejected(x, y);
    }
  }

  // ---- the partition itself

  /** The metadata partition: two sectors of byte flash, overwritten in place. */
  class MetadataPartition {
    const cells: array<byte>

    ghost predicate Sized() {
      cells.Length == 2 * STRIDE
    }

    function Value(): Flash
      requires Sized()
      reads cells
    {
      Flash(cells[..STRIDE], cells[STRIDE..])
    }

    constructor ()
      ensures Sized() && fresh(cells)
    {
      cells := new byte[2 * STRIDE];
    }

    /** Erase the first `done` bytes of a sector. */
    method EraseSector(target: nat, done: nat)
      requires Sized() && target < 2
      modifies cells
      ensures Value() == SetSector(old(Value()), target, CutErase(SectorAt(old(Value()), target), done))
    {
      ghost var before := cells[..];
      var offset, n := target * STRIDE, Min(done, STRIDE);
      for i := 0 to n
        invariant cells[..offset] == before[..offset] && cells[offset + i..] == before[offset + i..]
        invariant forall k :: offset <= k < offset + i ==> cells[k] == 0xff
      {
        cells[offset + i] := 0xff;
      }
      Spliced(before, cells[..], target, Blank(n));
    }

    /** Store the first `done` bytes of a record at the start of a sector. */
    method WriteSector(target: nat, data: RecordImage, done: nat)
      requires Sized() && target < 2
      modifies cells
      ensures Value() == SetSector(old(Value()), target, CutWrite(SectorAt(old(Value()), target), data, done))
    {
      ghost var before := cells[..];
      var offset, n := target * STRIDE, Min(done, RECORD_LEN);
      for i := 0 to n
        invariant cells[..offset] == before[..offset] && cells[offset + i..] == before[offset + i..]
        invariant forall k :: 0 <= k < i ==> cells[offset + k] == data[k]
      {
        cells[offset + i] := data[i];
      }
      Spliced(before, cells[..], target, data[..n]);
    }

    method ReadMetadata() returns (m: Metadata)
      requires Sized()
      ensures m == Read(Value())
    {
      hide SectorValid, MetadataOf, Init;
      var r0, r1 := Value().sector0, Value().sector1;
      var v0, v1 := SectorValid(r0), SectorValid(r1);
      if !v0 && !v1 {
        m := Init();
      } else if v0 && (!v1 || MetadataOf(r0).generation >= MetadataOf(r1).generation) {
        m := MetadataOf(r0);
      } else {
        m := MetadataOf(r1);
      }
    }

    /** Erase the sector that is not selected, then write the record; either may stop early. */
    method WriteMetadata(m: Metadata, fate: Fate) returns (status: u32)
      requires Sized()
      modifies cells
      ensures (status, Value()) == Write(old(Value()), m, fate)
    {
      hide MakeRecord, HasRecord, BestIndex, Seal, Read, CutErase, CutWrite;
      var copy := Seal(m);
      var current := ReadMetadata();
      if current == copy { return OK; }
      var next := MakeRecord(copy);
      var target := TargetIndex(Value());
      if fate.Interrupted? && fate.cut.InErase? {
        EraseSector(target, fate.cut.done);
        return ERR_IO;
      }
      EraseSector(target, STRIDE);
      ErasedWhole(SectorAt(old(Value()), target));
      WriteSector(target, next, if fate.Complete? then RECORD_LEN else fate.cut.done);
      status := if fate.Complete? then OK else ERR_IO;
    }
  }

  lemma ErasedWhole(s: Sector)
    ensures CutErase(s, STRIDE) == Blank(STRIDE)
  {
  }

  /** Overwriting the start of one sector of a two-sector memory. */
  lemma Spliced(before: seq<byte>, after: seq<byte>, target: nat, data: seq<byte>)
    requires |before| == |after| == 2 * STRIDE && target < 2 && |data| <= STRIDE
    requires after[..target * STRIDE] == before[..target * STRIDE]
    requires after[target * STRIDE + |data|..] == before[target * STRIDE + |data|..]
    requires forall k :: 0 <= k < |data| ==> after[target * STRIDE + k] == data[k]
    ensures target == 0 ==> after[..STRIDE] == data + before[..STRIDE][|data|..] && after[STRIDE..] == before[STRIDE..]
    ensures target == 1 ==> after[..STRIDE] == before[..STRIDE] && after[STRIDE..] == data + before[STRIDE..][|data|..]
  {
    forall i | target * STRIDE + |data| <= i < 2 * STRIDE
      ensures after[i] == before[i]
    {
      assert after[target * STRIDE + |data|..][i - target * STRIDE - |data|]
          == before[target * STRIDE + |data|..][i - target * STRIDE - |data|];
    }
    forall i | 0 <= i < target * STRIDE
      ensures after[i] == before[i]
    {
      assert after[..target * STRIDE][i] == before[..target * STRIDE][i];
    }
  }
}
