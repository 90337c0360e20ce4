/** Published examples of the codecs, and the fixed bytes of the formats. */
module CodecExamples {
  import opened Words
  import opened BigEndians
  import opened Status
  import opened CborHead
  import opened CborReader
  import opened CborMap
  import Events = EventEnvelope
  import Wasm = WasmExports
  import Container = BundleContainer

  // ---- CBOR (Appendix A of RFC 8949)

  lemma BigEndianStep(v: nat, n: nat)
    ensures BigEndian(v, n) == if n == 0 then [] else BigEndian(v / 0x100, n - 1) + [v % 0x100]
  {
  }

  lemma TwoBytes(v: nat)
    ensures BigEndian(v, 0) == [] && BigEndian(v, 1) == [v % 0x100]
    ensures BigEndian(v, 2) == [v / 0x100 % 0x100, v % 0x100]
  {
    BigEndianStep(v, 0);
    BigEndianStep(v / 0x100, 0);
    BigEndianStep(v / 0x100 / 0x100, 0);
    BigEndianStep(v, 1);
    BigEndianStep(v / 0x100, 1);
    BigEndianStep(v, 2);
    hide BigEndian;
  }

  lemma FourBytes(v: nat)
    ensures BigEndian(v, 4) ==
            [v / 0x100_0000 % 0x100, v / 0x1_0000 % 0x100, v / 0x100 % 0x100, v % 0x100]
  {
    hide BigEndian;
    TwoBytes(v / 0x1_0000);
    BigEndianStep(v, 4);
    BigEndianStep(v / 0x100, 3);
    assert v / 0x100 / 0x100 == v / 0x1_0000 && v / 0x1_0000 / 0x100 == v / 0x100_0000;
  }

  lemma Numbers()
    ensures FieldBytes(Uint(0)) == [0x00] && FieldBytes(Uint(23)) == [0x17] && FieldBytes(Uint(24)) == [0x18, 0x18]
    ensures FieldBytes(Uint(100)) == [0x18, 0x64] && FieldBytes(Uint(1000)) == [0x19, 0x03, 0xe8]
    ensures FieldBytes(Uint(1000000)) == [0x1a, 0x00, 0x0f, 0x42, 0x40]
    ensures FieldBytes(Int(-1)) == [0x20] && FieldBytes(Int(-10)) == [0x29] && FieldBytes(Int(-100)) == [0x38, 0x63]
    ensures FieldBytes(Int(-1000)) == [0x39, 0x03, 0xe7]
  {
    hide BigEndian, Power;
    TwoBytes(0);
    TwoBytes(23);
    TwoBytes(24);
    TwoBytes(100);
    TwoBytes(1000);
    TwoBytes(9);
    TwoBytes(99);
    TwoBytes(999);
    FourBytes(1000000);
  }

  lemma Strings()
    ensures FieldBytes(Flag(false)) == [0xf4] && FieldBytes(Flag(true)) == [0xf5]
    ensures FieldBytes(Blob([])) == [0x40]
    ensures FieldBytes(Blob([0x01, 0x02, 0x03, 0x04])) == [0x44, 0x01, 0x02, 0x03, 0x04]
    ensures FieldBytes(Str([])) == [0x60] && FieldBytes(Str([0x61])) == [0x61, 0x61]
  {
    hide BigEndian, Power;
    TwoBytes(0);
    TwoBytes(1);
    TwoBytes(4);
  }

  lemma Maps()
    ensures MapBytes([]) == [0xa0]
    ensures MapBytes([Entry(1, Uint(2)), Entry(3, Uint(4))]) == [0xa2, 0x01, 0x02, 0x03, 0x04]
  {
    hide BigEndian, Power;
    TwoBytes(0);
    TwoBytes(1);
    TwoBytes(2);
    TwoBytes(3);
    TwoBytes(4);
  }

  lemma FirstEntry(es: seq<Entry>)
    requires es != [] && AllSized(es)
    ensures AllSized(es[1..]) && EntriesBytes(es) == EntryBytes(es[0]) + EntriesBytes(es[1..])
  {
    hide EntryBytes;
  }

  lemma SmallEntries()
    ensures EntryBytes(Entry(12, Uint(0x1_0000))) == [0x0c, 0x1a, 0x00, 0x01, 0x00, 0x00]
    ensures EntryBytes(Entry(13, Uint(5))) == [0x0d, 0x05] && EntryBytes(Entry(14, Uint(6))) == [0x0e, 0x06]
    ensures EntryBytes(Entry(15, Uint(7))) == [0x0f, 0x07]
  {
    hide BigEndian, Power;
    TwoBytes(5);
    TwoBytes(6);
    TwoBytes(7);
    TwoBytes(12);
    TwoBytes(13);
    TwoBytes(14);
    TwoBytes(15);
    FourBytes(0x1_0000);
  }

  /** An event of type 5 with number 6, at time 7, with neither resource nor payload. */
  lemma SmallEnvelope()
    ensures Events.Envelope(Events.Event(1, 5, 6, 0, 7, [])) ==
            [0xa4, 0x0c, 0x1a, 0x00, 0x01, 0x00, 0x00, 0x0d, 0x05, 0x0e, 0x06, 0x0f, 0x07]
  {
    hide EntryBytes, EntriesBytes, BigEndian;
    var es := Events.EventEntries(Events.Event(1, 5, 6, 0, 7, []));
    assert es == [Entry(12, Uint(0x1_0000)), Entry(13, Uint(5)), Entry(14, Uint(6)), Entry(15, Uint(7))];
    TwoBytes(4);
    SmallEntries();
    FirstEntry(es);
    FirstEntry(es[1..]);
    FirstEntry(es[2..]);
    FirstEntry(es[3..]);
    NoEntries(es[4..]);
  }

  lemma NoEntries(es: seq<Entry>)
    requires es == []
    ensures EntriesBytes(es) == []
  {
  }

  function Small(n: nat): Tree
    requires n < 24
  {
    Atom(UNSIGNED, 0, n)
  }

  lemma SmallPrints(n: nat)
    requires n < 24
    ensures WellFormed(Small(n)) && Print(Small(n)) == [n]
  {
    TwoBytes(n);
    hide BigEndian, AllWellFormed;
  }

  lemma NextKid(t: Tree, ts: seq<Tree>)
    requires WellFormed(t) && AllWellFormed(ts)
    ensures AllWellFormed([t] + ts) && PrintAll([t] + ts) == Print(t) + PrintAll(ts)
  {
    assert ([t] + ts)[1..] == ts;
    hide WellFormed, Print;
  }

  /** Arrays and null, which the reader knows and the builder does not write. */
  lemma Trees()
    ensures Print(Group(ARRAY, 0, [])) == [0x80] && Print(Atom(SIMPLE, 0, 22)) == [0xf6]
    ensures WellFormed(Group(ARRAY, 0, [Small(1), Small(2), Small(3)]))
    ensures Print(Group(ARRAY, 0, [Small(1), Small(2), Small(3)])) == [0x83, 0x01, 0x02, 0x03]
  {
    TwoBytes(0);
    TwoBytes(3);
    TwoBytes(22);
    SmallPrints(1);
    SmallPrints(2);
    SmallPrints(3);
    assert AllWellFormed([]) && PrintAll([]) == [];
    hide BigEndian, Small;
    NextKid(Small(3), []);
    NextKid(Small(2), [Small(3)]);
    NextKid(Small(1), [Small(2), Small(3)]);
    assert [Small(3)] + [] == [Small(3)] && [Small(2)] + [Small(3)] == [Small(2), Small(3)];
    assert [Small(1)] + [Small(2), Small(3)] == [Small(1), Small(2), Small(3)];
  }

  // ---- Wasm modules (section 5.5 of the WebAssembly Core Specification 1.0)

  /** An export section with one function "a" of index 5, behind the magic number and the version. */
  lemma SmallModule()
    ensures Wasm.ModuleBytes([Wasm.Exports([Wasm.Export([0x61], 0, 5)])]) ==
            [0x00, 0x61, 0x73, 0x6d, 0x01, 0x00, 0x00, 0x00, 0x07, 0x05, 0x01, 0x01, 0x61, 0x00, 0x05]
  {
  }

  // ---- the bundle header

  /** No signature, a manifest of two bytes and a payload of three. */
  lemma SmallHeader(x: Container.Bundle)
    requires |x.manifest| == 2 && |x.payload| == 3 && x.signature == [] && x.alg == 0
    ensures Container.PackedHeader(x) ==
            [0x57, 0x44, 0x43, 0x42, 0x4e, 0x44, 0x4c, 0x00, 0x01, 0x00, 0x78, 0x00,
             0x02, 0x00, 0x00, 0x00, 0x03, 0x00, 0x00, 0x00]
            + x.manifestSha + x.payloadSha + [0x00, 0x00, 0x00, 0x00] + Container.Zeros(32)
  {
  }
}
