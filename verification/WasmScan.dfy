/** What the scan for lifecycle exports accepts, on every byte string, with numbers in any of their forms. */
module WasmScan {
  import opened Words
  import opened Slices
  import opened WasmExports

  // ---- numbers

  /** The number that septets spell, least significant first. */
  function Septets(bs: seq<byte>): nat {
    if bs == [] then 0 else bs[0] % 0x80 + 0x80 * Septets(bs[1..])
  }

  /** At most `left` bytes, all but the last with their high bit set. */
  predicate IsNumber(bs: seq<byte>, left: nat)
    decreases |bs|
  {
    bs != [] && left > 0 && if |bs| == 1 then bs[0] < 0x80 else bs[0] >= 0x80 && IsNumber(bs[1..], left - 1)
  }

  /** The low 32 bits of a number in at most five bytes. */
  predicate Spells(bs: seq<byte>, n: nat) {
    IsNumber(bs, 5) && n == Septets(bs) % 0x1_0000_0000
  }

  lemma {:induction false} NumberRead(bs: seq<byte>, buf: seq<byte>, offset: nat, left: nat)
    requires IsNumber(bs, left) && At(buf, offset, bs)
    ensures LebAt(buf, offset, left) == Some(Number(Septets(bs), offset + |bs|))
    decreases |bs|
  {
    assert buf[offset] == bs[0];
    if |bs| == 1 {
      assert Septets(bs) == bs[0];
    } else {
      assert bs == [bs[0]] + bs[1..];
      AtSplit(buf, offset, [bs[0]], bs[1..]);
      NumberRead(bs[1..], buf, offset + 1, left - 1);
    }
  }

  lemma {:induction false} ReadNumber(buf: seq<byte>, offset: nat, left: nat)
    requires LebAt(buf, offset, left).Some?
    ensures var n := LebAt(buf, offset, left).value;
            IsNumber(buf[offset..n.next], left) && n.value == Septets(buf[offset..n.next])
    decreases left
  {
    if buf[offset] >= 0x80 {
      ReadNumber(buf, offset + 1, left - 1);
      var next := LebAt(buf, offset, left).value.next;
      assert buf[offset..next] == [buf[offset]] + buf[offset + 1..next];
    }
  }

  lemma SpelledRead(bs: seq<byte>, n: nat, buf: seq<byte>, offset: nat)
    requires Spells(bs, n) && At(buf, offset, bs)
    ensures U32At(buf, offset) == Some(Number(n, offset + |bs|))
  {
    NumberRead(bs, buf, offset, 5);
    hide LebAt;
  }

  lemma ReadSpelled(buf: seq<byte>, offset: nat)
    requires U32At(buf, offset).Some?
    ensures var n := U32At(buf, offset).value;
            Spells(buf[offset..n.next], n.value)
  {
    ReadNumber(buf, offset, 5);
    hide LebAt;
  }

  // ---- sections

  datatype RawSection = RawSection(id: byte, len: seq<byte>, body: seq<byte>)

  function RawBytes(s: RawSection): seq<byte> {
    [s.id] + s.len + s.body
  }

  function RawsBytes(ss: seq<RawSection>): seq<byte>
    decreases |ss|
  {
    if ss == [] then [] else RawBytes(ss[0]) + RawsBytes(ss[1..])
  }

  /** Each section says the length of its body, and the numbers of those that are not custom grow strictly. */
  predicate Ordered(previous: byte, ss: seq<RawSection>)
    decreases |ss|
  {
    ss == [] ||
    (&& Spells(ss[0].len, |ss[0].body|)
     && (ss[0].id != 0 ==> ss[0].id > previous)
     && Ordered(if ss[0].id != 0 then ss[0].id else previous, ss[1..]))
  }

  predicate FoundIn(ss: seq<RawSection>, name: seq<byte>) {
    exists s <- ss :: s.id == 7 && HasFunction(s.body, name)
  }

  predicate FoundAll(before: Found, after: Found, ss: seq<RawSection>) {
    && (after.init <==> before.init || FoundIn(ss, INIT))
    && (after.onEvent <==> before.onEvent || FoundIn(ss, ON_EVENT))
    && (after.health <==> before.health || FoundIn(ss, HEALTH))
    && (after.shutdown <==> before.shutdown || FoundIn(ss, SHUTDOWN))
  }

  lemma FoundFirst(ss: seq<RawSection>, name: seq<byte>)
    requires ss != []
    ensures FoundIn(ss, name) <==> (ss[0].id == 7 && HasFunction(ss[0].body, name)) || FoundIn(ss[1..], name)
  {
    hide HasFunction;
    assert forall s :: s in ss <==> s == ss[0] || s in ss[1..];
  }

  lemma FoundAllFirst(before: Found, between: Found, after: Found, ss: seq<RawSection>)
    requires ss != [] && between == (if ss[0].id == 7 then Mark(before, ss[0].body) else before)
    requires FoundAll(between, after, ss[1..])
    ensures FoundAll(before, after, ss)
  {
    hide HasFunction, FoundIn;
    FoundFirst(ss, INIT);
    FoundFirst(ss, ON_EVENT);
    FoundFirst(ss, HEALTH);
    FoundFirst(ss, SHUTDOWN);
  }

  lemma RawsFirst(ss: seq<RawSection>)
    requires ss != []
    ensures RawsBytes(ss) == RawBytes(ss[0]) + RawsBytes(ss[1..])
  {
  }

  lemma {:induction false} WalksRaws(
      ss: seq<RawSection>, payload: seq<byte>, offset: nat, previous: byte, before: Found)
    requires offset <= |payload| && payload[offset..] == RawsBytes(ss) && Ordered(previous, ss)
    ensures Walk(payload, offset, previous, before).Some?
    ensures FoundAll(before, Walk(payload, offset, previous, before).value, ss)
    decreases |ss|
  {
    hide Walk, Spells, Mark, RawsBytes, FoundAll, U32At;
    if ss == [] {
      WalkEnds(payload, offset, previous, before);
    } else {
      var s, rest := ss[0], RawsBytes(ss[1..]);
      RawsFirst(ss);
      ThreeParts(payload, offset, s.id, s.len, s.body, rest);
      var end := offset + |RawBytes(s)|;
      assert payload[offset + 1 + |s.len|..end] == s.body && payload[end..] == rest;
      SpelledRead(s.len, |s.body|, payload, offset + 1);
      WalkAt(payload, offset, previous, before, Number(|s.body|, offset + 1 + |s.len|));
      var between := if s.id == 7 then Mark(before, s.body) else before;
      WalksRaws(ss[1..], payload, end, if s.id != 0 then s.id else previous, between);
      FoundAllFirst(before, between, Walk(payload, offset, previous, before).value, ss);
    }
  }

  lemma WalkEnds(payload: seq<byte>, offset: nat, previous: byte, found: Found)
    requires offset <= |payload| && payload[offset..] == RawsBytes([])
    ensures Walk(payload, offset, previous, found) == Some(found) && FoundAll(found, found, [])
  {
    hide HasFunction;
    assert |payload[offset..]| == |payload| - offset;
  }

  /** Whatever is walked to its end is a sequence of such sections. */
  lemma {:induction false} RawsWalked(payload: seq<byte>, offset: nat, previous: byte, before: Found)
    returns (ss: seq<RawSection>)
    requires offset <= |payload| && Walk(payload, offset, previous, before).Some?
    ensures payload[offset..] == RawsBytes(ss) && Ordered(previous, ss)
    decreases |payload| - offset
  {
    hide Spells, Mark, U32At;
    if offset == |payload| {
      ss := [];
    } else {
      var len := U32At(payload, offset + 1).value;
      ReadSpelled(payload, offset + 1);
      var end := len.next + len.value;
      var s := RawSection(payload[offset], payload[offset + 1..len.next], payload[len.next..end]);
      var rest := RawsWalked(payload, end, if s.id != 0 then s.id else previous,
                             if s.id == 7 then Mark(before, s.body) else before);
      ss := [s] + rest;
      assert ss[1..] == rest;
      assert payload[offset..] == RawBytes(s) + payload[end..];
    }
  }

  /** The module is a header and ordered sections, among them export sections in which the four names are found. */
  predicate IsModule(payload: seq<byte>, ss: seq<RawSection>) {
    && payload == HEADER + RawsBytes(ss) && Ordered(0, ss)
    && FoundIn(ss, INIT) && FoundIn(ss, ON_EVENT) && FoundIn(ss, HEALTH) && FoundIn(ss, SHUTDOWN)
  }

  lemma ModuleAccepted(payload: seq<byte>, ss: seq<RawSection>)
    requires IsModule(payload, ss)
    ensures HasRequiredExports(payload)
  {
    hide Walk, RawsBytes, FoundIn, Ordered;
    assert payload[..8] == HEADER && payload[8..] == RawsBytes(ss);
    WalksRaws(ss, payload, 8, 0, Found(false, false, false, false));
  }

  /** On every byte string: the scan accepts exactly these modules. */
  lemma AcceptsExactly(payload: seq<byte>)
    ensures HasRequiredExports(payload) <==> exists ss :: IsModule(payload, ss)
  {
    hide Walk, RawsBytes, FoundIn, Ordered, HasFunction;
    if HasRequiredExports(payload) {
      var none := Found(false, false, false, false);
      var ss := RawsWalked(payload, 8, 0, none);
      WalksRaws(ss, payload, 8, 0, none);
      assert payload == payload[..8] + payload[8..];
      assert IsModule(payload, ss);
    }
    forall ss | IsModule(payload, ss)
      ensures HasRequiredExports(payload)
    {
      ModuleAccepted(payload, ss);
    }
  }

  // ---- exports

  datatype RawExport = RawExport(len: seq<byte>, name: seq<byte>, kind: byte, index: seq<byte>)

  function RawExportBytes(e: RawExport): seq<byte> {
    e.len + (e.name + ([e.kind] + e.index))
  }

  function RawExportsBytes(es: seq<RawExport>): seq<byte>
    decreases |es|
  {
    if es == [] then [] else RawExportBytes(es[0]) + RawExportsBytes(es[1..])
  }

  predicate ExportOk(e: RawExport) {
    Spells(e.len, |e.name|) && IsNumber(e.index, 5)
  }

  predicate ExportsOk(es: seq<RawExport>) {
    forall e <- es :: ExportOk(e)
  }

  predicate IsFunction(e: RawExport, name: seq<byte>) {
    e.kind == 0 && e.name == name
  }

  /** The bytes start with exports that end in the function. */
  predicate EndsInFunction(bs: seq<byte>, es: seq<RawExport>, count: nat, name: seq<byte>) {
    && 0 < |es| <= count && ExportsOk(es) && RawExportsBytes(es) <= bs && IsFunction(es[|es| - 1], name)
  }

  lemma ExportRead(e: RawExport, section: seq<byte>, offset: nat)
    requires ExportOk(e) && At(section, offset, RawExportBytes(e))
    ensures EntryAt(section, offset) == Some(Entry(e.name, e.kind, offset + |RawExportBytes(e)|))
  {
    hide Spells, U32At;
    AtSplit(section, offset, e.len, e.name + ([e.kind] + e.index));
    var start := offset + |e.len|;
    AtSplit(section, start, e.name, [e.kind] + e.index);
    AtSplit(section, start + |e.name|, [e.kind], e.index);
    assert section[start + |e.name|] == section[start + |e.name|..start + |e.name| + 1][0];
    SpelledRead(e.len, |e.name|, section, offset);
    assert Spells(e.index, Septets(e.index) % 0x1_0000_0000) by { SpelledSelf(e.index); }
    SpelledRead(e.index, Septets(e.index) % 0x1_0000_0000, section, start + |e.name| + 1);
  }

  lemma SpelledSelf(bs: seq<byte>)
    requires IsNumber(bs, 5)
    ensures Spells(bs, Septets(bs) % 0x1_0000_0000)
  {
  }

  lemma ReadExport(section: seq<byte>, offset: nat) returns (e: RawExport)
    requires EntryAt(section, offset).Some?
    ensures var entry := EntryAt(section, offset).value;
            && ExportOk(e) && e.name == entry.name && e.kind == entry.kind
            && section[offset..entry.next] == RawExportBytes(e)
  {
    hide U32At;
    var len := U32At(section, offset).value;
    ReadSpelled(section, offset);
    var after := len.next + len.value;
    ReadSpelled(section, after + 1);
    var next := EntryAt(section, offset).value.next;
    e := RawExport(section[offset..len.next], section[len.next..after], section[after], section[after + 1..next]);
    assert section[offset..next] == section[offset..len.next] + section[len.next..after] + section[after..next];
    assert section[after..next] == [section[after]] + section[after + 1..next];
  }

  lemma {:induction false} ScansExports(
      section: seq<byte>, offset: nat, es: seq<RawExport>, count: nat, name: seq<byte>)
    requires offset <= |section| && EndsInFunction(section[offset..], es, count, name)
    ensures ScanExports(section, offset, count, name)
    decreases |es|
  {
    hide EntryAt, ExportOk, RawExportBytes;
    var first, rest := RawExportBytes(es[0]), RawExportsBytes(es[1..]);
    assert first + rest <= section[offset..];
    assert At(section, offset, first) by {
      assert section[offset..][..|first|] == first;
    }
    ExportRead(es[0], section, offset);
    var next := offset + |first|;
    if |es| > 1 {
      assert section[next..] == section[offset..][|first|..];
      assert rest <= section[next..];
      ScansExports(section, next, es[1..], count - 1, name);
    }
  }

  lemma {:induction false} ExportsScanned(section: seq<byte>, offset: nat, count: nat, name: seq<byte>)
    returns (es: seq<RawExport>)
    requires offset <= |section| && ScanExports(section, offset, count, name)
    ensures EndsInFunction(section[offset..], es, count, name)
    decreases count
  {
    hide EntryAt, ExportOk, RawExportBytes;
    var e := ReadExport(section, offset);
    var next := EntryAt(section, offset).value.next;
    assert section[offset..] == RawExportBytes(e) + section[next..];
    if IsFunction(e, name) {
      es := [e];
      assert RawExportsBytes(es) == RawExportBytes(e) + RawExportsBytes([]);
    } else {
      var rest := ExportsScanned(section, next, count - 1, name);
      es := [e] + rest;
      assert es[1..] == rest;
    }
  }

  /** The section starts with a count and, within that count, with exports that end in the function. */
  predicate HoldsFunction(section: seq<byte>, count: seq<byte>, es: seq<RawExport>, name: seq<byte>) {
    IsNumber(count, 5) && count <= section
    && EndsInFunction(section[|count|..], es, Septets(count) % 0x1_0000_0000, name)
  }

  /** On every byte string: a function is found exactly in such a section; what comes after it is not read. */
  lemma FindsExactly(section: seq<byte>, name: seq<byte>)
    ensures HasFunction(section, name) <==> exists count, es :: HoldsFunction(section, count, es, name)
  {
    hide U32At, ScanExports, EndsInFunction, IsNumber;
    if HasFunction(section, name) {
      var count := U32At(section, 0).value;
      ReadSpelled(section, 0);
      var es := ExportsScanned(section, count.next, count.value, name);
      assert HoldsFunction(section, section[..count.next], es, name);
    }
    forall count, es | HoldsFunction(section, count, es, name)
      ensures HasFunction(section, name)
    {
      SpelledSelf(count);
      SpelledRead(count, Septets(count) % 0x1_0000_0000, section, 0);
      ScansExports(section, |count|, es, Septets(count) % 0x1_0000_0000, name);
    }
  }
}
