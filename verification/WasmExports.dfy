/** The scan of a Wasm module for the four lifecycle exports, against the printer of such modules. */
module WasmExports {
  import opened Words
  import opened Slices

  datatype Option<T> = None | Some(value: T)

  datatype Number = Number(value: nat, next: nat)

  // ---- LEB128

  /** The printer of unsigned numbers. */
  function Leb(n: nat): (bs: seq<byte>)
    ensures |bs| > 0
    decreases n
  {
    if n < 0x80 then [n] else [n % 0x80 + 0x80] + Leb(n / 0x80)
  }

  /** A septet moved up by a number of places. */
  function Shl(n: nat, places: nat): (r: nat)
    ensures r >= n
  {
    if places == 0 then n else 0x80 * Shl(n, places - 1)
  }

  /** The number spelled by at most `left` bytes. */
  function LebAt(buf: seq<byte>, offset: nat, left: nat): (r: Option<Number>)
    ensures r.Some? ==> offset < r.value.next <= |buf| && r.value.value < Shl(1, left)
    decreases left
  {
    if left == 0 || offset >= |buf| then None
    else if buf[offset] < 0x80 then Some(Number(buf[offset], offset + 1))
    else
      match LebAt(buf, offset + 1, left - 1)
      case None => None
      case Some(rest) => Some(Number(buf[offset] - 0x80 + 0x80 * rest.value, rest.next))
  }

  /** A 32-bit reader keeps the low 32 bits of five septets. */
  function U32At(buf: seq<byte>, offset: nat): (r: Option<Number>)
    ensures r.Some? ==> offset < r.value.next <= |buf|
  {
    match LebAt(buf, offset, 5)
    case None => None
    case Some(n) => Some(Number(n.value % 0x1_0000_0000, n.next))
  }

  lemma FivePlaces()
    ensures Shl(1, 5) == 0x8_0000_0000
  {
    assert Shl(1, 2) == 0x4000;
    assert Shl(1, 4) == 0x80 * (0x80 * Shl(1, 2));
  }

  lemma {:induction false} ShlSum(x: nat, y: nat, places: nat)
    ensures Shl(x + 0x80 * y, places) == Shl(x, places) + Shl(y, places + 1)
    decreases places
  {
    if places > 0 {
      ShlSum(x, y, places - 1);
    }
  }

  lemma {:induction false} ShlBelow(low: nat, d: nat, places: nat)
    requires d < 0x80 && low < Shl(1, places)
    ensures low + Shl(d, places) < Shl(1, places + 1)
    decreases places
  {
    if places > 0 {
      ShlBelow(low / 0x80, d, places - 1);
    }
  }

  lemma {:induction false} LebReadBack(n: nat, buf: seq<byte>, offset: nat, left: nat)
    requires 0 < left && n < Shl(1, left) && At(buf, offset, Leb(n))
    ensures LebAt(buf, offset, left) == Some(Number(n, offset + |Leb(n)|))
    decreases n
  {
    assert buf[offset] == Leb(n)[0];
    if n >= 0x80 {
      AtSplit(buf, offset, [Leb(n)[0]], Leb(n / 0x80));
      LebReadBack(n / 0x80, buf, offset + 1, left - 1);
    }
  }

  /** Reading undoes printing for every 32-bit number. */
  lemma LebRoundTrip(n: u32, buf: seq<byte>, offset: nat)
    requires At(buf, offset, Leb(n))
    ensures U32At(buf, offset) == Some(Number(n, offset + |Leb(n)|))
  {
    FivePlaces();
    LebReadBack(n, buf, offset, 5);
  }

  /** What is read in the end is what has been read so far, and the rest in higher places. */
  predicate Continues(whole: Option<Number>, low: nat, places: nat, rest: Option<Number>) {
    match rest
    case None => whole == None
    case Some(n) => whole == Some(Number(low + Shl(n.value, places), n.next))
  }

  lemma Septet(whole: Option<Number>, low: nat, places: nat, buf: seq<byte>, offset: nat, left: nat)
    requires Continues(whole, low, places, LebAt(buf, offset, left))
    requires low < Shl(1, places)
    ensures left == 0 || offset >= |buf| ==> whole == None
    ensures left > 0 && offset < |buf| ==>
              var sum := low + Shl(buf[offset] % 0x80, places);
              && sum < Shl(1, places + 1)
              && if buf[offset] < 0x80 then whole == Some(Number(sum, offset + 1))
                 else Continues(whole, sum, places + 1, LebAt(buf, offset + 1, left - 1))
  {
    if left == 0 || offset >= |buf| { return; }
    var rest := LebAt(buf, offset + 1, left - 1);
    if buf[offset] >= 0x80 && rest.Some? {
      ShlSum(buf[offset] - 0x80, rest.value.value, places);
    }
    ShlBelow(low, buf[offset] % 0x80, places);
  }

  /** `wasm_read_u32_leb`. */
  method ReadLeb(buf: seq<byte>, start: nat) returns (r: Option<Number>)
    requires start <= |buf|
    ensures r == U32At(buf, start)
  {
    ghost var whole := LebAt(buf, start, 5);
    var offset, result: nat := start, 0;
    assert whole.Some? ==> Shl(whole.value.value, 0) == whole.value.value;
    assert Continues(whole, result, 0, whole);
    hide LebAt, Continues, Shl;
    for i := 0 to 5
      invariant start <= offset <= |buf|
      invariant result < Shl(1, i)
      invariant Continues(whole, result, i, LebAt(buf, offset, 5 - i))
    {
      Septet(whole, result, i, buf, offset, 5 - i);
      if offset >= |buf| { return None; }
      var b: int := buf[offset];
      offset := offset + 1;
      result := result + Shl(b % 0x80, i);
      if b < 0x80 {
        return Some(Number(result % 0x1_0000_0000, offset));
      }
    }
    Septet(whole, result, 5, buf, offset, 0);
    r := None;
  }

  // ---- exports

  datatype Export = Export(name: seq<byte>, kind: byte, index: u32)

  const FUNCTION: byte := 0

  function ExportBytes(e: Export): seq<byte> {
    Leb(|e.name|) + e.name + [e.kind] + Leb(e.index)
  }

  function ExportsBytes(es: seq<Export>): (bs: seq<byte>)
    ensures |bs| >= |es|
    decreases |es|
  {
    if es == [] then [] else ExportBytes(es[0]) + ExportsBytes(es[1..])
  }

  function ExportBody(es: seq<Export>): seq<byte> {
    Leb(|es|) + ExportsBytes(es)
  }

  predicate Exported(es: seq<Export>, name: seq<byte>) {
    exists e <- es :: e.kind == FUNCTION && e.name == name
  }

  /** One export of a section: its name, its kind, and where the next one starts. */
  datatype Entry = Entry(name: seq<byte>, kind: byte, next: nat)

  function EntryAt(section: seq<byte>, offset: nat): (r: Option<Entry>)
    ensures r.Some? ==> offset + 3 <= r.value.next <= |section|
  {
    match U32At(section, offset)
    case None => None
    case Some(len) =>
      if len.value > |section| - len.next then None
      else
        var after := len.next + len.value;
        if after >= |section| then None
        else
          match U32At(section, after + 1)
          case None => None
          case Some(index) => Some(Entry(section[len.next..after], section[after], index.next))
  }

  function ScanExports(section: seq<byte>, offset: nat, count: nat, name: seq<byte>): bool
    decreases count
  {
    if count == 0 then false
    else
      match EntryAt(section, offset)
      case None => false
      case Some(e) => (e.kind == FUNCTION && e.name == name) || ScanExports(section, e.next, count - 1, name)
  }

  function HasFunction(section: seq<byte>, name: seq<byte>): bool {
    match U32At(section, 0)
    case None => false
    case Some(count) => ScanExports(section, count.next, count.value, name)
  }

  /** `wasm_export_section_has_function`. */
  method SectionHasFunction(section: seq<byte>, name: seq<byte>) returns (found: bool)
    ensures found == HasFunction(section, name)
  {
    var count := ReadLeb(section, 0);
    if count.None? { return false; }
    hide U32At, ScanExports;
    found := Scan(section, count.value.next, count.value.value, name);
  }

  /** The loop over the exports. */
  method Scan(section: seq<byte>, start: nat, count: nat, name: seq<byte>) returns (found: bool)
    requires start <= |section|
    ensures found == ScanExports(section, start, count, name)
  {
    var offset := start;
    hide EntryAt;
    for i := 0 to count
      invariant 0 <= offset <= |section|
      invariant ScanExports(section, start, count, name) == ScanExports(section, offset, count - i, name)
    {
      var e := ReadEntry(section, offset);
      if e.None? { return false; }
      if e.value.kind == FUNCTION && e.value.name == name { return true; }
      offset := e.value.next;
    }
    found := false;
  }

  method ReadEntry(section: seq<byte>, offset: nat) returns (e: Option<Entry>)
    requires offset <= |section|
    ensures e == EntryAt(section, offset)
  {
    var len := ReadLeb(section, offset);
    if len.None? || len.value.value > |section| - len.value.next { return None; }
    var after := len.value.next + len.value.value;
    if after >= |section| { return None; }
    var index := ReadLeb(section, after + 1);
    if index.None? { return None; }
    e := Some(Entry(section[len.value.next..after], section[after], index.value.next));
  }

  lemma EntryPrinted(e: Export, section: seq<byte>, offset: nat)
    requires At(section, offset, ExportBytes(e)) && |section| <= MAX_U32
    ensures EntryAt(section, offset) == Some(Entry(e.name, e.kind, offset + |ExportBytes(e)|))
  {
    hide Leb, U32At, At, ExportBytes;
    ExportParts(e, section, offset);
    LebRoundTrip(|e.name|, section, offset);
    LebRoundTrip(e.index, section, offset + |Leb(|e.name|)| + |e.name| + 1);
  }

  lemma ExportParts(e: Export, section: seq<byte>, offset: nat)
    requires At(section, offset, ExportBytes(e))
    ensures var start := offset + |Leb(|e.name|)|;
            var after := start + |e.name|;
            && At(section, offset, Leb(|e.name|))
            && after < |section| && section[start..after] == e.name && section[after] == e.kind
            && At(section, after + 1, Leb(e.index))
            && offset + |ExportBytes(e)| == after + 1 + |Leb(e.index)|
  {
    var len, rest := Leb(|e.name|), e.name + [e.kind] + Leb(e.index);
    hide Leb;
    assert ExportBytes(e) == len + rest;
    AtSplit(section, offset, len, rest);
    AtSplit(section, offset + |len|, e.name + [e.kind], Leb(e.index));
    AtSplit(section, offset + |len|, e.name, [e.kind]);
    var after := offset + |len| + |e.name|;
    assert section[after] == section[after..after + 1][0];
  }

  lemma ScanStep(section: seq<byte>, offset: nat, count: nat, name: seq<byte>)
    requires count > 0 && EntryAt(section, offset).Some?
    ensures var e := EntryAt(section, offset).value;
            ScanExports(section, offset, count, name)
            == ((e.kind == FUNCTION && e.name == name) || ScanExports(section, e.next, count - 1, name))
  {
    hide EntryAt;
  }

  lemma {:induction false} ScanPrinted(es: seq<Export>, section: seq<byte>, offset: nat, name: seq<byte>)
    requires At(section, offset, ExportsBytes(es)) && |section| <= MAX_U32
    ensures ScanExports(section, offset, |es|, name) <==> Exported(es, name)
    decreases |es|
  {
    hide EntryAt, ExportBytes, Exported, At, ScanExports, ExportsBytes;
    if es == [] {
      NothingToScan(section, offset, name);
    } else {
      ExportsParts(es, section, offset);
      ScanStep(section, offset, |es|, name);
      ExportedFirst(es, name);
      ScanPrinted(es[1..], section, offset + |ExportBytes(es[0])|, name);
    }
  }

  lemma ExportsParts(es: seq<Export>, section: seq<byte>, offset: nat)
    requires es != [] && At(section, offset, ExportsBytes(es)) && |section| <= MAX_U32
    ensures EntryAt(section, offset) == Some(Entry(es[0].name, es[0].kind, offset + |ExportBytes(es[0])|))
    ensures At(section, offset + |ExportBytes(es[0])|, ExportsBytes(es[1..]))
  {
    hide EntryAt, ExportBytes, At, ExportsBytes;
    ExportsFirst(es);
    AtSplit(section, offset, ExportBytes(es[0]), ExportsBytes(es[1..]));
    EntryPrinted(es[0], section, offset);
  }

  lemma ExportsFirst(es: seq<Export>)
    requires es != []
    ensures ExportsBytes(es) == ExportBytes(es[0]) + ExportsBytes(es[1..])
  {
    hide ExportBytes;
  }

  lemma NothingToScan(section: seq<byte>, offset: nat, name: seq<byte>)
    ensures !ScanExports(section, offset, 0, name) && !Exported([], name)
  {
  }

  lemma ExportedFirst(es: seq<Export>, name: seq<byte>)
    requires es != []
    ensures Exported(es, name) <==> (es[0].kind == FUNCTION && es[0].name == name) || Exported(es[1..], name)
  {
    assert es == [es[0]] + es[1..];
  }

  lemma ExportSectionRead(es: seq<Export>, name: seq<byte>)
    requires |ExportBody(es)| <= MAX_U32
    ensures HasFunction(ExportBody(es), name) <==> Exported(es, name)
  {
    var section := ExportBody(es);
    assert section[0..|section|] == section;
    AtSplit(section, 0, Leb(|es|), ExportsBytes(es));
    LebRoundTrip(|es|, section, 0);
    ScanPrinted(es, section, |Leb(|es|)|, name);
  }

  // ---- sections

  const HEADER: seq<byte> := [0x00, 0x61, 0x73, 0x6d, 0x01, 0x00, 0x00, 0x00]
  const EXPORT_ID: byte := 7

  function Ascii(s: string): seq<byte> {
    seq(|s|, i requires 0 <= i < |s| => (s[i] as int) % 0x100)
  }

  const INIT := Ascii("wdc_module_init")
  const ON_EVENT := Ascii("wdc_module_on_event")
  const HEALTH := Ascii("wdc_module_health")
  const SHUTDOWN := Ascii("wdc_module_shutdown")

  /** A section of a module: custom, or with a number between 1 and 255. */
  datatype Section =
    | Custom(body: seq<byte>)
    | Other(id: byte, body: seq<byte>)
    | Exports(exports: seq<Export>)

  predicate Proper(s: Section) {
    s.Other? ==> s.id != 0 && s.id != EXPORT_ID
  }

  predicate AllProper(ss: seq<Section>)
    decreases |ss|
  {
    ss == [] || (Proper(ss[0]) && AllProper(ss[1..]))
  }

  function Id(s: Section): byte {
    match s case Custom(_) => 0 case Other(id, _) => id case Exports(_) => EXPORT_ID
  }

  function Body(s: Section): seq<byte> {
    match s case Custom(body) => body case Other(_, body) => body case Exports(es) => ExportBody(es)
  }

  function SectionBytes(s: Section): seq<byte> {
    [Id(s)] + Leb(|Body(s)|) + Body(s)
  }

  function SectionsBytes(ss: seq<Section>): seq<byte>
    decreases |ss|
  {
    if ss == [] then [] else SectionBytes(ss[0]) + SectionsBytes(ss[1..])
  }

  function ModuleBytes(ss: seq<Section>): seq<byte> {
    HEADER + SectionsBytes(ss)
  }

  /** Numbers of the non-custom sections grow strictly. */
  predicate Increasing(previous: byte, ss: seq<Section>)
    decreases |ss|
  {
    ss == [] ||
    (&& (Id(ss[0]) != 0 ==> Id(ss[0]) > previous)
     && Increasing(if Id(ss[0]) != 0 then Id(ss[0]) else previous, ss[1..]))
  }

  predicate ExportedBy(ss: seq<Section>, name: seq<byte>) {
    exists s <- ss :: s.Exports? && Exported(s.exports, name)
  }

  /** Which of the four lifecycle functions have been seen. */
  datatype Found = Found(init: bool, onEvent: bool, health: bool, shutdown: bool)

  function Mark(f: Found, section: seq<byte>): Found {
    Found(f.init || HasFunction(section, INIT), f.onEvent || HasFunction(section, ON_EVENT),
          f.health || HasFunction(section, HEALTH), f.shutdown || HasFunction(section, SHUTDOWN))
  }

  /** The bodies of the sections in order, with the marks made on the way; `None` when the layout is bad. */
  function Walk(payload: seq<byte>, offset: nat, previous: byte, found: Found): Option<Found>
    decreases if offset < |payload| then |payload| - offset else 0
  {
    if offset >= |payload| then Some(found)
    else
      var id := payload[offset];
      match U32At(payload, offset + 1)
      case None => None
      case Some(len) =>
        if len.value > |payload| - len.next then None
        else if id != 0 && id <= previous then None
        else
          var end := len.next + len.value;
          Walk(payload, end, if id != 0 then id else previous,
               if id == EXPORT_ID then Mark(found, payload[len.next..end]) else found)
  }

  predicate HasRequiredExports(payload: seq<byte>) {
    && |payload| >= 8 && payload[..8] == HEADER
    && Walk(payload, 8, 0, Found(false, false, false, false)) == Some(Found(true, true, true, true))
  }

  function Marks(found: array<bool>): Found
    requires found.Length == 4
    reads found
  {
    Found(found[0], found[1], found[2], found[3])
  }

  /** `wasm_payload_has_required_exports`. */
  method PayloadHasRequiredExports(payload: seq<byte>) returns (ok: bool)
    ensures ok == HasRequiredExports(payload)
  {
    if |payload| < 8 || payload[..8] != HEADER { return false; }
    var found := new bool[4](r => false);
    hide Walk;
    var well := WalkSections(payload, found);
    ok := well && found[0] && found[1] && found[2] && found[3];
  }

  method WalkSections(payload: seq<byte>, found: array<bool>) returns (well: bool)
    requires |payload| >= 8 && found.Length == 4
    modifies found
    ensures var marks := Walk(payload, 8, 0, old(Marks(found)));
            well == marks.Some? && (well ==> marks == Some(Marks(found)))
  {
    hide Mark, U32At, HasFunction, Marks;
    var offset, previous: byte := 8, 0;
    while offset < |payload|
      invariant 8 <= offset <= |payload|
      invariant Walk(payload, 8, 0, old(Marks(found))) == Walk(payload, offset, previous, Marks(found))
    {
      var id := payload[offset];
      var len := ReadLeb(payload, offset + 1);
      if len.None? || len.value.value > |payload| - len.value.next { return false; }
      if id != 0 && id <= previous { return false; }
      var end := len.value.next + len.value.value;
      if id == EXPORT_ID {
        MarkFound(found, payload[len.value.next..end]);
      }
      if id != 0 { previous := id; }
      offset := end;
    }
    well := true;
  }

  /** The loop over the required names. */
  method MarkFound(found: array<bool>, section: seq<byte>)
    requires found.Length == 4
    modifies found
    ensures Marks(found) == Mark(old(Marks(found)), section)
  {
    hide HasFunction;
    var required := [INIT, ON_EVENT, HEALTH, SHUTDOWN];
    for r := 0 to 4
      invariant forall k :: 0 <= k < r ==> found[k] == (old(found[k]) || HasFunction(section, required[k]))
      invariant forall k :: r <= k < 4 ==> found[k] == old(found[k])
    {
      if !found[r] {
        found[r] := SectionHasFunction(section, required[r]);
      }
    }
  }

  // ---- what the scan finds in a printed module

  lemma WalkAt(payload: seq<byte>, offset: nat, previous: byte, found: Found, len: Number)
    requires offset < |payload| && U32At(payload, offset + 1) == Some(len) && len.next + len.value <= |payload|
    ensures var id, end := payload[offset], len.next + len.value;
            Walk(payload, offset, previous, found) ==
            if id != 0 && id <= previous then None
            else Walk(payload, end, if id != 0 then id else previous,
                      if id == EXPORT_ID then Mark(found, payload[len.next..end]) else found)
  {
    hide Mark, U32At;
  }

  lemma ThreeParts(buf: seq<byte>, offset: nat, first: byte, x: seq<byte>, y: seq<byte>, rest: seq<byte>)
    requires At(buf, offset, [first] + x + y + rest)
    ensures offset < |buf| && buf[offset] == first && At(buf, offset + 1, x)
    ensures At(buf, offset + 1 + |x|, y) && At(buf, offset + 1 + |x| + |y|, rest)
  {
    AtSplit(buf, offset, [first] + x + y, rest);
    AtSplit(buf, offset, [first] + x, y);
    AtSplit(buf, offset, [first], x);
    assert buf[offset] == buf[offset..offset + 1][0];
  }

  /** One more section read: `s` stands at the offset, and `rest` after it. */
  lemma WalkStep(s: Section, rest: seq<byte>, payload: seq<byte>, offset: nat, previous: byte, found: Found)
    requires At(payload, offset, SectionBytes(s) + rest) && |payload| <= MAX_U32
    ensures At(payload, offset + |SectionBytes(s)|, rest)
    ensures Walk(payload, offset, previous, found) ==
            if Id(s) != 0 && Id(s) <= previous then None
            else Walk(payload, offset + |SectionBytes(s)|, if Id(s) != 0 then Id(s) else previous,
                      if Id(s) == EXPORT_ID then Mark(found, Body(s)) else found)
  {
    hide Leb, Walk, Mark, U32At, At, Id, Body;
    var body := Body(s);
    var len := Leb(|body|);
    ThreeParts(payload, offset, Id(s), len, body, rest);
    NumberedBody(payload, offset + 1, len, body);
    LebRoundTrip(|body|, payload, offset + 1);
    WalkAt(payload, offset, previous, found, Number(|body|, offset + 1 + |len|));
  }

  lemma NumberedBody(buf: seq<byte>, offset: nat, len: seq<byte>, body: seq<byte>)
    requires At(buf, offset + |len|, body) && |buf| <= MAX_U32
    ensures |body| <= MAX_U32 && offset + |len| + |body| <= |buf|
    ensures buf[offset + |len|..offset + |len| + |body|] == body
  {
  }

  /** The marks after some sections are the marks before them, and what they export. */
  predicate Marked(before: Found, after: Found, ss: seq<Section>) {
    && (after.init <==> before.init || ExportedBy(ss, INIT))
    && (after.onEvent <==> before.onEvent || ExportedBy(ss, ON_EVENT))
    && (after.health <==> before.health || ExportedBy(ss, HEALTH))
    && (after.shutdown <==> before.shutdown || ExportedBy(ss, SHUTDOWN))
  }

  lemma ExportedByFirst(ss: seq<Section>, name: seq<byte>)
    requires ss != [] && Proper(ss[0]) && |Body(ss[0])| <= MAX_U32
    ensures ExportedBy(ss, name) <==>
            (Id(ss[0]) == EXPORT_ID && HasFunction(Body(ss[0]), name)) || ExportedBy(ss[1..], name)
  {
    assert ss == [ss[0]] + ss[1..];
    if ss[0].Exports? {
      ExportSectionRead(ss[0].exports, name);
    }
    hide Exported, HasFunction, ExportBody;
  }

  lemma MarkedFirst(before: Found, after: Found, ss: seq<Section>)
    requires ss != [] && Proper(ss[0]) && |Body(ss[0])| <= MAX_U32
    requires Marked(if Id(ss[0]) == EXPORT_ID then Mark(before, Body(ss[0])) else before, after, ss[1..])
    ensures Marked(before, after, ss)
  {
    hide Body, Id, Exported, ExportedBy, HasFunction;
    ExportedByFirst(ss, INIT);
    ExportedByFirst(ss, ON_EVENT);
    ExportedByFirst(ss, HEALTH);
    ExportedByFirst(ss, SHUTDOWN);
  }

  predicate Walked(ss: seq<Section>, previous: byte, found: Found, result: Option<Found>) {
    if Increasing(previous, ss) then result.Some? && Marked(found, result.value, ss) else result.None?
  }

  lemma WalkedFirst(ss: seq<Section>, previous: byte, found: Found, result: Option<Found>)
    requires ss != [] && Proper(ss[0]) && |Body(ss[0])| <= MAX_U32
    requires var id := Id(ss[0]);
             if id != 0 && id <= previous then result == None
             else Walked(ss[1..], if id != 0 then id else previous,
                         if id == EXPORT_ID then Mark(found, Body(ss[0])) else found, result)
    ensures Walked(ss, previous, found, result)
  {
    var id := Id(ss[0]);
    var next := if id != 0 then id else previous;
    if (id == 0 || id > previous) && Increasing(next, ss[1..]) {
      MarkedFirst(found, result.value, ss);
    }
    hide Body, Id, Marked, Mark;
  }

  lemma NothingToWalk(payload: seq<byte>, offset: nat, previous: byte, found: Found)
    ensures offset + |SectionsBytes([])| == |payload| ==>
              Walked([], previous, found, Walk(payload, offset, previous, found))
  {
  }

  lemma SectionsFirst(ss: seq<Section>)
    requires ss != [] && AllProper(ss)
    ensures SectionsBytes(ss) == SectionBytes(ss[0]) + SectionsBytes(ss[1..])
    ensures Proper(ss[0]) && AllProper(ss[1..]) && |Body(ss[0])| <= |SectionBytes(ss[0])|
  {
    hide Body;
  }

  lemma {:induction false} WalkPrinted(ss: seq<Section>, payload: seq<byte>, offset: nat, previous: byte, found: Found)
    requires At(payload, offset, SectionsBytes(ss)) && offset + |SectionsBytes(ss)| == |payload| <= MAX_U32
    requires AllProper(ss)
    ensures Walked(ss, previous, found, Walk(payload, offset, previous, found))
    decreases |ss|
  {
    hide Walk, Mark, At, SectionsBytes, SectionBytes, Body, Id, Walked, AllProper, Proper;
    if ss == [] {
      NothingToWalk(payload, offset, previous, found);
    } else {
      SectionsFirst(ss);
      var s, rest := ss[0], ss[1..];
      WalkStep(s, SectionsBytes(rest), payload, offset, previous, found);
      if Id(s) == 0 || Id(s) > previous {
        WalkPrinted(rest, payload, offset + |SectionBytes(s)|, if Id(s) != 0 then Id(s) else previous,
                    if Id(s) == EXPORT_ID then Mark(found, Body(s)) else found);
      }
      WalkedFirst(ss, previous, found, Walk(payload, offset, previous, found));
    }
  }

  /** The scan accepts a printed module exactly when its sections are in order and all four names are functions. */
  lemma AcceptsPrinted(ss: seq<Section>)
    requires AllProper(ss) && |ModuleBytes(ss)| <= MAX_U32
    ensures HasRequiredExports(ModuleBytes(ss)) <==>
            && Increasing(0, ss)
            && ExportedBy(ss, INIT) && ExportedBy(ss, ON_EVENT) && ExportedBy(ss, HEALTH) && ExportedBy(ss, SHUTDOWN)
  {
    var payload := ModuleBytes(ss);
    assert payload[..8] == HEADER;
    assert payload[8..|payload|] == SectionsBytes(ss);
    hide Walk, SectionsBytes, ExportedBy, Increasing;
    WalkPrinted(ss, payload, 8, 0, Found(false, false, false, false));
  }
}
