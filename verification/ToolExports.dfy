/** The host tool's own scan for exported functions, and why it never accepts what the firmware refuses. */
module ToolExports {
  import opened Words
  import opened Slices
  import opened WasmExports
  import GuestEncoding

  /** The tool's numbers are unbounded, and a name must be UTF-8. */
  function ToolEntryAt(section: seq<byte>, offset: nat): (r: Option<Entry>)
    ensures r.Some? ==> offset + 3 <= r.value.next <= |section|
  {
    match LebAt(section, offset, 5)
    case None => None
    case Some(len) =>
      var after := len.next + len.value;
      if after >= |section| || !GuestEncoding.IsUtf8(section[len.next..after]) then None
      else
        match LebAt(section, after + 1, 5)
        case None => None
        case Some(index) => Some(Entry(section[len.next..after], section[after], index.next))
  }

  /** The functions among `count` exports; nothing at all when one of them is malformed. */
  function ExportSet(section: seq<byte>, offset: nat, count: nat): Option<set<seq<byte>>>
    decreases count
  {
    if count == 0 then Some({})
    else
      match ToolEntryAt(section, offset)
      case None => None
      case Some(e) =>
        match ExportSet(section, e.next, count - 1)
        case None => None
        case Some(rest) => Some(rest + if e.kind == FUNCTION then {e.name} else {})
  }

  function SectionSet(section: seq<byte>): Option<set<seq<byte>>> {
    match LebAt(section, 0, 5)
    case None => None
    case Some(count) => ExportSet(section, count.next, count.value)
  }

  function ToolWalk(payload: seq<byte>, offset: nat, previous: byte): Option<set<seq<byte>>>
    decreases if offset < |payload| then |payload| - offset else 0
  {
    if offset >= |payload| then Some({})
    else
      var id := payload[offset];
      match LebAt(payload, offset + 1, 5)
      case None => None
      case Some(len) =>
        var end := len.next + len.value;
        if end > |payload| || (id != 0 && id <= previous) then None
        else
          match if id == EXPORT_ID then SectionSet(payload[len.next..end]) else Some({})
          case None => None
          case Some(here) =>
            match ToolWalk(payload, end, if id != 0 then id else previous)
            case None => None
            case Some(later) => Some(here + later)
  }

  predicate ToolHasRequired(payload: seq<byte>) {
    && |payload| >= 8 && payload[..8] == HEADER
    && var names := ToolWalk(payload, 8, 0);
       names.Some? && INIT in names.value && ON_EVENT in names.value && HEALTH in names.value && SHUTDOWN in names.value
  }

  /** A number that fits the buffer is the same for both readers. */
  lemma SameNumber(buf: seq<byte>, offset: nat, bound: nat)
    requires LebAt(buf, offset, 5).Some? && LebAt(buf, offset, 5).value.value <= bound <= MAX_U32
    ensures U32At(buf, offset) == LebAt(buf, offset, 5)
  {
  }

  lemma EntrySeen(section: seq<byte>, offset: nat)
    requires |section| <= MAX_U32 && ToolEntryAt(section, offset).Some?
    ensures EntryAt(section, offset) == ToolEntryAt(section, offset)
  {
    SameNumber(section, offset, |section|);
    hide LebAt, GuestEncoding.IsUtf8;
  }

  lemma {:induction false} ScanSees(section: seq<byte>, offset: nat, count: nat, name: seq<byte>)
    requires |section| <= MAX_U32 && ExportSet(section, offset, count).Some? && offset <= |section|
    ensures count <= |section| - offset
    ensures name in ExportSet(section, offset, count).value ==> ScanExports(section, offset, count, name)
    decreases count
  {
    hide ToolEntryAt, EntryAt, ScanExports;
    if count > 0 {
      EntrySeen(section, offset);
      ScanStep(section, offset, count, name);
      ScanSees(section, ToolEntryAt(section, offset).value.next, count - 1, name);
    }
  }

  lemma SectionSees(section: seq<byte>, name: seq<byte>)
    requires |section| <= MAX_U32 && SectionSet(section).Some? && name in SectionSet(section).value
    ensures HasFunction(section, name)
  {
    var count := LebAt(section, 0, 5).value;
    ScanSees(section, count.next, count.value, name);
    SameNumber(section, 0, |section|);
    hide LebAt, U32At, ExportSet, ScanExports;
  }

  /** Every name in the set is marked, on top of the marks made before. */
  predicate Covers(before: Found, after: Found, names: set<seq<byte>>) {
    && (before.init || INIT in names ==> after.init)
    && (before.onEvent || ON_EVENT in names ==> after.onEvent)
    && (before.health || HEALTH in names ==> after.health)
    && (before.shutdown || SHUTDOWN in names ==> after.shutdown)
  }

  lemma MarkCovers(before: Found, section: seq<byte>)
    requires |section| <= MAX_U32 && SectionSet(section).Some?
    ensures Covers(before, Mark(before, section), SectionSet(section).value)
  {
    var names := SectionSet(section).value;
    if INIT in names { SectionSees(section, INIT); }
    if ON_EVENT in names { SectionSees(section, ON_EVENT); }
    if HEALTH in names { SectionSees(section, HEALTH); }
    if SHUTDOWN in names { SectionSees(section, SHUTDOWN); }
    hide SectionSet, HasFunction;
  }

  lemma CoversBoth(a: Found, b: Found, c: Found, here: set<seq<byte>>, later: set<seq<byte>>)
    requires Covers(a, b, here) && Covers(b, c, later)
    ensures Covers(a, c, here + later)
  {
  }

  lemma CoversSelf(f: Found)
    ensures Covers(f, f, {})
  {
  }

  /** What the tool's walk does first, in the firmware's terms. */
  lemma WalkFirst(payload: seq<byte>, offset: nat, previous: byte, found: Found)
    returns (here: set<seq<byte>>, end: nat, next: byte, marked: Found)
    requires |payload| <= MAX_U32 && offset < |payload| && ToolWalk(payload, offset, previous).Some?
    ensures offset < end && Covers(found, marked, here) && ToolWalk(payload, end, next).Some?
    ensures ToolWalk(payload, offset, previous) == Some(here + ToolWalk(payload, end, next).value)
    ensures Walk(payload, offset, previous, found) == Walk(payload, end, next, marked)
  {
    hide Mark, SectionSet, Covers, LebAt, U32At;
    var id, len := payload[offset], LebAt(payload, offset + 1, 5).value;
    end, next := len.next + len.value, if id != 0 then id else previous;
    SameNumber(payload, offset + 1, |payload|);
    var section := payload[len.next..end];
    here := if id == EXPORT_ID then SectionSet(section).value else {};
    marked := if id == EXPORT_ID then Mark(found, section) else found;
    CoversSelf(found);
    if id == EXPORT_ID {
      MarkCovers(found, section);
    }
    WalkAt(payload, offset, previous, found, len);
  }

  lemma {:induction false} WalkCovers(payload: seq<byte>, offset: nat, previous: byte, found: Found)
    requires |payload| <= MAX_U32 && ToolWalk(payload, offset, previous).Some?
    ensures var marks := Walk(payload, offset, previous, found);
            marks.Some? && Covers(found, marks.value, ToolWalk(payload, offset, previous).value)
    decreases if offset < |payload| then |payload| - offset else 0
  {
    if offset >= |payload| {
      CoversSelf(found);
    } else {
      var here, end, next, marked := WalkFirst(payload, offset, previous, found);
      hide Walk, ToolWalk, Covers;
      WalkCovers(payload, end, next, marked);
      CoversBoth(found, marked, Walk(payload, end, next, marked).value, here, ToolWalk(payload, end, next).value);
    }
  }

  /** Whatever the tool passes, the firmware's scan passes. */
  lemma ToolIsStricter(payload: seq<byte>)
    requires |payload| <= MAX_U32 && ToolHasRequired(payload)
    ensures HasRequiredExports(payload)
  {
    hide Walk, ToolWalk;
    WalkCovers(payload, 8, 0, Found(false, false, false, false));
  }

  // ---- on printed modules with readable names the two agree

  predicate Readable(es: seq<Export>)
    decreases |es|
  {
    es == [] || (GuestEncoding.IsUtf8(es[0].name) && Readable(es[1..]))
  }

  predicate AllReadable(ss: seq<Section>)
    decreases |ss|
  {
    ss == [] || ((ss[0].Exports? ==> Readable(ss[0].exports)) && AllReadable(ss[1..]))
  }

  lemma ToolEntryPrinted(e: Export, section: seq<byte>, offset: nat)
    requires At(section, offset, ExportBytes(e)) && |section| <= MAX_U32 && GuestEncoding.IsUtf8(e.name)
    ensures ToolEntryAt(section, offset) == Some(Entry(e.name, e.kind, offset + |ExportBytes(e)|))
  {
    FivePlaces();
    hide Leb, LebAt, Shl, At, ExportBytes, GuestEncoding.IsUtf8;
    ExportParts(e, section, offset);
    LebReadBack(|e.name|, section, offset, 5);
    LebReadBack(e.index, section, offset + |Leb(|e.name|)| + |e.name| + 1, 5);
  }

  lemma {:induction false} ToolScanPrinted(es: seq<Export>, section: seq<byte>, offset: nat, name: seq<byte>)
    requires At(section, offset, ExportsBytes(es)) && |section| <= MAX_U32 && Readable(es)
    ensures var names := ExportSet(section, offset, |es|);
            names.Some? && (Exported(es, name) ==> name in names.value)
    decreases |es|
  {
    hide ToolEntryAt, ExportBytes, Exported, At, ExportsBytes, Readable;
    if es == [] {
      NothingToScan(section, offset, name);
    } else {
      ReadableFirst(es);
      ExportsFirst(es);
      AtSplit(section, offset, ExportBytes(es[0]), ExportsBytes(es[1..]));
      ToolEntryPrinted(es[0], section, offset);
      ExportedFirst(es, name);
      ToolScanPrinted(es[1..], section, offset + |ExportBytes(es[0])|, name);
    }
  }

  lemma ReadableFirst(es: seq<Export>)
    requires es != [] && Readable(es)
    ensures GuestEncoding.IsUtf8(es[0].name) && Readable(es[1..])
  {
    hide GuestEncoding.IsUtf8;
  }

  lemma ToolSectionPrinted(es: seq<Export>, name: seq<byte>)
    requires |ExportBody(es)| <= MAX_U32 && Readable(es)
    ensures var names := SectionSet(ExportBody(es));
            names.Some? && (Exported(es, name) ==> name in names.value)
  {
    var section := ExportBody(es);
    assert section[0..|section|] == section;
    AtSplit(section, 0, Leb(|es|), ExportsBytes(es));
    FivePlaces();
    hide LebAt, Shl, At, ExportBody, Leb, ExportsBytes, Exported, ExportSet, Readable;
    LebReadBack(|es|, section, 0, 5);
    ToolScanPrinted(es, section, |Leb(|es|)|, name);
  }

  /** One more section read by the tool. */
  lemma ToolWalkStep(s: Section, rest: seq<byte>, payload: seq<byte>, offset: nat, previous: byte)
    requires At(payload, offset, SectionBytes(s) + rest) && |payload| <= MAX_U32
    requires Id(s) == 0 || Id(s) > previous
    ensures At(payload, offset + |SectionBytes(s)|, rest) && |Body(s)| <= MAX_U32
    ensures var here := if Id(s) == EXPORT_ID then SectionSet(Body(s)) else Some({});
            var later := ToolWalk(payload, offset + |SectionBytes(s)|, if Id(s) != 0 then Id(s) else previous);
            ToolWalk(payload, offset, previous) ==
            if here.None? then None else if later.None? then None else Some(here.value + later.value)
  {
    FivePlaces();
    hide Leb, LebAt, Shl, SectionSet, At, Id, Body;
    var body := Body(s);
    var len := Leb(|body|);
    ThreeParts(payload, offset, Id(s), len, body, rest);
    NumberedBody(payload, offset + 1, len, body);
    LebReadBack(|body|, payload, offset + 1, 5);
    hide ToolWalk;
    ToolWalkAt(payload, offset, previous, Number(|body|, offset + 1 + |len|));
  }

  lemma ToolWalkAt(payload: seq<byte>, offset: nat, previous: byte, len: Number)
    requires offset < |payload| && LebAt(payload, offset + 1, 5) == Some(len) && len.next + len.value <= |payload|
    requires payload[offset] == 0 || payload[offset] > previous
    ensures var id, end := payload[offset], len.next + len.value;
            var here := if id == EXPORT_ID then SectionSet(payload[len.next..end]) else Some({});
            var later := ToolWalk(payload, end, if id != 0 then id else previous);
            ToolWalk(payload, offset, previous) ==
            if here.None? then None else if later.None? then None else Some(here.value + later.value)
  {
    hide LebAt, SectionSet;
  }

  lemma SectionNames(s: Section, name: seq<byte>)
    requires Proper(s) && |Body(s)| <= MAX_U32 && (s.Exports? ==> Readable(s.exports))
    ensures var names := if Id(s) == EXPORT_ID then SectionSet(Body(s)) else Some({});
            names.Some? && (s.Exports? && Exported(s.exports, name) ==> name in names.value)
  {
    if s.Exports? {
      ToolSectionPrinted(s.exports, name);
    }
    hide SectionSet, Exported, ExportBody, Readable;
  }

  lemma {:induction false} ToolWalkPrinted(
      ss: seq<Section>, payload: seq<byte>, offset: nat, previous: byte, name: seq<byte>)
    requires At(payload, offset, SectionsBytes(ss)) && offset + |SectionsBytes(ss)| == |payload| <= MAX_U32
    requires AllProper(ss) && AllReadable(ss) && Increasing(previous, ss)
    ensures var names := ToolWalk(payload, offset, previous);
            names.Some? && (ExportedBy(ss, name) ==> name in names.value)
    decreases |ss|
  {
    hide ToolWalk, SectionSet, At, SectionsBytes, SectionBytes, Body, Id, AllProper, AllReadable, Proper, ExportedBy,
         Exported, Increasing, Readable, HasFunction;
    if ss == [] {
      NothingForTool(payload, offset, previous, name);
    } else {
      var s, rest := ss[0], ss[1..];
      SectionsFirst(ss);
      InOrderFirst(previous, ss);
      ToolWalkStep(s, SectionsBytes(rest), payload, offset, previous);
      SectionNames(s, name);
      ExportedByEither(ss, name);
      ToolWalkPrinted(rest, payload, offset + |SectionBytes(s)|, if Id(s) != 0 then Id(s) else previous, name);
    }
  }

  lemma NothingForTool(payload: seq<byte>, offset: nat, previous: byte, name: seq<byte>)
    ensures offset + |SectionsBytes([])| == |payload| ==> ToolWalk(payload, offset, previous) == Some({})
    ensures !ExportedBy([], name)
  {
  }

  lemma InOrderFirst(previous: byte, ss: seq<Section>)
    requires ss != [] && Increasing(previous, ss) && AllReadable(ss)
    ensures Id(ss[0]) == 0 || Id(ss[0]) > previous
    ensures Increasing(if Id(ss[0]) != 0 then Id(ss[0]) else previous, ss[1..])
    ensures AllReadable(ss[1..]) && (ss[0].Exports? ==> Readable(ss[0].exports))
  {
    hide Id, Readable;
  }

  lemma ExportedByEither(ss: seq<Section>, name: seq<byte>)
    requires ss != []
    ensures ExportedBy(ss, name) <==> (ss[0].Exports? && Exported(ss[0].exports, name)) || ExportedBy(ss[1..], name)
  {
    assert ss == [ss[0]] + ss[1..];
    hide Exported;
  }

  /** On every printed module whose export names are UTF-8, tool and firmware give the same answer. */
  lemma PrintedAgree(ss: seq<Section>)
    requires AllProper(ss) && AllReadable(ss) && |ModuleBytes(ss)| <= MAX_U32
    ensures ToolHasRequired(ModuleBytes(ss)) <==> HasRequiredExports(ModuleBytes(ss))
  {
    var payload := ModuleBytes(ss);
    assert payload[..8] == HEADER;
    assert payload[8..|payload|] == SectionsBytes(ss);
    hide HasRequiredExports, ToolWalk, SectionsBytes, ExportedBy, Increasing, AllProper, AllReadable;
    AcceptsPrinted(ss);
    if ToolHasRequired(payload) {
      ToolIsStricter(payload);
    } else if HasRequiredExports(payload) {
      ToolWalkPrinted(ss, payload, 8, 0, INIT);
      ToolWalkPrinted(ss, payload, 8, 0, ON_EVENT);
      ToolWalkPrinted(ss, payload, 8, 0, HEALTH);
      ToolWalkPrinted(ss, payload, 8, 0, SHUTDOWN);
      assert false;
    }
  }
}
