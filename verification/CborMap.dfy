/** Looking a key up in an encoded map, and what the builder's encodings hold. */
module CborMap {
  import opened Words
  import opened BigEndians
  import opened Slices
  import opened Status
  import opened CborHead
  import opened CborReader

  type i32 = x: int | -0x8000_0000 <= x < 0x8000_0000

  predicate IsEmptyOrMap(buf: seq<byte>) {
    |buf| == 0 ||
    (ItemAt(buf, 0).Ok? && ItemAt(buf, 0).value.major == MAP && ItemAt(buf, 0).value.next == |buf|)
  }

  function SearchPairs(buf: seq<byte>, offset: nat, pairs: nat, key: u32): Result<Item>
    requires offset <= |buf|
    decreases pairs
  {
    if pairs == 0 then Err(if offset != |buf| then ERR_BAD_ENCODING else ERR_NOT_AVAILABLE)
    else
      var k := ItemAt(buf, offset);
      if k.Err? then Err(k.status)
      else
        var v := ItemAt(buf, k.value.next);
        if v.Err? then Err(v.status)
        else if k.value.major == UNSIGNED && k.value.value == key then v
        else SearchPairs(buf, v.value.next, pairs - 1, key)
  }

  function Find(buf: seq<byte>, key: u32): Result<Item> {
    if |buf| == 0 then Err(ERR_NOT_AVAILABLE)
    else
      var head := HeadAt(buf, 0);
      if head.Err? then Err(head.status)
      else if head.value.major != MAP || head.value.value > MAX_ENTRIES then Err(ERR_BAD_ENCODING)
      else SearchPairs(buf, head.value.next, head.value.value, key)
  }

  /** `find_item`. */
  method FindItem(buf: seq<byte>, key: u32) returns (status: u32, item: Item)
    requires |buf| <= MAX_U32
    ensures (if status == OK then Ok(item) else Err(status)) == Find(buf, key)
  {
    item := Item(0, 0, 0, 0, 0, false, false);
    if |buf| == 0 { return ERR_NOT_AVAILABLE, item; }
    var major, entries, offset: u32;
    status, major, entries, offset := ReadTypeValue(buf, 0);
    if status != OK { return; }
    if major != MAP || entries > MAX_ENTRIES { return ERR_BAD_ENCODING, item; }
    hide SearchPairs, HeadAt;
    status, item := Search(buf, offset, entries, key);
  }

  /** The loop of `find_item`. */
  method Search(buf: seq<byte>, start: u32, pairs: nat, key: u32) returns (status: u32, item: Item)
    requires |buf| <= MAX_U32 && start <= |buf|
    ensures (if status == OK then Ok(item) else Err(status)) == SearchPairs(buf, start, pairs, key)
  {
    hide ItemAt;
    var offset: u32 := start;
    for i := 0 to pairs
      invariant offset <= |buf|
      invariant SearchPairs(buf, start, pairs, key) == SearchPairs(buf, offset, pairs - i, key)
    {
      var k;
      status, k := ReadItem(buf, offset);
      if status != OK { return status, k; }
      status, item := ReadItem(buf, k.next);
      if status != OK { return; }
      offset := item.next;
      if k.major == UNSIGNED && k.value == key { return; }
    }
    status := if offset != |buf| then ERR_BAD_ENCODING else ERR_NOT_AVAILABLE;
    item := Item(0, 0, 0, 0, 0, false, false);
  }

  // ---- typed access

  function AsU32(item: Item): Result<u32> {
    if item.major != UNSIGNED || item.value > MAX_U32 then Err(ERR_BAD_ENCODING) else Ok(item.value)
  }

  function AsU64(item: Item): Result<u64> {
    if item.major != UNSIGNED then Err(ERR_BAD_ENCODING) else Ok(item.value)
  }

  function AsI32(item: Item): Result<i32> {
    if item.major == UNSIGNED && item.value <= 0x7fff_ffff then Ok(item.value)
    else if item.major == NEGATIVE && item.value <= 0x7fff_ffff then Ok(-1 - item.value)
    else Err(ERR_BAD_ENCODING)
  }

  function AsBool(item: Item): Result<bool> {
    if !item.isBool then Err(ERR_BAD_ENCODING) else Ok(item.boolValue)
  }

  function Payload(buf: seq<byte>, item: Item, major: byte): Result<seq<byte>>
    requires item.start + item.size <= |buf|
  {
    if item.major != major then Err(ERR_BAD_ENCODING) else Ok(buf[item.start..item.start + item.size])
  }

  function FindU32(buf: seq<byte>, key: u32): Result<u32> {
    match Find(buf, key) case Ok(item) => AsU32(item) case Err(status) => Err(status)
  }

  function FindU64(buf: seq<byte>, key: u32): Result<u64> {
    match Find(buf, key) case Ok(item) => AsU64(item) case Err(status) => Err(status)
  }

  function FindI32(buf: seq<byte>, key: u32): Result<i32> {
    match Find(buf, key) case Ok(item) => AsI32(item) case Err(status) => Err(status)
  }

  function FindBool(buf: seq<byte>, key: u32): Result<bool> {
    match Find(buf, key) case Ok(item) => AsBool(item) case Err(status) => Err(status)
  }

  lemma {:induction false} SearchStaysInside(buf: seq<byte>, offset: nat, pairs: nat, key: u32)
    requires offset <= |buf| && SearchPairs(buf, offset, pairs, key).Ok?
    ensures var item := SearchPairs(buf, offset, pairs, key).value;
            item.start + item.size <= |buf| && item.next <= |buf|
    decreases pairs
  {
    hide ItemAt;
    if pairs > 0 {
      var v := ItemAt(buf, ItemAt(buf, offset).value.next);
      if SearchPairs(buf, offset, pairs, key) != v {
        SearchStaysInside(buf, v.value.next, pairs - 1, key);
      }
    }
  }

  lemma FindStaysInside(buf: seq<byte>, key: u32)
    requires Find(buf, key).Ok?
    ensures var item := Find(buf, key).value;
            item.start + item.size <= |buf| && item.next <= |buf|
  {
    SearchStaysInside(buf, HeadAt(buf, 0).value.next, HeadAt(buf, 0).value.value, key);
    hide SearchPairs;
  }

  function FindPayload(buf: seq<byte>, key: u32, major: byte): Result<seq<byte>> {
    match Find(buf, key)
    case Ok(item) =>
      FindStaysInside(buf, key);
      Payload(buf, item, major)
    case Err(status) => Err(status)
  }

  // ---- encodings

  datatype Field =
    | Uint(u: u64)
    | Int(i: i32)
    | Flag(b: bool)
    | Blob(data: seq<byte>)
    | Str(text: seq<byte>)

  datatype Entry = Entry(key: u32, field: Field)

  predicate Sized(f: Field) {
    (f.Blob? ==> |f.data| <= MAX_U32) && (f.Str? ==> |f.text| <= MAX_U32)
  }

  predicate AllSized(es: seq<Entry>) {
    forall e <- es :: Sized(e.field)
  }

  function FieldBytes(f: Field): seq<byte>
    requires Sized(f)
  {
    match f
    case Uint(u) => HeadBytes(UNSIGNED, u)
    case Int(i) => if i >= 0 then HeadBytes(UNSIGNED, i) else HeadBytes(NEGATIVE, -1 - i)
    case Flag(b) => [if b then SIMPLE_TRUE else SIMPLE_FALSE]
    case Blob(data) => HeadBytes(BYTES, |data|) + data
    case Str(text) => HeadBytes(TEXT, |text|) + text
  }

  function EntryBytes(e: Entry): seq<byte>
    requires Sized(e.field)
  {
    HeadBytes(UNSIGNED, e.key) + FieldBytes(e.field)
  }

  function EntriesBytes(es: seq<Entry>): seq<byte>
    requires AllSized(es)
    decreases |es|
  {
    if es == [] then [] else EntryBytes(es[0]) + EntriesBytes(es[1..])
  }

  function MapBytes(es: seq<Entry>): seq<byte>
    requires AllSized(es) && |es| <= MAX_ENTRIES
  {
    HeadBytes(MAP, |es|) + EntriesBytes(es)
  }

  /** The first entry with the key. */
  function Lookup(es: seq<Entry>, key: u32): Result<Field>
    decreases |es|
  {
    if es == [] then Err(ERR_NOT_AVAILABLE)
    else if es[0].key == key then Ok(es[0].field)
    else Lookup(es[1..], key)
  }

  function TreeOf(f: Field): (t: Tree)
    requires Sized(f)
  {
    match f
    case Uint(u) => Atom(UNSIGNED, Shortest(u), u)
    case Int(i) =>
      if i >= 0 then Atom(UNSIGNED, Shortest(i), i) else Atom(NEGATIVE, Shortest(-1 - i), -1 - i)
    case Flag(b) => Atom(SIMPLE, 0, if b then 21 else 20)
    case Blob(data) => Chunk(BYTES, Shortest(|data|), data)
    case Str(text) => Chunk(TEXT, Shortest(|text|), text)
  }

  lemma FieldIsTree(f: Field)
    requires Sized(f)
    ensures WellFormed(TreeOf(f)) && Print(TreeOf(f)) == FieldBytes(f)
  {
    hide Shortest, Power, BigEndian, AllWellFormed;
    assert f.Flag? ==> BigEndian(if f.b then 21 else 20, 0) == [] by {
      assert |BigEndian(20, 0)| == |BigEndian(21, 0)| == 0;
    }
  }

  // What each typed finder must answer on a field of each kind.

  function U64Of(f: Field): Result<u64> {
    match f
    case Uint(u) => Ok(u)
    case Int(x) => if x >= 0 then Ok(x as u64) else Err(ERR_BAD_ENCODING)
    case _ => Err(ERR_BAD_ENCODING)
  }

  function U32Of(f: Field): Result<u32> {
    match U64Of(f)
    case Ok(u) => if u <= MAX_U32 then Ok(u) else Err(ERR_BAD_ENCODING)
    case Err(status) => Err(status)
  }

  function I32Of(f: Field): Result<i32> {
    match f
    case Int(x) => Ok(x)
    case Uint(u) => if u < 0x8000_0000 then Ok(u as i32) else Err(ERR_BAD_ENCODING)
    case _ => Err(ERR_BAD_ENCODING)
  }

  function BoolOf(f: Field): Result<bool> {
    match f case Flag(b) => Ok(b) case _ => Err(ERR_BAD_ENCODING)
  }

  function BytesOf(f: Field): Result<seq<byte>> {
    match f case Blob(data) => Ok(data) case _ => Err(ERR_BAD_ENCODING)
  }

  function TextOf(f: Field): Result<seq<byte>> {
    match f case Str(text) => Ok(text) case _ => Err(ERR_BAD_ENCODING)
  }

  /** The typed readings of an item that carries a field: each reads its own kinds and refuses the others. */
  predicate Carries(buf: seq<byte>, item: Item, f: Field) {
    && item.start + item.size <= |buf|
    && AsU32(item) == U32Of(f) && AsU64(item) == U64Of(f) && AsI32(item) == I32Of(f) && AsBool(item) == BoolOf(f)
    && Payload(buf, item, BYTES) == BytesOf(f) && Payload(buf, item, TEXT) == TextOf(f)
  }

  lemma FieldRead(f: Field, buf: seq<byte>, offset: nat)
    requires Sized(f) && At(buf, offset, FieldBytes(f))
    ensures ItemAt(buf, offset).Ok? && ItemAt(buf, offset).value.next == offset + |FieldBytes(f)|
    ensures Carries(buf, ItemAt(buf, offset).value, f)
  {
    hide ItemAt, WellFormed, FieldBytes, Print, TreeOf, Carries, ItemOf, Sized;
    FieldIsTree(f);
    ReadsPrinted(TreeOf(f), buf, offset);
    ItemOfNext(TreeOf(f), offset);
    ItemCarries(f, buf, offset);
  }

  lemma ItemCarries(f: Field, buf: seq<byte>, offset: nat)
    requires Sized(f) && WellFormed(TreeOf(f)) && At(buf, offset, Print(TreeOf(f)))
    ensures Carries(buf, ItemOf(TreeOf(f), offset), f)
  {
    hide WellFormed, HeadAs, Shortest;
    var t := TreeOf(f);
    if t.Chunk? {
      AtSplit(buf, offset, HeadAs(t.major, t.form, |t.data|), t.data);
    }
    hide Print;
  }

  lemma KeyRead(key: u32, buf: seq<byte>, offset: nat)
    requires At(buf, offset, HeadBytes(UNSIGNED, key))
    ensures ItemAt(buf, offset) == Ok(Item(UNSIGNED, key, 0, 0, offset + |HeadBytes(UNSIGNED, key)|, false, false))
  {
    FieldIsTree(Uint(key));
    ReadsPrinted(TreeOf(Uint(key)), buf, offset);
    hide ItemAt, WellFormed, HeadAs, Shortest, Print;
  }

  predicate Finds(buf: seq<byte>, r: Result<Item>, expected: Result<Field>) {
    match expected
    case Ok(f) => r.Ok? && Carries(buf, r.value, f)
    case Err(status) => r == Err(status)
  }

  lemma EntryRead(e: Entry, buf: seq<byte>, offset: nat)
    requires Sized(e.field) && At(buf, offset, EntryBytes(e))
    ensures ItemAt(buf, offset).Ok?
    ensures var k := ItemAt(buf, offset).value;
            && k.major == UNSIGNED && k.value == e.key
            && ItemAt(buf, k.next).Ok?
            && ItemAt(buf, k.next).value.next == offset + |EntryBytes(e)|
            && Carries(buf, ItemAt(buf, k.next).value, e.field)
  {
    hide ItemAt, HeadBytes, FieldBytes, Carries, At, Sized;
    AtSplit(buf, offset, HeadBytes(UNSIGNED, e.key), FieldBytes(e.field));
    KeyRead(e.key, buf, offset);
    FieldRead(e.field, buf, offset + |HeadBytes(UNSIGNED, e.key)|);
  }

  lemma {:induction false} SearchFinds(es: seq<Entry>, key: u32, buf: seq<byte>, offset: nat)
    requires AllSized(es) && At(buf, offset, EntriesBytes(es)) && offset + |EntriesBytes(es)| == |buf|
    ensures Finds(buf, SearchPairs(buf, offset, |es|, key), Lookup(es, key))
    decreases |es|
  {
    hide ItemAt, EntryBytes, EntriesBytes, Carries, At, Sized, Lookup, SearchPairs;
    if es == [] {
      NothingToSearch(buf, offset, key);
    } else {
      EntriesFirst(es);
      AtSplit(buf, offset, EntryBytes(es[0]), EntriesBytes(es[1..]));
      EntryRead(es[0], buf, offset);
      SearchStep(es, key, buf, offset);
      SearchFinds(es[1..], key, buf, offset + |EntryBytes(es[0])|);
    }
  }

  lemma NothingToSearch(buf: seq<byte>, offset: nat, key: u32)
    requires offset <= |buf|
    ensures |EntriesBytes([])| == 0 && Lookup([], key) == Err(ERR_NOT_AVAILABLE)
    ensures offset == |buf| ==> SearchPairs(buf, offset, 0, key) == Err(ERR_NOT_AVAILABLE)
  {
  }

  lemma SearchStep(es: seq<Entry>, key: u32, buf: seq<byte>, offset: nat)
    requires es != [] && offset <= |buf| && ItemAt(buf, offset).Ok?
    requires var k := ItemAt(buf, offset).value;
             k.major == UNSIGNED && k.value == es[0].key && ItemAt(buf, k.next).Ok?
    ensures var v := ItemAt(buf, ItemAt(buf, offset).value.next);
            && SearchPairs(buf, offset, |es|, key)
               == (if es[0].key == key then v else SearchPairs(buf, v.value.next, |es[1..]|, key))
            && Lookup(es, key) == if es[0].key == key then Ok(es[0].field) else Lookup(es[1..], key)
  {
    hide ItemAt;
  }

  /** Every finder returns what was written first under the key, and nothing else is ever found. */
  lemma FindsWritten(es: seq<Entry>, key: u32)
    requires AllSized(es) && |es| <= MAX_ENTRIES
    ensures Finds(MapBytes(es), Find(MapBytes(es), key), Lookup(es, key))
  {
    hide MapBytes, HeadAt, HeadBytes, EntriesBytes, AllSized, SearchPairs, Finds, Lookup, At;
    MapParts(es);
    SearchFinds(es, key, MapBytes(es), |HeadBytes(MAP, |es|)|);
  }

  lemma MapParts(es: seq<Entry>)
    requires AllSized(es) && |es| <= MAX_ENTRIES
    ensures var buf, n := MapBytes(es), |HeadBytes(MAP, |es|)|;
            && |buf| == n + |EntriesBytes(es)| && buf != []
            && HeadAt(buf, 0) == Ok(Head(MAP, |es|, n)) && At(buf, n, EntriesBytes(es))
  {
    hide EntriesBytes, AllSized, HeadAt, Shortest;
    var buf, head := MapBytes(es), HeadBytes(MAP, |es|);
    assert buf[0..|buf|] == buf;
    AtSplit(buf, 0, head, EntriesBytes(es));
    HeadReadBack(buf, 0, MAP, Shortest(|es|), |es|);
  }

  /** What the six typed finders answer for a key under which this field, or nothing, is expected. */
  predicate FindersAnswer(buf: seq<byte>, key: u32, expected: Result<Field>) {
    match expected
    case Ok(f) =>
      && FindU32(buf, key) == U32Of(f) && FindU64(buf, key) == U64Of(f)
      && FindI32(buf, key) == I32Of(f) && FindBool(buf, key) == BoolOf(f)
      && FindPayload(buf, key, BYTES) == BytesOf(f) && FindPayload(buf, key, TEXT) == TextOf(f)
    case Err(status) =>
      && FindU32(buf, key) == Err(status) && FindU64(buf, key) == Err(status)
      && FindI32(buf, key) == Err(status) && FindBool(buf, key) == Err(status)
      && FindPayload(buf, key, BYTES) == Err(status) && FindPayload(buf, key, TEXT) == Err(status)
  }

  /** What the typed finders make of a find. */
  lemma TypedFinds(buf: seq<byte>, key: u32, expected: Result<Field>)
    requires Finds(buf, Find(buf, key), expected)
    ensures FindersAnswer(buf, key, expected)
  {
    hide Find;
  }

  /** On the encoding of any entries, every finder answers for the first entry under the key, whatever its kind. */
  lemma FindersOnWritten(es: seq<Entry>, key: u32)
    requires AllSized(es) && |es| <= MAX_ENTRIES
    ensures FindersAnswer(MapBytes(es), key, Lookup(es, key))
  {
    hide MapBytes, Find, Lookup, Finds, FindersAnswer;
    FindsWritten(es, key);
    TypedFinds(MapBytes(es), key, Lookup(es, key));
  }

  predicate DistinctKeys(es: seq<Entry>) {
    forall j, k :: 0 <= j < k < |es| ==> es[j].key != es[k].key
  }

  /** Each of the six finders returns the value of the entry if it reads its kind, and refuses it otherwise. */
  predicate GivesBack(buf: seq<byte>, e: Entry) {
    FindersAnswer(buf, e.key, Ok(e.field))
  }

  lemma {:induction false} LookupDistinct(es: seq<Entry>, i: nat)
    requires i < |es| && DistinctKeys(es)
    ensures Lookup(es, es[i].key) == Ok(es[i].field)
    decreases |es|
  {
    if i > 0 {
      LookupDistinct(es[1..], i - 1);
    }
  }

  /** With distinct keys, each key gives its own value back. */
  lemma FindsEach(es: seq<Entry>, i: nat)
    requires AllSized(es) && |es| <= MAX_ENTRIES && i < |es| && DistinctKeys(es)
    ensures GivesBack(MapBytes(es), es[i])
  {
    LookupDistinct(es, i);
    hide MapBytes, Lookup, FindersAnswer;
    FindersOnWritten(es, es[i].key);
  }

  function KidsOf(es: seq<Entry>): (ts: seq<Tree>)
    requires AllSized(es)
    ensures |ts| == 2 * |es|
    decreases |es|
  {
    if es == [] then [] else [TreeOf(Uint(es[0].key)), TreeOf(es[0].field)] + KidsOf(es[1..])
  }

  lemma {:induction false} KidsPrint(es: seq<Entry>)
    requires AllSized(es)
    ensures AllWellFormed(KidsOf(es)) && PrintAll(KidsOf(es)) == EntriesBytes(es)
    decreases |es|
  {
    hide WellFormed, AllWellFormed, Print, PrintAll, TreeOf, EntriesBytes, EntryBytes, KidsOf;
    if es == [] {
      NoKids();
    } else {
      EntriesFirst(es);
      KidsFirst(es);
      KidsPrint(es[1..]);
      TwoTrees(TreeOf(Uint(es[0].key)), TreeOf(es[0].field), KidsOf(es[1..]));
    }
  }

  lemma NoKids()
    ensures AllWellFormed(KidsOf([])) && PrintAll(KidsOf([])) == EntriesBytes([])
  {
  }

  lemma EntriesFirst(es: seq<Entry>)
    requires es != [] && AllSized(es)
    ensures Sized(es[0].field) && AllSized(es[1..])
    ensures EntriesBytes(es) == EntryBytes(es[0]) + EntriesBytes(es[1..])
  {
    hide EntryBytes, Sized;
  }

  lemma KidsFirst(es: seq<Entry>)
    requires es != [] && AllSized(es)
    ensures var k, v := TreeOf(Uint(es[0].key)), TreeOf(es[0].field);
            && KidsOf(es) == [k, v] + KidsOf(es[1..])
            && WellFormed(k) && WellFormed(v) && Print(k) + Print(v) == EntryBytes(es[0])
  {
    FieldIsTree(Uint(es[0].key));
    FieldIsTree(es[0].field);
    hide WellFormed, Print, TreeOf, HeadBytes;
  }

  lemma TwoTrees(k: Tree, v: Tree, rest: seq<Tree>)
    requires WellFormed(k) && WellFormed(v) && AllWellFormed(rest)
    ensures AllWellFormed([k, v] + rest)
    ensures PrintAll([k, v] + rest) == Print(k) + Print(v) + PrintAll(rest)
  {
    hide WellFormed, Print;
    assert ([v] + rest)[1..] == rest;
    assert ([k, v] + rest)[1..] == [v] + rest;
  }

  lemma MapIsTree(es: seq<Entry>)
    requires AllSized(es) && |es| <= MAX_ENTRIES
    ensures var t := Group(MAP, Shortest(|es|), KidsOf(es));
            WellFormed(t) && Print(t) == MapBytes(es) && Argument(t) == |es|
  {
    hide AllSized, EntriesBytes, KidsOf, AllWellFormed, PrintAll, Shortest, HeadAs, Fits;
    KidsPrint(es);
    assert Argument(Group(MAP, Shortest(|es|), KidsOf(es))) == |es|;
  }

  /** What the builder writes passes the map check. */
  lemma WrittenIsMap(es: seq<Entry>)
    requires AllSized(es) && |es| <= MAX_ENTRIES
    ensures IsEmptyOrMap(MapBytes(es))
  {
    MapIsTree(es);
    var buf, t := MapBytes(es), Group(MAP, Shortest(|es|), KidsOf(es));
    assert buf[0..|buf|] == buf;
    hide AllSized, MapBytes, KidsOf, Shortest, WellFormed, Print, ItemAt;
    ReadsPrinted(t, buf, 0);
  }
}
