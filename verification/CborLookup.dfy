/** The map check and look-up on every buffer, in the terms of the tree that the buffer spells. */
module CborLookup {
  import opened Words
  import opened BigEndians
  import opened Slices
  import opened Status
  import opened CborHead
  import opened CborReader
  import opened CborMap

  // ---- the map check

  predicate SpellsMap(t: Tree, buf: seq<byte>) {
    t.Group? && t.major == MAP && WellFormed(t) && Print(t) == buf
  }

  /** The map check passes exactly on the empty buffer and on printed maps, with no byte before or after. */
  lemma MapCheckExact(buf: seq<byte>)
    ensures IsEmptyOrMap(buf) <==> buf == [] || exists t :: SpellsMap(t, buf)
  {
    if IsEmptyOrMap(buf) && buf != [] {
      ParsesItem(buf, 0);
      WholeItem(ParseItem(buf, 0), buf);
    }
    hide ItemAt, WellFormed, Print;
    forall t | SpellsMap(t, buf)
      ensures IsEmptyOrMap(buf)
    {
      assert buf[0..|buf|] == buf;
      ReadsPrinted(t, buf, 0);
      ItemOfNext(t, 0);
    }
  }

  lemma WholeItem(t: Tree, buf: seq<byte>)
    requires WellFormed(t) && At(buf, 0, Print(t)) && ItemOf(t, 0).major == MAP && ItemOf(t, 0).next == |buf|
    ensures SpellsMap(t, buf)
  {
    ItemOfNext(t, 0);
    hide Print;
    assert buf[0..|buf|] == buf;
  }

  // ---- look-up

  /** The tree is the number that is looked for; negative numbers, strings and the rest are not. */
  predicate IsKey(t: Tree, key: u32) {
    t.Atom? && t.major == UNSIGNED && t.value == key
  }

  lemma TwoKids(kids: seq<Tree>)
    requires |kids| >= 2 && AllWellFormed(kids)
    ensures WellFormed(kids[0]) && WellFormed(kids[1]) && AllWellFormed(kids[2..])
  {
    hide WellFormed, AllWellFormed, Print, PrintAll;
    TreesFirst(kids);
    TreesFirst(kids[1..]);
    assert kids[1..][1..] == kids[2..];
  }

  /** The item of the first value whose key is the number, in entries that start at the offset. */
  function FirstValue(kids: seq<Tree>, offset: nat, key: u32): Result<Item>
    requires AllWellFormed(kids) && |kids| % 2 == 0
    decreases |kids|
  {
    if kids == [] then Err(ERR_NOT_AVAILABLE)
    else
      TwoKids(kids);
      var value := offset + |Print(kids[0])|;
      if IsKey(kids[0], key) then Ok(ItemOf(kids[1], value))
      else FirstValue(kids[2..], value + |Print(kids[1])|, key)
  }

  lemma KeyItem(t: Tree, offset: nat, key: u32)
    requires WellFormed(t)
    ensures ItemOf(t, offset).major == UNSIGNED && ItemOf(t, offset).value == key <==> IsKey(t, key)
  {
    hide Print, AllWellFormed;
  }

  lemma TwoRead(kids: seq<Tree>, buf: seq<byte>, offset: nat)
    requires |kids| >= 2 && AllWellFormed(kids) && At(buf, offset, PrintAll(kids))
    ensures WellFormed(kids[0]) && WellFormed(kids[1]) && AllWellFormed(kids[2..])
    ensures var value := offset + |Print(kids[0])|;
            var rest := value + |Print(kids[1])|;
            && ItemAt(buf, offset) == Ok(ItemOf(kids[0], offset)) && ItemOf(kids[0], offset).next == value
            && ItemAt(buf, value) == Ok(ItemOf(kids[1], value)) && ItemOf(kids[1], value).next == rest
            && At(buf, rest, PrintAll(kids[2..]))
            && offset + |PrintAll(kids)| == rest + |PrintAll(kids[2..])|
  {
    hide ItemAt, WellFormed, AllWellFormed, Print, PrintAll, At, ItemOf;
    TreesFirst(kids);
    TreesFirst(kids[1..]);
    assert kids[1..][1..] == kids[2..];
    var value := offset + |Print(kids[0])|;
    AtSplit(buf, offset, Print(kids[0]), PrintAll(kids[1..]));
    AtSplit(buf, value, Print(kids[1]), PrintAll(kids[2..]));
    ReadsPrinted(kids[0], buf, offset);
    ReadsPrinted(kids[1], buf, value);
    ItemOfNext(kids[0], offset);
    ItemOfNext(kids[1], value);
  }

  lemma {:induction false} SearchesKids(kids: seq<Tree>, buf: seq<byte>, offset: nat, key: u32)
    requires AllWellFormed(kids) && |kids| % 2 == 0
    requires At(buf, offset, PrintAll(kids)) && offset + |PrintAll(kids)| == |buf|
    ensures SearchPairs(buf, offset, |kids| / 2, key) == FirstValue(kids, offset, key)
    decreases |kids|
  {
    hide ItemAt, WellFormed, AllWellFormed, Print, PrintAll, At, ItemOf;
    if kids == [] {
      assert PrintAll([]) == [] by { NoneToPrint(); }
    } else {
      TwoRead(kids, buf, offset);
      var rest := offset + |Print(kids[0])| + |Print(kids[1])|;
      KeyItem(kids[0], offset, key);
      SearchesKids(kids[2..], buf, rest, key);
    }
  }

  lemma NoneToPrint()
    ensures AllWellFormed([]) && PrintAll([]) == []
  {
  }

  /** On every buffer that passes the map check, a find returns the value of the first entry whose key is the number,
    * whatever the other keys are; and otherwise that the key is not available. */
  lemma FindsExactly(t: Tree, buf: seq<byte>, key: u32)
    requires SpellsMap(t, buf)
    ensures |t.kids| % 2 == 0 && AllWellFormed(t.kids)
    ensures Find(buf, key) == FirstValue(t.kids, 1 + Extra(t.form), key)
  {
    MapShape(t, buf);
    hide WellFormed, AllWellFormed, Print, PrintAll, HeadAt, FirstValue, SearchPairs;
    SearchesKids(t.kids, buf, 1 + Extra(t.form), key);
  }

  lemma MapShape(t: Tree, buf: seq<byte>)
    requires SpellsMap(t, buf)
    ensures |t.kids| % 2 == 0 && AllWellFormed(t.kids) && Argument(t) == |t.kids| / 2 <= MAX_ENTRIES
    ensures var n := 1 + Extra(t.form);
            && HeadAt(buf, 0) == Ok(Head(MAP, Argument(t), n))
            && At(buf, n, PrintAll(t.kids)) && n + |PrintAll(t.kids)| == |buf| && buf != []
  {
    hide AllWellFormed, PrintAll, HeadAt;
    assert buf[0..|buf|] == buf;
    var head := HeadAs(t.major, t.form, Argument(t));
    AtSplit(buf, 0, head, PrintAll(t.kids));
    HeadRead(t, buf, 0);
  }

  // ---- the typed finders

  /** The first value whose key is the number. */
  function FirstTree(kids: seq<Tree>, key: u32): (r: Result<Tree>)
    ensures r.Err? ==> r.status == ERR_NOT_AVAILABLE
    decreases |kids|
  {
    if |kids| < 2 then Err(ERR_NOT_AVAILABLE)
    else if IsKey(kids[0], key) then Ok(kids[1])
    else FirstTree(kids[2..], key)
  }

  /** The number of an unsigned integer, in any of its forms. */
  function Unsigned64(t: Tree): Result<u64> {
    if t.Atom? && t.major == UNSIGNED then Ok(t.value) else Err(ERR_BAD_ENCODING)
  }

  function Unsigned32(t: Tree): Result<u32> {
    if t.Atom? && t.major == UNSIGNED && t.value <= MAX_U32 then Ok(t.value) else Err(ERR_BAD_ENCODING)
  }

  /** The number of an integer of either sign. */
  function Signed32(t: Tree): Result<i32> {
    if t.Atom? && t.major == UNSIGNED && t.value < 0x8000_0000 then Ok(t.value as i32)
    else if t.Atom? && t.major == NEGATIVE && t.value < 0x8000_0000 then Ok(-1 - t.value)
    else Err(ERR_BAD_ENCODING)
  }

  function Boolean(t: Tree): Result<bool> {
    if IsBool(t) then Ok(t.value == 21) else Err(ERR_BAD_ENCODING)
  }

  function Contents(t: Tree, major: byte): Result<seq<byte>> {
    if t.Chunk? && t.major == major then Ok(t.data) else Err(ERR_BAD_ENCODING)
  }

  /** What the six readings of an item that holds this tree must give. */
  predicate Reads(buf: seq<byte>, item: Item, t: Tree) {
    && item.start + item.size <= |buf|
    && AsU64(item) == Unsigned64(t) && AsU32(item) == Unsigned32(t) && AsI32(item) == Signed32(t)
    && AsBool(item) == Boolean(t)
    && Payload(buf, item, BYTES) == Contents(t, BYTES) && Payload(buf, item, TEXT) == Contents(t, TEXT)
  }

  lemma ItemReads(t: Tree, buf: seq<byte>, offset: nat)
    requires WellFormed(t) && At(buf, offset, Print(t))
    ensures Reads(buf, ItemOf(t, offset), t)
  {
    if t.Chunk? {
      AtSplit(buf, offset, HeadAs(t.major, t.form, |t.data|), t.data);
    }
    hide AllWellFormed, HeadAs, PrintAll;
  }

  predicate Yields(buf: seq<byte>, found: Result<Item>, expected: Result<Tree>) {
    match expected
    case Ok(t) => found.Ok? && Reads(buf, found.value, t)
    case Err(status) => found == Err(status)
  }

  lemma {:induction false} FirstYields(kids: seq<Tree>, buf: seq<byte>, offset: nat, key: u32)
    requires AllWellFormed(kids) && |kids| % 2 == 0 && At(buf, offset, PrintAll(kids))
    ensures Yields(buf, FirstValue(kids, offset, key), FirstTree(kids, key))
    decreases |kids|
  {
    hide WellFormed, AllWellFormed, Print, PrintAll, At, ItemOf, Reads;
    if kids != [] {
      TreesFirst(kids);
      TreesFirst(kids[1..]);
      assert kids[1..][1..] == kids[2..];
      var value := offset + |Print(kids[0])|;
      AtSplit(buf, offset, Print(kids[0]), PrintAll(kids[1..]));
      AtSplit(buf, value, Print(kids[1]), PrintAll(kids[2..]));
      ItemReads(kids[1], buf, value);
      FirstYields(kids[2..], buf, value + |Print(kids[1])|, key);
    }
  }

  /** On every buffer that passes the map check: each finder reads the first value under the key if that is of its kind,
    * in any of its forms, and refuses everything else; null, arrays and maps included. */
  lemma FindersExactly(t: Tree, buf: seq<byte>, key: u32)
    requires SpellsMap(t, buf)
    ensures match FirstTree(t.kids, key)
            case Ok(v) =>
              && FindU32(buf, key) == Unsigned32(v) && FindU64(buf, key) == Unsigned64(v)
              && FindI32(buf, key) == Signed32(v) && FindBool(buf, key) == Boolean(v)
              && FindPayload(buf, key, BYTES) == Contents(v, BYTES) && FindPayload(buf, key, TEXT) == Contents(v, TEXT)
            case Err(status) =>
              && FindU32(buf, key) == Err(status) && FindU64(buf, key) == Err(status)
              && FindI32(buf, key) == Err(status) && FindBool(buf, key) == Err(status)
              && FindPayload(buf, key, BYTES) == Err(status) && FindPayload(buf, key, TEXT) == Err(status)
  {
    FindsExactly(t, buf, key);
    MapShape(t, buf);
    FirstYields(t.kids, buf, 1 + Extra(t.form), key);
    hide Find, FirstTree, FirstValue, WellFormed, AllWellFormed, Print, PrintAll;
  }
}
