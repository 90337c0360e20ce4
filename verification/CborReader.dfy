/** The recursive item reader, the grammar that it accepts, and where that goes beyond the standard's. */
module CborReader {
  import opened Words
  import opened BigEndians
  import opened Slices
  import opened Status
  import opened CborHead

  const MAX_ENTRIES := 32
  const SIMPLE_FALSE: byte := 0xf4
  const SIMPLE_TRUE: byte := 0xf5

  /** What the reader reports; the payload is `buf[start..start + size]`. */
  datatype Item = Item(
    major: byte, value: u64, start: nat, size: nat, next: nat, isBool: bool, boolValue: bool)

  function Left(buf: seq<byte>, offset: nat): nat {
    if offset < |buf| then |buf| - offset else 0
  }

  function ItemAt(buf: seq<byte>, offset: nat): (r: Result<Item>)
    ensures r.Ok? ==> offset < r.value.next <= |buf| && r.value.start + r.value.size <= |buf|
    decreases Left(buf, offset), 0
  {
    if offset >= |buf| then Err(ERR_BAD_ENCODING)
    else if buf[offset] == SIMPLE_FALSE || buf[offset] == SIMPLE_TRUE then
      Ok(Item(SIMPLE, 0, 0, 0, offset + 1, true, buf[offset] == SIMPLE_TRUE))
    else
      var head := HeadAt(buf, offset);
      if head.Err? then Err(head.status)
      else
        var Head(major, value, next) := head.value;
        if major == BYTES || major == TEXT then
          if value > |buf| - next then Err(ERR_BAD_ENCODING)
          else Ok(Item(major, value, next, value, next + value, false, false))
        else if major == ARRAY || major == MAP then
          if value > MAX_ENTRIES then Err(ERR_BAD_ENCODING)
          else
            var end := ItemsEnd(buf, next, if major == ARRAY then value else 2 * value);
            if end.Err? then Err(end.status) else Ok(Item(major, value, 0, 0, end.value, false, false))
        else if major == TAG then Err(ERR_BAD_ENCODING)
        else Ok(Item(major, value, 0, 0, next, false, false))
  }

  /** Where `n` items in a row end. */
  function ItemsEnd(buf: seq<byte>, offset: nat, n: nat): (r: Result<nat>)
    requires offset <= |buf|
    ensures r.Ok? ==> offset + n <= r.value <= |buf|
    decreases Left(buf, offset), n
  {
    if n == 0 then Ok(offset)
    else
      var item := ItemAt(buf, offset);
      if item.Err? then Err(item.status) else ItemsEnd(buf, item.value.next, n - 1)
  }

  // ---- the grammar of the reader: definite lengths, no tags, at most 32 entries, and every simple value in two bytes,
  // also those below 32, which section 3.3 of RFC 8949 excludes

  datatype Tree =
    | Atom(major: byte, form: nat, value: u64)
    | Chunk(major: byte, form: nat, data: seq<byte>)
    | Group(major: byte, form: nat, kids: seq<Tree>)

  /** The argument in the head of a tree. */
  function Argument(t: Tree): nat {
    match t
    case Atom(_, _, value) => value
    case Chunk(_, _, data) => |data|
    case Group(major, _, kids) => if major == MAP then |kids| / 2 else |kids|
  }

  predicate WellFormed(t: Tree)
    decreases t
  {
    && t.major < 8 && Fits(t.form, Argument(t))
    && match t
       case Atom(major, _, _) => major == UNSIGNED || major == NEGATIVE || major == SIMPLE
       case Chunk(major, _, _) => major == BYTES || major == TEXT
       case Group(major, _, kids) =>
         && (major == ARRAY || (major == MAP && |kids| % 2 == 0))
         && Argument(t) <= MAX_ENTRIES
         && AllWellFormed(kids)
  }

  predicate AllWellFormed(ts: seq<Tree>)
    decreases ts
  {
    ts == [] || (WellFormed(ts[0]) && AllWellFormed(ts[1..]))
  }

  function Print(t: Tree): (bs: seq<byte>)
    requires WellFormed(t)
    ensures |bs| > 0
    decreases t
  {
    HeadAs(t.major, t.form, Argument(t)) +
    match t
    case Atom(_, _, _) => []
    case Chunk(_, _, data) => data
    case Group(_, _, kids) => PrintAll(kids)
  }

  function PrintAll(ts: seq<Tree>): (bs: seq<byte>)
    requires AllWellFormed(ts)
    ensures |bs| >= |ts|
    decreases ts
  {
    if ts == [] then [] else Print(ts[0]) + PrintAll(ts[1..])
  }

  /** What the reader must report for a tree printed at an offset. */
  function ItemOf(t: Tree, offset: nat): Item
    requires WellFormed(t)
  {
    var next := offset + |Print(t)|;
    Powers();
    if IsBool(t) then Item(SIMPLE, 0, 0, 0, next, true, t.value == 21)
    else if t.Chunk? then Item(t.major, |t.data|, offset + 1 + Extra(t.form), |t.data|, next, false, false)
    else Item(t.major, Argument(t), 0, 0, next, false, false)
  }

  predicate IsBool(t: Tree) {
    t.Atom? && t.major == SIMPLE && t.form == 0 && (t.value == 20 || t.value == 21)
  }

  /** The initial byte alone tells the two booleans from everything else. */
  lemma BoolByte(t: Tree)
    requires WellFormed(t)
    ensures var b := Initial(t.major, t.form, Argument(t));
            && (b == SIMPLE_FALSE || b == SIMPLE_TRUE <==> IsBool(t))
            && (IsBool(t) ==> (b == SIMPLE_TRUE <==> t.value == 21))
  {
    hide AllWellFormed;
  }

  lemma HeadRead(t: Tree, buf: seq<byte>, offset: nat)
    requires WellFormed(t) && At(buf, offset, HeadAs(t.major, t.form, Argument(t)))
    ensures Argument(t) <= 0xffff_ffff_ffff_ffff
    ensures HeadAt(buf, offset) == Ok(Head(t.major, Argument(t), offset + 1 + Extra(t.form)))
    ensures buf[offset] == SIMPLE_FALSE || buf[offset] == SIMPLE_TRUE <==> IsBool(t)
    ensures IsBool(t) ==> (buf[offset] == SIMPLE_TRUE <==> t.value == 21)
  {
    Powers();
    BoolByte(t);
    var head := HeadAs(t.major, t.form, Argument(t));
    assert buf[offset] == buf[offset..offset + |head|][0];
    HeadReadBack(buf, offset, t.major, t.form, Argument(t));
    hide BigEndian, Initial, HeadAt, AllWellFormed;
  }

  lemma ReadsAtom(t: Tree, buf: seq<byte>, offset: nat)
    requires t.Atom? && WellFormed(t) && At(buf, offset, Print(t))
    ensures ItemAt(buf, offset) == Ok(ItemOf(t, offset))
  {
    assert Print(t) == HeadAs(t.major, t.form, Argument(t));
    HeadRead(t, buf, offset);
    hide HeadAs, HeadAt, Fits, Extra;
  }

  lemma ReadsChunk(t: Tree, buf: seq<byte>, offset: nat)
    requires t.Chunk? && WellFormed(t) && At(buf, offset, Print(t))
    ensures ItemAt(buf, offset) == Ok(ItemOf(t, offset))
  {
    AtSplit(buf, offset, HeadAs(t.major, t.form, Argument(t)), t.data);
    HeadRead(t, buf, offset);
    hide HeadAs, HeadAt, Fits, Extra;
  }

  lemma ReadsGroup(t: Tree, buf: seq<byte>, offset: nat)
    requires t.Group? && WellFormed(t) && At(buf, offset, HeadAs(t.major, t.form, Argument(t)))
    requires var next := offset + 1 + Extra(t.form);
             ItemsEnd(buf, next, |t.kids|) == Ok(next + |PrintAll(t.kids)|)
    ensures ItemAt(buf, offset) == Ok(ItemOf(t, offset))
  {
    HeadRead(t, buf, offset);
    GroupSize(t);
    hide At, HeadAs, HeadAt, Fits, Extra, WellFormed, AllWellFormed, ItemsEnd, Print, PrintAll;
  }

  lemma GroupSize(t: Tree)
    requires t.Group? && WellFormed(t)
    ensures t.major == ARRAY || (t.major == MAP && |t.kids| == 2 * Argument(t))
    ensures t.major == ARRAY ==> |t.kids| == Argument(t)
    ensures Argument(t) <= MAX_ENTRIES && AllWellFormed(t.kids)
    ensures |Print(t)| == 1 + Extra(t.form) + |PrintAll(t.kids)|
  {
    hide HeadAs, AllWellFormed, PrintAll;
  }

  lemma GroupParts(t: Tree, buf: seq<byte>, offset: nat)
    requires t.Group? && WellFormed(t) && At(buf, offset, Print(t))
    ensures At(buf, offset, HeadAs(t.major, t.form, Argument(t)))
    ensures t.form <= 4 && AllWellFormed(t.kids) && At(buf, offset + 1 + Extra(t.form), PrintAll(t.kids))
  {
    AtSplit(buf, offset, HeadAs(t.major, t.form, Argument(t)), PrintAll(t.kids));
  }

  /** Every tree of the grammar is read back as itself. */
  lemma {:induction false} ReadsPrinted(t: Tree, buf: seq<byte>, offset: nat)
    requires WellFormed(t) && At(buf, offset, Print(t))
    ensures ItemAt(buf, offset) == Ok(ItemOf(t, offset))
    decreases t
  {
    hide At, WellFormed, AllWellFormed, ItemAt, ItemsEnd, ItemOf, HeadAs, Fits, Extra, Print, PrintAll, Argument;
    if t.Atom? {
      ReadsAtom(t, buf, offset);
    } else if t.Chunk? {
      ReadsChunk(t, buf, offset);
    } else {
      GroupParts(t, buf, offset);
      ReadsAllPrinted(t.kids, buf, offset + 1 + Extra(t.form));
      ReadsGroup(t, buf, offset);
    }
  }

  lemma {:induction false} ReadsAllPrinted(ts: seq<Tree>, buf: seq<byte>, offset: nat)
    requires AllWellFormed(ts) && At(buf, offset, PrintAll(ts))
    ensures ItemsEnd(buf, offset, |ts|) == Ok(offset + |PrintAll(ts)|)
    decreases ts
  {
    hide ItemAt, ItemsEnd, ItemOf, Print, PrintAll, WellFormed, AllWellFormed, At;
    if ts == [] {
      NothingPrinted(buf, offset);
    } else {
      TreesFirst(ts);
      AtSplit(buf, offset, Print(ts[0]), PrintAll(ts[1..]));
      ReadsPrinted(ts[0], buf, offset);
      ItemOfNext(ts[0], offset);
      OneMoreItem(buf, offset, |ts|);
      ReadsAllPrinted(ts[1..], buf, offset + |Print(ts[0])|);
    }
  }

  lemma NothingPrinted(buf: seq<byte>, offset: nat)
    requires At(buf, offset, PrintAll([]))
    ensures offset <= |buf| && ItemsEnd(buf, offset, 0) == Ok(offset) && |PrintAll([])| == 0
  {
  }

  lemma ItemOfNext(t: Tree, offset: nat)
    requires WellFormed(t)
    ensures ItemOf(t, offset).next == offset + |Print(t)|
  {
    hide Print, WellFormed;
  }

  lemma TreesFirst(ts: seq<Tree>)
    requires ts != [] && AllWellFormed(ts)
    ensures WellFormed(ts[0]) && AllWellFormed(ts[1..]) && PrintAll(ts) == Print(ts[0]) + PrintAll(ts[1..])
  {
    hide WellFormed, Print;
  }

  lemma OneMoreItem(buf: seq<byte>, offset: nat, n: nat)
    requires offset <= |buf| && n > 0 && ItemAt(buf, offset).Ok?
    ensures ItemsEnd(buf, offset, n) == ItemsEnd(buf, ItemAt(buf, offset).value.next, n - 1)
  {
    hide ItemAt;
  }

  // ---- whatever is read is a tree

  function ParseItem(buf: seq<byte>, offset: nat): Tree
    requires ItemAt(buf, offset).Ok?
    decreases Left(buf, offset), 0
  {
    if buf[offset] == SIMPLE_FALSE || buf[offset] == SIMPLE_TRUE then Atom(SIMPLE, 0, buf[offset] % 32)
    else
      var Head(major, value, next) := HeadAt(buf, offset).value;
      var form := FormAt(buf, offset);
      if major == BYTES || major == TEXT then Chunk(major, form, buf[next..next + value])
      else if major == ARRAY then Group(major, form, ParseItems(buf, next, value))
      else if major == MAP then Group(major, form, ParseItems(buf, next, 2 * value))
      else Atom(major, form, value)
  }

  function ParseItems(buf: seq<byte>, offset: nat, n: nat): (ts: seq<Tree>)
    requires offset <= |buf| && ItemsEnd(buf, offset, n).Ok?
    ensures |ts| == n
    decreases Left(buf, offset), n
  {
    if n == 0 then []
    else [ParseItem(buf, offset)] + ParseItems(buf, ItemAt(buf, offset).value.next, n - 1)
  }

  predicate Parsed(buf: seq<byte>, offset: nat) {
    ItemAt(buf, offset).Ok? &&
    var t := ParseItem(buf, offset);
    WellFormed(t) && At(buf, offset, Print(t)) && ItemAt(buf, offset).value == ItemOf(t, offset)
  }

  lemma ParsesBool(buf: seq<byte>, offset: nat)
    requires offset < |buf| && (buf[offset] == SIMPLE_FALSE || buf[offset] == SIMPLE_TRUE)
    ensures Parsed(buf, offset)
  {
    var t := ParseItem(buf, offset);
    assert Print(t) == [buf[offset]] == buf[offset..offset + 1];
  }

  predicate Plain(buf: seq<byte>, offset: nat) {
    offset < |buf| && buf[offset] != SIMPLE_FALSE && buf[offset] != SIMPLE_TRUE
  }

  lemma ParsesLeaf(buf: seq<byte>, offset: nat)
    requires Plain(buf, offset) && ItemAt(buf, offset).Ok?
    requires ItemAt(buf, offset).value.major !in {ARRAY, MAP}
    ensures Parsed(buf, offset)
  {
    var t := ParseItem(buf, offset);
    var h := HeadAt(buf, offset).value;
    ReadIsHead(buf, offset);
    BoolByte(t);
    assert buf[offset] == buf[offset..h.next][0];
    assert At(buf, offset, HeadAs(t.major, t.form, Argument(t)));
    if t.Chunk? {
      AtJoin(buf, offset, HeadAs(t.major, t.form, Argument(t)), t.data);
    }
    hide HeadAs, Fits, HeadAt, FormAt, Initial, Extra;
  }

  lemma GroupShape(buf: seq<byte>, offset: nat)
    requires Plain(buf, offset) && ItemAt(buf, offset).Ok?
    requires ItemAt(buf, offset).value.major in {ARRAY, MAP}
    ensures var t := ParseItem(buf, offset);
            var h := HeadAt(buf, offset).value;
            && t == Group(h.major, FormAt(buf, offset), t.kids) && Argument(t) == h.value <= MAX_ENTRIES
            && (t.major == MAP ==> |t.kids| % 2 == 0) && (t.major == ARRAY || t.major == MAP)
            && Fits(t.form, Argument(t)) && h.next == offset + 1 + Extra(t.form)
            && At(buf, offset, HeadAs(t.major, t.form, Argument(t)))
            && ItemAt(buf, offset).value == Item(h.major, h.value, 0, 0, ItemAt(buf, offset).value.next, false, false)
  {
    ReadIsHead(buf, offset);
    hide HeadAs, Fits, HeadAt, FormAt, Initial, Extra, ItemsEnd;
    assert ParseItem(buf, offset).Group?;
  }

  lemma ParsesGroup(buf: seq<byte>, offset: nat)
    requires Plain(buf, offset) && ItemAt(buf, offset).Ok?
    requires ItemAt(buf, offset).value.major in {ARRAY, MAP} && ParseItem(buf, offset).Group?
    requires var kids := ParseItem(buf, offset).kids;
             var next := HeadAt(buf, offset).value.next;
             && AllWellFormed(kids) && At(buf, next, PrintAll(kids))
             && ItemAt(buf, offset).value.next == next + |PrintAll(kids)|
    ensures Parsed(buf, offset)
  {
    GroupShape(buf, offset);
    var t := ParseItem(buf, offset);
    assert WellFormed(t);
    hide At, HeadAs, Fits, HeadAt, ItemAt, ParseItem, FormAt, Extra, AllWellFormed, PrintAll;
    AtJoin(buf, offset, HeadAs(t.major, t.form, Argument(t)), PrintAll(t.kids));
  }

  /** Whatever the reader accepts is a tree of the grammar, and it reports that tree. */
  lemma {:induction false} ParsesItem(buf: seq<byte>, offset: nat)
    requires ItemAt(buf, offset).Ok?
    ensures Parsed(buf, offset)
    decreases Left(buf, offset), 0
  {
    if !Plain(buf, offset) {
      ParsesBool(buf, offset);
    } else if ItemAt(buf, offset).value.major in {ARRAY, MAP} {
      var h := HeadAt(buf, offset).value;
      var n: nat := if h.major == ARRAY then h.value else 2 * h.value;
      ParsesItems(buf, h.next, n);
      ParsesGroup(buf, offset);
    } else {
      ParsesLeaf(buf, offset);
    }
    hide Parsed;
  }

  lemma ConsTree(t: Tree, rest: seq<Tree>, buf: seq<byte>, offset: nat)
    requires WellFormed(t) && AllWellFormed(rest)
    requires At(buf, offset, Print(t)) && At(buf, offset + |Print(t)|, PrintAll(rest))
    ensures AllWellFormed([t] + rest) && At(buf, offset, PrintAll([t] + rest))
    ensures |PrintAll([t] + rest)| == |Print(t)| + |PrintAll(rest)|
  {
    assert ([t] + rest)[1..] == rest;
    AtJoin(buf, offset, Print(t), PrintAll(rest));
    hide WellFormed, Print, At;
  }

  lemma {:induction false} ParsesItems(buf: seq<byte>, offset: nat, n: nat)
    requires offset <= |buf| && ItemsEnd(buf, offset, n).Ok?
    ensures var ts := ParseItems(buf, offset, n);
            && AllWellFormed(ts) && At(buf, offset, PrintAll(ts))
            && ItemsEnd(buf, offset, n).value == offset + |PrintAll(ts)|
    decreases Left(buf, offset), n
  {
    hide ItemAt, ItemsEnd, ParseItem, ParseItems, WellFormed, AllWellFormed, Print, PrintAll, At;
    if n == 0 {
      ParsesNothing(buf, offset);
    } else {
      ItemsFirst(buf, offset, n);
      ParsesItem(buf, offset);
      var next := ItemAt(buf, offset).value.next;
      ParsesItems(buf, next, n - 1);
      ConsTree(ParseItem(buf, offset), ParseItems(buf, next, n - 1), buf, offset);
    }
  }

  lemma ParsesNothing(buf: seq<byte>, offset: nat)
    requires offset <= |buf|
    ensures ItemsEnd(buf, offset, 0) == Ok(offset) && ParseItems(buf, offset, 0) == []
    ensures AllWellFormed([]) && PrintAll([]) == [] && At(buf, offset, [])
  {
  }

  lemma ItemsFirst(buf: seq<byte>, offset: nat, n: nat)
    requires offset <= |buf| && n > 0 && ItemsEnd(buf, offset, n).Ok?
    ensures ItemAt(buf, offset).Ok? && ItemsEnd(buf, ItemAt(buf, offset).value.next, n - 1) == ItemsEnd(buf, offset, n)
    ensures ParseItems(buf, offset, n) ==
            [ParseItem(buf, offset)] + ParseItems(buf, ItemAt(buf, offset).value.next, n - 1)
  {
    hide ItemAt, ParseItem;
  }

  // ---- what this says about the reader

  predicate TreeAt(t: Tree, buf: seq<byte>, offset: nat) {
    WellFormed(t) && At(buf, offset, Print(t))
  }

  /** The reader accepts exactly its grammar. */
  lemma AcceptsGrammar(buf: seq<byte>, offset: nat)
    ensures ItemAt(buf, offset).Ok? <==> exists t :: TreeAt(t, buf, offset)
  {
    if ItemAt(buf, offset).Ok? {
      ParsesItem(buf, offset);
      assert TreeAt(ParseItem(buf, offset), buf, offset);
    }
    hide WellFormed, At, Print, ItemAt;
    forall t | TreeAt(t, buf, offset)
      ensures ItemAt(buf, offset).Ok?
    {
      ReadsPrinted(t, buf, offset);
    }
  }

  /** The result depends on the bytes consumed and on nothing before or after them. */
  lemma ReadsOnlyItsBytes(buf: seq<byte>, other: seq<byte>, offset: nat)
    requires ItemAt(buf, offset).Ok?
    requires At(other, offset, buf[offset..ItemAt(buf, offset).value.next])
    ensures ItemAt(other, offset) == ItemAt(buf, offset)
  {
    ParsesItem(buf, offset);
    var t := ParseItem(buf, offset);
    hide WellFormed, ItemAt, Print, ParseItem;
    assert |Print(t)| == ItemAt(buf, offset).value.next - offset;
    ReadsPrinted(t, other, offset);
  }

  /** No tree is a proper beginning of another. */
  lemma PrefixFree(t: Tree, u: Tree, more: seq<byte>)
    requires WellFormed(t) && WellFormed(u) && Print(u) == Print(t) + more
    ensures more == []
  {
    var buf := Print(u);
    assert buf[0..|buf|] == buf;
    assert buf[0..|Print(t)|] == Print(t);
    ReadsPrinted(u, buf, 0);
    ReadsPrinted(t, buf, 0);
    hide WellFormed, Print, ItemAt;
  }

  // ---- the standard's grammar: the same without two-byte simple values below 32

  predicate ShortSimple(t: Tree) {
    t.Atom? && t.major == SIMPLE && t.form == 1 && t.value < 32
  }

  /** No simple value below 32 is spelled in two bytes, at any depth. */
  predicate NoShortSimple(t: Tree)
    decreases t
  {
    !ShortSimple(t) && (t.Group? ==> NoneShortSimple(t.kids))
  }

  predicate NoneShortSimple(ts: seq<Tree>)
    decreases ts
  {
    ts == [] || (NoShortSimple(ts[0]) && NoneShortSimple(ts[1..]))
  }

  /** A tree that is well-formed by section 3 of RFC 8949, printed at an offset. */
  predicate StandardAt(t: Tree, buf: seq<byte>, offset: nat) {
    TreeAt(t, buf, offset) && NoShortSimple(t)
  }

  lemma FormBack(t: Tree, buf: seq<byte>, offset: nat)
    requires WellFormed(t) && At(buf, offset, HeadAs(t.major, t.form, Argument(t)))
    ensures HeadAt(buf, offset).Ok? && FormAt(buf, offset) == t.form
  {
    HeadRead(t, buf, offset);
    var head := HeadAs(t.major, t.form, Argument(t));
    assert buf[offset] == buf[offset..offset + |head|][0] == Initial(t.major, t.form, Argument(t));
    InitialParts(t.major, t.form, Argument(t));
    hide AllWellFormed, HeadAt, Initial;
  }

  lemma ParsesLeafBack(t: Tree, buf: seq<byte>, offset: nat)
    requires !t.Group? && WellFormed(t) && At(buf, offset, Print(t))
    ensures ItemAt(buf, offset).Ok? && ParseItem(buf, offset) == t
  {
    ReadsPrinted(t, buf, offset);
    var head := HeadAs(t.major, t.form, Argument(t));
    AtSplit(buf, offset, head, if t.Chunk? then t.data else []);
    assert t.Atom? ==> Print(t) == head + [];
    HeadRead(t, buf, offset);
    FormBack(t, buf, offset);
    hide HeadAs, HeadAt, FormAt, Fits, Extra;
  }

  lemma ParsesGroupBack(t: Tree, buf: seq<byte>, offset: nat)
    requires t.Group? && WellFormed(t) && ItemAt(buf, offset).Ok?
    requires At(buf, offset, HeadAs(t.major, t.form, Argument(t)))
    requires var next := offset + 1 + Extra(t.form);
             && next <= |buf| && ItemsEnd(buf, next, |t.kids|).Ok? && ParseItems(buf, next, |t.kids|) == t.kids
    ensures ParseItem(buf, offset) == t
  {
    hide HeadAs, HeadAt, FormAt, Fits, Extra, WellFormed, AllWellFormed, ItemAt, ItemsEnd, ParseItems, At, Argument,
         Print, PrintAll;
    HeadRead(t, buf, offset);
    FormBack(t, buf, offset);
    GroupSize(t);
  }

  /** A printed tree is parsed as itself: the bytes determine the tree. */
  lemma {:induction false} ParsesPrinted(t: Tree, buf: seq<byte>, offset: nat)
    requires WellFormed(t) && At(buf, offset, Print(t))
    ensures ItemAt(buf, offset).Ok? && ParseItem(buf, offset) == t
    decreases t
  {
    hide At, WellFormed, AllWellFormed, ItemAt, ItemsEnd, HeadAs, Extra, Print, PrintAll, ParseItem, ParseItems;
    if t.Group? {
      ReadsPrinted(t, buf, offset);
      GroupParts(t, buf, offset);
      ParsesAllPrinted(t.kids, buf, offset + 1 + Extra(t.form));
      ParsesGroupBack(t, buf, offset);
    } else {
      ParsesLeafBack(t, buf, offset);
    }
  }

  lemma ParseCons(ts: seq<Tree>, buf: seq<byte>, offset: nat, next: nat)
    requires ts != [] && offset <= |buf| && ItemsEnd(buf, offset, |ts|).Ok?
    requires ItemAt(buf, offset).Ok? && ItemAt(buf, offset).value.next == next && ParseItem(buf, offset) == ts[0]
    requires next <= |buf| && ItemsEnd(buf, next, |ts| - 1).Ok? && ParseItems(buf, next, |ts| - 1) == ts[1..]
    ensures ParseItems(buf, offset, |ts|) == ts
  {
    hide ItemAt, ItemsEnd, ParseItem, ParseItems;
    ItemsFirst(buf, offset, |ts|);
    assert ts == [ts[0]] + ts[1..];
  }

  lemma {:induction false} ParsesAllPrinted(ts: seq<Tree>, buf: seq<byte>, offset: nat)
    requires AllWellFormed(ts) && At(buf, offset, PrintAll(ts))
    ensures offset <= |buf| && ItemsEnd(buf, offset, |ts|).Ok? && ParseItems(buf, offset, |ts|) == ts
    decreases ts
  {
    hide ItemAt, ItemsEnd, ItemOf, Print, PrintAll, WellFormed, AllWellFormed, At, ParseItem, ParseItems;
    if ts == [] {
      NothingPrinted(buf, offset);
      ParsesNothing(buf, offset);
    } else {
      TreesFirst(ts);
      var next := offset + |Print(ts[0])|;
      AtSplit(buf, offset, Print(ts[0]), PrintAll(ts[1..]));
      ParsesPrinted(ts[0], buf, offset);
      ReadsPrinted(ts[0], buf, offset);
      ItemOfNext(ts[0], offset);
      ParsesAllPrinted(ts[1..], buf, next);
      OneMoreItem(buf, offset, |ts|);
      ParseCons(ts, buf, offset, next);
    }
  }

  /** On every buffer, an accepted item is one of the standard's exactly when no short simple value occurs in it. */
  lemma AcceptsStandard(buf: seq<byte>, offset: nat)
    ensures ItemAt(buf, offset).Ok? ==>
              (NoShortSimple(ParseItem(buf, offset)) <==> exists t :: StandardAt(t, buf, offset))
    ensures (exists t :: StandardAt(t, buf, offset)) ==> ItemAt(buf, offset).Ok?
  {
    hide WellFormed, At, Print, ItemAt, ParseItem, NoShortSimple;
    if ItemAt(buf, offset).Ok? {
      ParsesItem(buf, offset);
      assert TreeAt(ParseItem(buf, offset), buf, offset);
      assert NoShortSimple(ParseItem(buf, offset)) ==> StandardAt(ParseItem(buf, offset), buf, offset);
    }
    forall t | StandardAt(t, buf, offset)
      ensures ItemAt(buf, offset).Ok? && ParseItem(buf, offset) == t
    {
      ParsesPrinted(t, buf, offset);
    }
  }

  /** The bytes f8 14: read as the simple value 20 in two bytes, and no item of the standard. */
  lemma ShortSimpleAccepted()
    ensures ItemAt([0xf8, 0x14], 0) == Ok(Item(SIMPLE, 20, 0, 0, 2, false, false))
    ensures !exists t :: StandardAt(t, [0xf8, 0x14], 0)
  {
    var buf: seq<byte> := [0xf8, 0x14];
    var t := Atom(SIMPLE, 1, 20);
    Powers();
    assert BigEndian(20, 0) == [] && BigEndian(20, 1) == [20];
    assert Print(t) == buf == buf[0..2];
    hide AllWellFormed;
    ReadsPrinted(t, buf, 0);
    ParsesPrinted(t, buf, 0);
    AcceptsStandard(buf, 0);
  }

  // ---- the reader itself

  /** `read_item`, with `skip_item` inside its loops. */
  method ReadItem(buf: seq<byte>, offset: u32) returns (status: u32, item: Item)
    requires |buf| <= MAX_U32
    ensures (if status == OK then Ok(item) else Err(status)) == ItemAt(buf, offset)
    decreases Left(buf, offset), 0
  {
    item := Item(0, 0, 0, 0, 0, false, false);
    if offset >= |buf| { return ERR_BAD_ENCODING, item; }
    if buf[offset] == SIMPLE_FALSE || buf[offset] == SIMPLE_TRUE {
      item := item.(major := SIMPLE, isBool := true, boolValue := buf[offset] == SIMPLE_TRUE, next := offset + 1);
      return OK, item;
    }
    var major, value, next;
    status, major, value, next := ReadTypeValue(buf, offset);
    if status != OK { return status, item; }
    hide HeadAt;
    item := item.(major := major, value := value, next := next);
    if major == BYTES || major == TEXT {
      if value > MAX_U32 || next > |buf| || value > |buf| - next { return ERR_BAD_ENCODING, item; }
      item := item.(start := next, size := value, next := next + value);
      return OK, item;
    }
    if major == ARRAY || major == MAP {
      if value > MAX_ENTRIES { return ERR_BAD_ENCODING, item; }
      var end;
      if major == ARRAY {
        status, end := SkipArray(buf, next, value);
      } else {
        status, end := SkipMap(buf, next, value);
      }
      item := item.(next := end);
      return status, item;
    }
    if major == TAG { return ERR_BAD_ENCODING, item; }
    return OK, item;
  }

  method SkipArray(buf: seq<byte>, start: u32, n: nat) returns (status: u32, next: u32)
    requires |buf| <= MAX_U32 && start <= |buf|
    ensures (if status == OK then Ok(next as nat) else Err(status)) == ItemsEnd(buf, start, n)
    decreases Left(buf, start), n + 1
  {
    hide ItemAt;
    next := start;
    for i := 0 to n
      invariant start <= next <= |buf|
      invariant ItemsEnd(buf, start, n) == ItemsEnd(buf, next, n - i)
    {
      var item;
      status, item := ReadItem(buf, next);
      if status != OK { return; }
      next := item.next;
    }
    status := OK;
  }

  method SkipMap(buf: seq<byte>, start: u32, pairs: nat) returns (status: u32, next: u32)
    requires |buf| <= MAX_U32 && start <= |buf|
    ensures (if status == OK then Ok(next as nat) else Err(status)) == ItemsEnd(buf, start, 2 * pairs)
    decreases Left(buf, start), 2 * pairs + 1
  {
    hide ItemAt;
    next := start;
    for i := 0 to pairs
      invariant start <= next <= |buf|
      invariant ItemsEnd(buf, start, 2 * pairs) == ItemsEnd(buf, next, 2 * (pairs - i))
    {
      var item;
      status, item := ReadItem(buf, next);
      if status != OK { return; }
      next := item.next;
      status, item := ReadItem(buf, next);
      if status != OK { return; }
      next := item.next;
    }
    status := OK;
  }
}
