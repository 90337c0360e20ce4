/** The guest SDK's own reader, on a 32-bit guest, and its agreement with the host's. */
module GuestEncoding {
  import opened Words
  import opened BigEndians
  import opened Status
  import opened CborHead
  import opened CborReader
  import opened CborMap

  const USIZE_MAX := 0xffff_ffff

  /** `buf.len().saturating_sub(next)`. */
  function Remaining(buf: seq<byte>, next: nat): nat {
    if next <= |buf| then |buf| - next else 0
  }

  /** The shifts of the longest head. */
  function Folded(buf: seq<byte>, at: nat, n: nat): nat
    requires at + n <= |buf|
    decreases n
  {
    if n == 0 then 0 else 0x100 * Folded(buf, at, n - 1) + buf[at + n - 1]
  }

  function GuestHead(buf: seq<byte>, offset: nat): (r: Result<Head>)
    ensures r.Ok? ==> offset < r.value.next <= |buf| && r.value.major < 8
  {
    if offset >= |buf| then Err(ERR_BAD_ENCODING)
    else
      var major, info, next := buf[offset] / 32, buf[offset] % 32, offset + 1;
      if info <= 23 then Ok(Head(major, info, next))
      else if info == 24 then
        if next >= |buf| then Err(ERR_BAD_ENCODING) else Ok(Head(major, buf[next], next + 1))
      else if info == 25 then
        if Remaining(buf, next) < 2 then Err(ERR_BAD_ENCODING)
        else Ok(Head(major, 0x100 * (buf[next] as int) + buf[next + 1], next + 2))
      else if info == 26 then
        if Remaining(buf, next) < 4 then Err(ERR_BAD_ENCODING)
        else Ok(Head(major, 0x100_0000 * (buf[next] as int) + 0x1_0000 * (buf[next + 1] as int)
                            + 0x100 * (buf[next + 2] as int) + buf[next + 3], next + 4))
      else if info == 27 then
        if Remaining(buf, next) < 8 then Err(ERR_BAD_ENCODING)
        else
          FoldSpells(buf, next, 8);
          Powers();
          Ok(Head(major, Folded(buf, next, 8), next + 8))
      else Err(ERR_BAD_ENCODING)
  }

  lemma {:induction false} FoldSpells(buf: seq<byte>, at: nat, n: nat)
    requires at + n <= |buf|
    ensures Folded(buf, at, n) == ValueOf(buf[at..at + n])
    decreases n
  {
    if n > 0 {
      FoldSpells(buf, at, n - 1);
      assert buf[at..at + n][..n - 1] == buf[at..at + n - 1];
    }
  }

  function GuestItem(buf: seq<byte>, offset: nat): (r: Result<Item>)
    ensures r.Ok? ==> offset < r.value.next <= |buf| && r.value.start + r.value.size <= |buf|
    decreases Left(buf, offset), 0
  {
    if offset >= |buf| then Err(ERR_BAD_ENCODING)
    else if buf[offset] == SIMPLE_FALSE || buf[offset] == SIMPLE_TRUE then
      Ok(Item(SIMPLE, 0, 0, 0, offset + 1, true, buf[offset] == SIMPLE_TRUE))
    else
      match GuestHead(buf, offset)
      case Err(status) => Err(status)
      case Ok(Head(major, value, next)) =>
        if major == BYTES || major == TEXT then
          if value > USIZE_MAX then Err(ERR_BAD_LENGTH)
          else if value > Remaining(buf, next) then Err(ERR_BAD_ENCODING)
          else Ok(Item(major, value, next, value, next + value, false, false))
        else if major == ARRAY || major == MAP then
          if value > MAX_ENTRIES then Err(ERR_BAD_ENCODING)
          else
            match GuestItems(buf, next, if major == ARRAY then value else 2 * value)
            case Err(status) => Err(status)
            case Ok(end) => Ok(Item(major, value, 0, 0, end, false, false))
        else if major == TAG then Err(ERR_BAD_ENCODING)
        else Ok(Item(major, value, 0, 0, next, false, false))
  }

  function GuestItems(buf: seq<byte>, offset: nat, n: nat): (r: Result<nat>)
    requires offset <= |buf|
    ensures r.Ok? ==> offset + n <= r.value <= |buf|
    decreases Left(buf, offset), n
  {
    if n == 0 then Ok(offset)
    else
      match GuestItem(buf, offset)
      case Err(status) => Err(status)
      case Ok(item) => GuestItems(buf, item.next, n - 1)
  }

  function GuestSearch(buf: seq<byte>, offset: nat, pairs: nat, key: u32): Result<Item>
    requires offset <= |buf|
    decreases pairs
  {
    if pairs == 0 then Err(ERR_NOT_AVAILABLE)
    else
      match GuestItem(buf, offset)
      case Err(status) => Err(status)
      case Ok(k) =>
        match GuestItem(buf, k.next)
        case Err(status) => Err(status)
        case Ok(v) =>
          if k.major == UNSIGNED && k.value == key then Ok(v) else GuestSearch(buf, v.next, pairs - 1, key)
  }

  function GuestFind(buf: seq<byte>, key: u32): Result<Item> {
    if |buf| == 0 then Err(ERR_NOT_AVAILABLE)
    else
      match GuestHead(buf, 0)
      case Err(status) => Err(status)
      case Ok(head) =>
        if head.major != MAP || head.value > MAX_ENTRIES then Err(ERR_BAD_ENCODING)
        else GuestSearch(buf, head.next, head.value, key)
  }

  // ---- the reader itself

  /** `read_type_value`. */
  method ReadHead(buf: seq<byte>, offset: u32) returns (r: Result<Head>)
    requires |buf| <= USIZE_MAX
    ensures r == GuestHead(buf, offset)
  {
    if offset >= |buf| { return Err(ERR_BAD_ENCODING); }
    var initial := buf[offset];
    var major, info := initial / 32, initial % 32;
    var next := offset + 1;
    if info <= 23 { return Ok(Head(major, info, next)); }
    if info == 24 {
      if next >= |buf| { return Err(ERR_BAD_ENCODING); }
      var value := buf[next];
      next := next + 1;
      return Ok(Head(major, value, next));
    }
    if info == 25 {
      if Remaining(buf, next) < 2 { return Err(ERR_BAD_ENCODING); }
      var value := 0x100 * (buf[next] as int) + buf[next + 1];
      return Ok(Head(major, value, next + 2));
    }
    if info == 26 {
      if Remaining(buf, next) < 4 { return Err(ERR_BAD_ENCODING); }
      var value := 0x100_0000 * (buf[next] as int) + 0x1_0000 * (buf[next + 1] as int) + 0x100 * (buf[next + 2] as int)
                   + buf[next + 3];
      return Ok(Head(major, value, next + 4));
    }
    if info == 27 {
      if Remaining(buf, next) < 8 { return Err(ERR_BAD_ENCODING); }
      var value := ShiftIn(buf, next);
      return Ok(Head(major, value, next + 8));
    }
    return Err(ERR_BAD_ENCODING);
  }

  /** The loop over the eight bytes of the longest head: no shift loses a bit. */
  method ShiftIn(buf: seq<byte>, at: u32) returns (value: u64)
    requires at + 8 <= |buf|
    ensures value == Folded(buf, at, 8)
  {
    var wide: nat := 0;
    for i := 0 to 8
      invariant wide == Folded(buf, at, i)
    {
      wide := 0x100 * wide + buf[at + i];
    }
    FoldSpells(buf, at, 8);
    Powers();
    value := wide;
  }

  method ReadItem(buf: seq<byte>, offset: u32) returns (r: Result<Item>)
    requires |buf| <= USIZE_MAX
    ensures r == GuestItem(buf, offset)
    decreases Left(buf, offset)
  {
    if offset >= |buf| { return Err(ERR_BAD_ENCODING); }
    if buf[offset] == SIMPLE_FALSE || buf[offset] == SIMPLE_TRUE {
      return Ok(Item(SIMPLE, 0, 0, 0, offset + 1, true, buf[offset] == SIMPLE_TRUE));
    }
    var head := ReadHead(buf, offset);
    if head.Err? { return Err(head.status); }
    hide GuestHead;
    var major, value, next := head.value.major, head.value.value, head.value.next;
    var item := Item(major, value, 0, 0, next, false, false);
    if major == BYTES || major == TEXT {
      if value > USIZE_MAX { return Err(ERR_BAD_LENGTH); }
      if value > Remaining(buf, next) { return Err(ERR_BAD_ENCODING); }
      return Ok(item.(start := next, size := value, next := next + value));
    }
    if major == ARRAY || major == MAP {
      if value > MAX_ENTRIES { return Err(ERR_BAD_ENCODING); }
      var n: nat := if major == ARRAY then value else 2 * value;
      var at: u32 := next;
      for i := 0 to n
        invariant next <= at <= |buf|
        invariant GuestItems(buf, next, n) == GuestItems(buf, at, n - i)
      {
        var kid := ReadItem(buf, at);
        if kid.Err? { return Err(kid.status); }
        at := kid.value.next;
      }
      return Ok(item.(next := at));
    }
    if major == TAG { return Err(ERR_BAD_ENCODING); }
    r := Ok(item);
  }

  method FindItem(buf: seq<byte>, key: u32) returns (r: Result<Item>)
    requires |buf| <= USIZE_MAX
    ensures r == GuestFind(buf, key)
  {
    if |buf| == 0 { return Err(ERR_NOT_AVAILABLE); }
    var head := ReadHead(buf, 0);
    if head.Err? { return Err(head.status); }
    if head.value.major != MAP || head.value.value > MAX_ENTRIES { return Err(ERR_BAD_ENCODING); }
    hide GuestSearch, GuestHead;
    r := Search(buf, head.value.next, head.value.value, key);
  }

  /** The loop of `find_item`. */
  method Search(buf: seq<byte>, start: u32, pairs: nat, key: u32) returns (r: Result<Item>)
    requires |buf| <= USIZE_MAX && start <= |buf|
    ensures r == GuestSearch(buf, start, pairs, key)
  {
    hide GuestItem;
    var offset: u32 := start;
    for i := 0 to pairs
      invariant offset <= |buf|
      invariant GuestSearch(buf, start, pairs, key) == GuestSearch(buf, offset, pairs - i, key)
    {
      var k := ReadItem(buf, offset);
      if k.Err? { return k; }
      offset := k.value.next;
      var v := ReadItem(buf, offset);
      if v.Err? { return v; }
      offset := v.value.next;
      if k.value.major == UNSIGNED && k.value.value == key { return v; }
    }
    r := Err(ERR_NOT_AVAILABLE);
  }

  // ---- host and guest agree

  /** Same item, or both fail; only the status of an oversized string differs. */
  predicate Same<T(==)>(host: Result<T>, guest: Result<T>) {
    match host
    case Ok(_) => guest == host
    case Err(status) => guest.Err? && (guest == host || (status == ERR_BAD_ENCODING && guest.status == ERR_BAD_LENGTH))
  }

  /** The two readers of heads, each with its own cases and bounds checks, read the same. */
  lemma HeadsAgree(buf: seq<byte>, offset: nat)
    ensures GuestHead(buf, offset) == HeadAt(buf, offset)
  {
    if offset < |buf| {
      var info, next := buf[offset] % 32, offset + 1;
      if info == 24 && next < |buf| {
        SpellOne(buf, next);
      } else if info == 25 && |buf| - next >= 2 {
        SpellTwo(buf, next);
      } else if info == 26 && |buf| - next >= 4 {
        SpellFour(buf, next);
      } else if info == 27 && |buf| - next >= 8 {
        FoldSpells(buf, next, 8);
      }
    }
    hide ValueOf, Folded;
  }

  lemma {:induction false} ItemsAgree(buf: seq<byte>, offset: nat)
    requires |buf| <= USIZE_MAX
    ensures Same(ItemAt(buf, offset), GuestItem(buf, offset))
    decreases Left(buf, offset), 0
  {
    hide HeadAt, GuestHead;
    HeadsAgree(buf, offset);
    if Plain(buf, offset) && HeadAt(buf, offset).Ok? {
      var h := HeadAt(buf, offset).value;
      if (h.major == ARRAY || h.major == MAP) && h.value <= MAX_ENTRIES {
        EndsAgree(buf, h.next, if h.major == ARRAY then h.value else 2 * h.value);
        hide ItemsEnd, GuestItems;
      }
    }
  }

  lemma {:induction false} EndsAgree(buf: seq<byte>, offset: nat, n: nat)
    requires |buf| <= USIZE_MAX && offset <= |buf|
    ensures Same(ItemsEnd(buf, offset, n), GuestItems(buf, offset, n))
    decreases Left(buf, offset), n
  {
    if n > 0 {
      ItemsAgree(buf, offset);
      hide ItemAt, GuestItem;
      if ItemAt(buf, offset).Ok? {
        EndsAgree(buf, ItemAt(buf, offset).value.next, n - 1);
      }
    }
  }

  /** Bytes after the last pair are the one thing that only the host notices. */
  predicate SearchSame(host: Result<Item>, guest: Result<Item>, end: Result<nat>, len: nat) {
    if guest == Err(ERR_NOT_AVAILABLE) then
      end.Ok? && host == Err(if end.value == len then ERR_NOT_AVAILABLE else ERR_BAD_ENCODING)
    else Same(host, guest)
  }

  lemma SearchStep(buf: seq<byte>, offset: nat, pairs: nat, key: u32)
    requires |buf| <= USIZE_MAX && offset <= |buf| && pairs > 0
    requires ItemAt(buf, offset).Ok? && ItemAt(buf, ItemAt(buf, offset).value.next).Ok?
    ensures var k := ItemAt(buf, offset).value;
            var v := ItemAt(buf, k.next).value;
            && ItemsEnd(buf, offset, 2 * pairs) == ItemsEnd(buf, v.next, 2 * (pairs - 1))
            && (k.major == UNSIGNED && k.value == key ==>
                  SearchPairs(buf, offset, pairs, key) == Ok(v) && GuestSearch(buf, offset, pairs, key) == Ok(v))
            && (!(k.major == UNSIGNED && k.value == key) ==>
                  && SearchPairs(buf, offset, pairs, key) == SearchPairs(buf, v.next, pairs - 1, key)
                  && GuestSearch(buf, offset, pairs, key) == GuestSearch(buf, v.next, pairs - 1, key))
  {
    ItemsAgree(buf, offset);
    ItemsAgree(buf, ItemAt(buf, offset).value.next);
    hide ItemAt, GuestItem;
  }

  lemma SearchStops(buf: seq<byte>, offset: nat, pairs: nat, key: u32)
    requires |buf| <= USIZE_MAX && offset <= |buf| && pairs > 0
    requires !ItemAt(buf, offset).Ok? || !ItemAt(buf, ItemAt(buf, offset).value.next).Ok?
    ensures SearchPairs(buf, offset, pairs, key) == Err(ERR_BAD_ENCODING)
    ensures GuestSearch(buf, offset, pairs, key) in {Err(ERR_BAD_ENCODING), Err(ERR_BAD_LENGTH)}
  {
    ItemsAgree(buf, offset);
    ItemStatus(buf, offset);
    if ItemAt(buf, offset).Ok? {
      ItemsAgree(buf, ItemAt(buf, offset).value.next);
      ItemStatus(buf, ItemAt(buf, offset).value.next);
    }
    hide ItemAt, GuestItem;
  }

  lemma {:induction false} SearchAgrees(buf: seq<byte>, offset: nat, pairs: nat, key: u32)
    requires |buf| <= USIZE_MAX && offset <= |buf|
    ensures SearchSame(SearchPairs(buf, offset, pairs, key), GuestSearch(buf, offset, pairs, key),
                       ItemsEnd(buf, offset, 2 * pairs), |buf|)
    decreases pairs
  {
    if pairs > 0 {
      hide ItemAt, ItemsEnd, SearchPairs, GuestSearch;
      if ItemAt(buf, offset).Ok? && ItemAt(buf, ItemAt(buf, offset).value.next).Ok? {
        SearchStep(buf, offset, pairs, key);
        SearchAgrees(buf, ItemAt(buf, ItemAt(buf, offset).value.next).value.next, pairs - 1, key);
      } else {
        SearchStops(buf, offset, pairs, key);
      }
    }
  }

  lemma {:induction false} ItemStatus(buf: seq<byte>, offset: nat)
    ensures ItemAt(buf, offset).Err? ==> ItemAt(buf, offset).status == ERR_BAD_ENCODING
    decreases Left(buf, offset), 0
  {
    if Plain(buf, offset) && HeadAt(buf, offset).Ok? {
      var h := HeadAt(buf, offset).value;
      if (h.major == ARRAY || h.major == MAP) && h.value <= MAX_ENTRIES {
        EndStatus(buf, h.next, if h.major == ARRAY then h.value else 2 * h.value);
        hide ItemsEnd;
      }
    }
  }

  lemma {:induction false} EndStatus(buf: seq<byte>, offset: nat, n: nat)
    requires offset <= |buf|
    ensures ItemsEnd(buf, offset, n).Err? ==> ItemsEnd(buf, offset, n).status == ERR_BAD_ENCODING
    decreases Left(buf, offset), n
  {
    if n > 0 {
      ItemStatus(buf, offset);
      hide ItemAt;
      if ItemAt(buf, offset).Ok? {
        EndStatus(buf, ItemAt(buf, offset).value.next, n - 1);
      }
    }
  }

  /** On every buffer the host finds a key exactly when the guest does, and then the same item. */
  lemma FindsAgree(buf: seq<byte>, key: u32)
    requires |buf| <= USIZE_MAX
    ensures Find(buf, key).Ok? <==> GuestFind(buf, key).Ok?
    ensures Find(buf, key).Ok? ==> Find(buf, key) == GuestFind(buf, key)
    ensures Find(buf, key) == Err(ERR_NOT_AVAILABLE) ==> GuestFind(buf, key) == Err(ERR_NOT_AVAILABLE)
  {
    HeadsAgree(buf, 0);
    if |buf| > 0 && HeadAt(buf, 0).Ok? {
      var h := HeadAt(buf, 0).value;
      SearchAgrees(buf, h.next, h.value, key);
    }
    hide HeadAt, GuestHead, SearchPairs, GuestSearch, ItemsEnd;
  }

  /** On a buffer that passes the host's map check the two answers are the same, absent keys included. */
  lemma CheckedMapsAgree(buf: seq<byte>, key: u32)
    requires |buf| <= USIZE_MAX && IsEmptyOrMap(buf)
    ensures GuestFind(buf, key) == Find(buf, key)
  {
    if |buf| > 0 {
      HeadsAgree(buf, 0);
      BoolsAreNotMaps(buf);
      var h := HeadAt(buf, 0).value;
      SearchAgrees(buf, h.next, h.value, key);
      WholePairs(buf, h.next, h.value, key);
      hide HeadAt, GuestHead, SearchPairs, GuestSearch, ItemsEnd;
    }
  }

  lemma BoolsAreNotMaps(buf: seq<byte>)
    requires |buf| > 0 && IsEmptyOrMap(buf)
    ensures HeadAt(buf, 0).Ok?
    ensures var h := HeadAt(buf, 0).value;
            h.major == MAP && h.value <= MAX_ENTRIES && ItemsEnd(buf, h.next, 2 * h.value) == Ok(|buf|)
  {
    hide HeadAt, ItemsEnd;
  }

  /** When all pairs are well formed, the search can only end in a find or in a missing key. */
  lemma {:induction false} WholePairs(buf: seq<byte>, offset: nat, pairs: nat, key: u32)
    requires offset <= |buf| && ItemsEnd(buf, offset, 2 * pairs) == Ok(|buf|)
    ensures SearchPairs(buf, offset, pairs, key).Ok? || SearchPairs(buf, offset, pairs, key) == Err(ERR_NOT_AVAILABLE)
    decreases pairs
  {
    if pairs > 0 {
      hide ItemAt;
      var k := ItemAt(buf, offset).value;
      var v := ItemAt(buf, k.next).value;
      WholePairs(buf, v.next, pairs - 1, key);
    }
  }

  // ---- text

  predicate Tail(b: byte) { 0x80 <= b <= 0xbf }

  /** Well-formed UTF-8 byte sequences (table 3-7 of the Unicode Standard). */
  predicate IsUtf8(s: seq<byte>)
    decreases |s|
  {
    s == [] ||
    if s[0] <= 0x7f then IsUtf8(s[1..])
    else if 0xc2 <= s[0] <= 0xdf then |s| >= 2 && Tail(s[1]) && IsUtf8(s[2..])
    else if 0xe0 <= s[0] <= 0xef then
      && |s| >= 3 && Tail(s[1]) && Tail(s[2])
      && (s[0] == 0xe0 ==> s[1] >= 0xa0) && (s[0] == 0xed ==> s[1] <= 0x9f) && IsUtf8(s[3..])
    else if 0xf0 <= s[0] <= 0xf4 then
      && |s| >= 4 && Tail(s[1]) && Tail(s[2]) && Tail(s[3])
      && (s[0] == 0xf0 ==> s[1] >= 0x90) && (s[0] == 0xf4 ==> s[1] <= 0x8f) && IsUtf8(s[4..])
    else false
  }

  function GuestFindText(buf: seq<byte>, key: u32): Result<seq<byte>>
    requires |buf| <= USIZE_MAX
  {
    match GuestFind(buf, key)
    case Err(status) => Err(status)
    case Ok(item) =>
      FindsAgree(buf, key);
      FindStaysInside(buf, key);
      match Payload(buf, item, TEXT)
      case Err(status) => Err(status)
      case Ok(text) => if IsUtf8(text) then Ok(text) else Err(ERR_BAD_ENCODING)
  }

  /** Text is the one typed value on which the guest is stricter: it must be UTF-8. */
  lemma TextAgrees(buf: seq<byte>, key: u32)
    requires |buf| <= USIZE_MAX
    ensures GuestFindText(buf, key).Ok?
            <==> FindPayload(buf, key, TEXT).Ok? && IsUtf8(FindPayload(buf, key, TEXT).value)
    ensures GuestFindText(buf, key).Ok? ==> GuestFindText(buf, key) == FindPayload(buf, key, TEXT)
  {
    FindsAgree(buf, key);
    hide Find, GuestFind, IsUtf8, Payload;
  }
}
