/** What a capability set allows, in the terms of the set and the request; and outputs that change only under it. */
module Authority {
  import opened Words
  import opened Status
  import opened CborHead
  import opened CborReader
  import opened CborMap
  import opened GpioTable
  import opened Safety
  import opened RateLimit

  // ---- what each call needs

  /** The kind of resource and the operation that a call on a resource needs. */
  predicate NeedsResource(op: u32, kind: u32, o: Op) {
    || (op == OP_GPIO_GET && kind == KIND_GPIO && o == Read)
    || (op == OP_GPIO_SET && kind == KIND_GPIO && o == Write)
    || (op == OP_GPIO_SUBSCRIBE && kind == KIND_GPIO && o == Subscribe)
    || (op == OP_MQTT_PUBLISH && kind == KIND_NETWORK && o == Publish)
    || (op == OP_MQTT_SUBSCRIBE && kind == KIND_NETWORK && o == Subscribe)
    || (op == OP_HTTP_REQUEST && kind == KIND_NETWORK && o == Request)
  }

  /** The operation that a call on a configuration key needs. */
  predicate NeedsConfig(op: u32, o: Op) {
    (op == OP_CONFIG_GET && o == Read) || ((op == OP_CONFIG_SET || op == OP_CONFIG_DELETE) && o == Write)
  }

  predicate GrantsResource(c: Capability, kind: u32, o: Op, id: u32) {
    c.kind == kind && c.resource == id && o in c.ops
  }

  /** A name covers a key that equals it; a stem with ".*" covers every key that goes on after the stem's dot. */
  ghost predicate Covers(name: seq<byte>, key: seq<byte>) {
    name == key || exists stem: seq<byte> :: name == stem + [DOT, STAR] && stem + [DOT] <= key
  }

  ghost predicate GrantsConfig(c: Capability, o: Op, key: seq<byte>) {
    c.kind == KIND_CONFIG && o in c.ops && Covers(c.name, key)
  }

  // ---- what is refused for its payload, and for its rate

  /** The verdict of a capability's payload limit; zero is no limit, and only three calls carry a payload. */
  function PayloadVerdict(op: u32, req: seq<byte>, limit: u32): u32 {
    if limit == 0 || (op != OP_CONFIG_SET && op != OP_MQTT_PUBLISH && op != OP_HTTP_REQUEST) then OK
    else
      match FindPayload(req, KEY_DATA, BYTES)
      case Ok(data) => if |data| > limit then ERR_BAD_LENGTH else OK
      case Err(status) => if status == ERR_NOT_AVAILABLE then OK else ERR_BAD_ENCODING
  }

  /** The capability at this place has a budget, and its interval has not passed. */
  predicate TooSoon(caps: seq<Capability>, b: Budget, k: nat, now: u64)
    requires Sixteen(b)
  {
    && k < MAX_CAPABILITIES && k < |caps| && caps[k].maxRate > 0 && b.seen[k]
    && now < b.last[k] + (if 1000 / caps[k].maxRate == 0 then 1 else 1000 / caps[k].maxRate)
  }

  /** The decision once the capability at this place gave permission. */
  function Charged(caps: seq<Capability>, b: Budget, k: nat, c: Call): (u32, Budget)
    requires Sixteen(b) && k < |caps|
  {
    if PayloadVerdict(c.op, c.req, caps[k].maxPayload) != OK then
      (PayloadVerdict(c.op, c.req, caps[k].maxPayload), b)
    else if TooSoon(caps, b, k, c.now) then (ERR_RATE_LIMITED, b)
    else if k < MAX_CAPABILITIES && caps[k].maxRate > 0 then (OK, Spend(b, k, c.now))
    else (OK, b)
  }

  predicate NoOverflow(b: Budget)
    requires Sixteen(b)
  {
    forall k :: 0 <= k < MAX_CAPABILITIES ==> b.last[k] < LAST_TIME
  }

  lemma LimitIsVerdict(op: u32, req: seq<byte>, limit: u32)
    ensures CheckPayload(limit, op, req) == PayloadVerdict(op, req, limit)
  {
    hide FindPayload;
  }

  lemma EnforceIs(caps: seq<Capability>, b: Budget, k: nat, now: u64)
    requires Sixteen(b) && NoOverflow(b) && k < |caps|
    ensures Enforce(caps, b, if k < MAX_CAPABILITIES then k else MAX_CAPABILITIES, now) ==
            if TooSoon(caps, b, k, now) then (ERR_RATE_LIMITED, b)
            else if k < MAX_CAPABILITIES && caps[k].maxRate > 0 then (OK, Spend(b, k, now))
            else (OK, b)
  {
    if k < MAX_CAPABILITIES && caps[k].maxRate > 0 {
      IntervalBound(caps[k].maxRate);
    }
  }

  lemma {:induction false} ScanIs(caps: seq<Capability>, t: Target, bound: nat, i: nat, k: nat)
    requires i <= k <= bound <= |caps| && (k < bound ==> Matches(caps[k], t))
    requires forall j :: i <= j < k ==> !Matches(caps[j], t)
    ensures Scan(caps, t, bound, i) == k
    decreases k - i
  {
    hide Matches;
    if i < k {
      ScanIs(caps, t, bound, i + 1, k);
    }
  }

  lemma FirstGrant(caps: seq<Capability>, t: Target, k: nat)
    requires k < |caps| && Matches(caps[k], t) && forall j :: 0 <= j < k ==> !Matches(caps[j], t)
    ensures Permission(caps, t) == k
    ensures BudgetIndex(caps, t) == if k < MAX_CAPABILITIES then k else MAX_CAPABILITIES
  {
    ScanIs(caps, t, |caps|, 0, k);
    SameCapability(caps, t);
    hide Matches, Scan;
  }

  lemma NoGrant(caps: seq<Capability>, t: Target)
    requires forall j :: 0 <= j < |caps| ==> !Matches(caps[j], t)
    ensures Permission(caps, t) == |caps|
  {
    ScanIs(caps, t, |caps|, 0, |caps|);
    hide Matches, Scan;
  }

  lemma NameCovers(name: seq<byte>, key: seq<byte>)
    ensures NameMatches(name, key) <==> Covers(name, key)
  {
    var n := |name|;
    if n >= 2 && name[n - 1] == STAR && name[n - 2] == DOT {
      assert name == name[..n - 2] + [DOT, STAR] && name[..n - 2] + [DOT] == name[..n - 1];
    }
    if stem: seq<byte> :| name == stem + [DOT, STAR] && stem + [DOT] <= key {
      assert name[..n - 1] == stem + [DOT];
    }
  }

  // ---- the decision, in the terms of the set and the request

  /** The target is a resource of the profile, or a configuration key. */
  predicate Named(kinds: map<u32, u32>, t: Target) {
    match t
    case OnResource(kind, _, id) => id in kinds && kinds[id] == kind
    case OnConfig(_, key) => key != []
  }

  lemma DecideOn(caps: seq<Capability>, kinds: map<u32, u32>, b: Budget, c: Call, t: Target)
    requires Sixteen(b) && NoOverflow(b) && !Unmetered(c.op) && TargetOf(c.op, c.req) == Ok(t)
    ensures (t.OnResource? && (t.id !in kinds || kinds[t.id] != t.kind)) ==>
              Decide(caps, kinds, b, c) == (ERR_INVALID_RESOURCE, b)
    ensures (t.OnConfig? && t.key == []) ==> Decide(caps, kinds, b, c) == (ERR_BAD_ENCODING, b)
    ensures Named(kinds, t) && (forall j :: 0 <= j < |caps| ==> !Matches(caps[j], t)) ==>
              Decide(caps, kinds, b, c) == (ERR_CAPABILITY_DENIED, b)
    ensures forall k :: Named(kinds, t) && 0 <= k < |caps| && Matches(caps[k], t)
                        && (forall j :: 0 <= j < k ==> !Matches(caps[j], t)) ==>
              Decide(caps, kinds, b, c) == Charged(caps, b, k, c)
  {
    hide TargetOf, Matches, Scan, Enforce, CheckPayload, PayloadVerdict, TooSoon, Permission, BudgetIndex;
    if forall j :: 0 <= j < |caps| ==> !Matches(caps[j], t) {
      NoGrant(caps, t);
    }
    forall k | Named(kinds, t) && 0 <= k < |caps| && Matches(caps[k], t)
               && (forall j :: 0 <= j < k ==> !Matches(caps[j], t))
      ensures Decide(caps, kinds, b, c) == Charged(caps, b, k, c)
    {
      FirstGrant(caps, t, k);
      LimitIsVerdict(c.op, c.req, caps[k].maxPayload);
      EnforceIs(caps, b, k, c.now);
    }
  }

  lemma ResourceTarget(c: Call, kind: u32, o: Op, id: u32)
    requires NeedsResource(c.op, kind, o) && FindU32(c.req, KEY_RESOURCE_ID) == Ok(id)
    ensures !Unmetered(c.op) && TargetOf(c.op, c.req) == Ok(OnResource(kind, o, id))
  {
    hide FindU32;
  }

  lemma ConfigTarget(c: Call, o: Op, key: seq<byte>)
    requires NeedsConfig(c.op, o) && FindPayload(c.req, KEY_KEY, TEXT) == Ok(key)
    ensures !Unmetered(c.op) && TargetOf(c.op, c.req) == Ok(OnConfig(o, key))
  {
    hide FindPayload;
  }

  /** A call that names a resource is refused unless the resource is of the kind the call needs and a capability of the
    * set has that kind, that resource and the operation; the first such one decides about payload and rate. */
  lemma ResourceCallDecided(
      caps: seq<Capability>, kinds: map<u32, u32>, b: Budget, c: Call, kind: u32, o: Op, id: u32)
    requires Sixteen(b) && NoOverflow(b)
    requires NeedsResource(c.op, kind, o) && FindU32(c.req, KEY_RESOURCE_ID) == Ok(id)
    ensures id !in kinds || kinds[id] != kind ==> Decide(caps, kinds, b, c) == (ERR_INVALID_RESOURCE, b)
    ensures id in kinds && kinds[id] == kind && (forall g <- caps :: !GrantsResource(g, kind, o, id)) ==>
              Decide(caps, kinds, b, c) == (ERR_CAPABILITY_DENIED, b)
    ensures forall k :: id in kinds && kinds[id] == kind && 0 <= k < |caps| && GrantsResource(caps[k], kind, o, id)
                        && (forall j :: 0 <= j < k ==> !GrantsResource(caps[j], kind, o, id)) ==>
              Decide(caps, kinds, b, c) == Charged(caps, b, k, c)
  {
    ResourceTarget(c, kind, o, id);
    var t := OnResource(kind, o, id);
    assert forall j :: 0 <= j < |caps| ==> (Matches(caps[j], t) <==> GrantsResource(caps[j], kind, o, id));
    hide TargetOf, Matches, GrantsResource, FindU32, Decide, Charged, Unmetered;
    DecideOn(caps, kinds, b, c, t);
  }

  /** A call that names a configuration key: the same, by names that cover the key. */
  lemma ConfigCallDecided(caps: seq<Capability>, kinds: map<u32, u32>, b: Budget, c: Call, o: Op, key: seq<byte>)
    requires Sixteen(b) && NoOverflow(b)
    requires NeedsConfig(c.op, o) && FindPayload(c.req, KEY_KEY, TEXT) == Ok(key)
    ensures key == [] ==> Decide(caps, kinds, b, c) == (ERR_BAD_ENCODING, b)
    ensures key != [] && (forall g <- caps :: !GrantsConfig(g, o, key)) ==>
              Decide(caps, kinds, b, c) == (ERR_CAPABILITY_DENIED, b)
    ensures forall k :: key != [] && 0 <= k < |caps| && GrantsConfig(caps[k], o, key)
                        && (forall j :: 0 <= j < k ==> !GrantsConfig(caps[j], o, key)) ==>
              Decide(caps, kinds, b, c) == Charged(caps, b, k, c)
  {
    ConfigTarget(c, o, key);
    var t := OnConfig(o, key);
    forall j | 0 <= j < |caps|
      ensures Matches(caps[j], t) <==> GrantsConfig(caps[j], o, key)
    {
      NameCovers(caps[j].name, key);
    }
    hide TargetOf, Matches, GrantsConfig, FindPayload, Decide, Charged, Unmetered;
    DecideOn(caps, kinds, b, c, t);
  }

  /** A request whose resource or key cannot be read as such is refused. */
  lemma UnreadableRefused(caps: seq<Capability>, kinds: map<u32, u32>, b: Budget, c: Call, kind: u32, o: Op)
    requires Sixteen(b)
    requires || (NeedsResource(c.op, kind, o) && FindU32(c.req, KEY_RESOURCE_ID).Err?)
             || (NeedsConfig(c.op, o) && FindPayload(c.req, KEY_KEY, TEXT).Err?)
    ensures Decide(caps, kinds, b, c) == (ERR_BAD_ENCODING, b)
  {
    hide FindU32, FindPayload;
  }

  /** Four calls need no capability; whatever is neither one of them nor in the two tables is refused. */
  lemma OtherCallsDecided(caps: seq<Capability>, kinds: map<u32, u32>, b: Budget, c: Call)
    requires Sixteen(b)
    requires forall kind: u32, o: Op :: !NeedsResource(c.op, kind, o) && !NeedsConfig(c.op, o)
    ensures Decide(caps, kinds, b, c) ==
            (if c.op == OP_SYS_GET_INFO || c.op == OP_NET_STATUS || c.op == OP_TIMER_SET || c.op == OP_TIMER_CANCEL
             then OK else ERR_UNSUPPORTED_OPCODE, b)
  {
    assert !NeedsResource(c.op, KIND_GPIO, Read) && !NeedsResource(c.op, KIND_GPIO, Write);
    assert !NeedsResource(c.op, KIND_GPIO, Subscribe) && !NeedsResource(c.op, KIND_NETWORK, Publish);
    assert !NeedsResource(c.op, KIND_NETWORK, Subscribe) && !NeedsResource(c.op, KIND_NETWORK, Request);
    assert !NeedsConfig(c.op, Read) && !NeedsConfig(c.op, Write);
    hide FindU32, FindPayload;
  }

  /** A call on a resource that is allowed was granted by a capability of the set. */
  lemma AllowedIsGranted(caps: seq<Capability>, kinds: map<u32, u32>, b: Budget, c: Call, kind: u32, o: Op)
    requires Sixteen(b) && NeedsResource(c.op, kind, o) && Decide(caps, kinds, b, c).0 == OK
    ensures FindU32(c.req, KEY_RESOURCE_ID).Ok?
    ensures var id := FindU32(c.req, KEY_RESOURCE_ID).value;
            id in kinds && kinds[id] == kind && exists g <- caps :: GrantsResource(g, kind, o, id)
  {
    if FindU32(c.req, KEY_RESOURCE_ID).Err? {
      UnreadableRefused(caps, kinds, b, c, kind, o);
    } else {
      var id := FindU32(c.req, KEY_RESOURCE_ID).value;
      var t := OnResource(kind, o, id);
      ResourceTarget(c, kind, o, id);
      assert Permit(caps, kinds, t) == OK by { hide FindU32, Matches, Scan, TargetOf, CheckPayload, Enforce; }
      var k := Permission(caps, t);
      assert Matches(caps[k], t) && GrantsResource(caps[k], kind, o, id) && caps[k] in caps;
    }
    hide FindU32, Decide, TargetOf;
  }

  // ---- the dispatcher under the authoriser

  /** Under an authoriser, what the capability check refuses is not carried out and changes nothing. */
  lemma RefusedIsNotCarriedOut(g: Guard, p: Profile, op: u32, req: seq<byte>, v: Verdict)
    requires g.authorizer && (v.capsStatus != OK || v.capsDecision != OK)
    ensures HostCall(g, p, op, req, v).1 == g && !HostCall(g, p, op, req, v).0.Answered?
    ensures Supported(op) && v.sizes == OK && IsEmptyOrMap(req) && (g.state == AppRunning || !Effectful(op)) ==>
              HostCall(g, p, op, req, v).0
              == if v.capsStatus != OK then Refused(v.capsStatus) else Denied(v.capsDecision)
  {
    hide GpioSet, IsEmptyOrMap;
  }

  /** Without an authoriser, system information and network status are answered, and nothing else. */
  lemma WithoutAuthorizer(g: Guard, p: Profile, op: u32, req: seq<byte>, v: Verdict)
    requires !g.authorizer
    ensures HostCall(g, p, op, req, v).1 == g
    ensures HostCall(g, p, op, req, v).0.Answered? <==>
              (op == OP_SYS_GET_INFO || op == OP_NET_STATUS) && v.sizes == OK && IsEmptyOrMap(req)
  {
    hide GpioSet, IsEmptyOrMap;
  }

  /** Calls that read, subscribe or ask for status; the rest write, publish, request or set a timer. */
  const QUIET: set<u32> := {0x0001, 0x0201, 0x0301, 0x0303, 0x0501}
  const EFFECTS: set<u32> := {0x0101, 0x0102, 0x0202, 0x0203, 0x0302, 0x0502, 0x0503, 0x0504}

  /** An allowed call is answered if it is one of the quiet ones, or if an app is running; nothing but its sizes and its
    * encoding stands in its way, and no other opcode is answered. */
  lemma AllowedIsAnswered(g: Guard, p: Profile, op: u32, req: seq<byte>, v: Verdict)
    requires g.authorizer && v.capsStatus == OK && v.capsDecision == OK
    ensures HostCall(g, p, op, req, v).0.Answered? <==>
              (op in QUIET || (op in EFFECTS && g.state == AppRunning)) && v.sizes == OK && IsEmptyOrMap(req)
  {
    hide GpioSet, IsEmptyOrMap;
  }

  /** Every way in which a call is turned away before any capability is looked at. */
  lemma TurnedAway(g: Guard, p: Profile, op: u32, req: seq<byte>, v: Verdict)
    ensures op !in QUIET + EFFECTS ==> HostCall(g, p, op, req, v) == (Refused(ERR_UNSUPPORTED_OPCODE), g)
    ensures op in QUIET + EFFECTS && v.sizes != OK ==> HostCall(g, p, op, req, v) == (Refused(v.sizes), g)
    ensures op in QUIET + EFFECTS && v.sizes == OK && !IsEmptyOrMap(req) ==>
              HostCall(g, p, op, req, v) == (Refused(ERR_BAD_ENCODING), g)
    ensures op in EFFECTS && v.sizes == OK && IsEmptyOrMap(req) && !g.authorizer ==>
              HostCall(g, p, op, req, v) == (Denied(ERR_CAPABILITY_DENIED), g)
    ensures op in EFFECTS && v.sizes == OK && IsEmptyOrMap(req) && g.authorizer && g.state != AppRunning ==>
              HostCall(g, p, op, req, v) == (Denied(ERR_INVALID_STATE), g)
  {
    hide GpioSet, IsEmptyOrMap;
  }

  /** A call under this capability set, at this time. */
  function CallUnder(g: Guard, p: Profile, caps: seq<Capability>, kinds: map<u32, u32>, b: Budget, c: Call, sizes: u32)
    : (Outcome, Guard)
    requires Sixteen(b)
  {
    HostCall(g, p, c.op, c.req, Verdict(sizes, OK, Decide(caps, kinds, b, c).0))
  }

  /** The level that a request names, by the kind of the entry under the value key. */
  function LevelNamed(expected: Result<Field>): Result<u32> {
    match expected
    case Ok(Flag(b)) => Ok(if b then 1 else 0)
    case Ok(f) => U32Of(f)
    case Err(_) => Err(ERR_BAD_ENCODING)
  }

  lemma LevelOfAnswers(req: seq<byte>, expected: Result<Field>)
    requires FindersAnswer(req, KEY_VALUE, expected)
    ensures RequestedLevel(req) == LevelNamed(expected)
  {
    hide FindU32, FindU64, FindI32, FindBool, FindPayload;
  }

  /** A write request is read by its entries: a boolean or an unsigned number, and nothing else. */
  lemma LevelOfEntries(es: seq<Entry>)
    requires AllSized(es) && |es| <= MAX_ENTRIES
    ensures RequestedLevel(MapBytes(es)) == LevelNamed(Lookup(es, KEY_VALUE))
  {
    hide MapBytes, Lookup, RequestedLevel, LevelNamed, FindersAnswer;
    FindersOnWritten(es, KEY_VALUE);
    LevelOfAnswers(MapBytes(es), Lookup(es, KEY_VALUE));
  }

  /** The first line with the id is an output. */
  predicate OutputLine(p: Profile, id: u32) {
    exists k :: 0 <= k < |p.gpio| && p.gpio[k].id == id && p.gpio[k].mode == Output
                && forall j :: 0 <= j < k ==> p.gpio[j].id != id
  }

  /** A write to anything but the relay and the LED, to a line that is no output, or of a level above one is refused. */
  lemma OtherWritesRefused(g: Guard, p: Profile, req: seq<byte>, id: u32, value: u32)
    requires FindU32(req, KEY_RESOURCE_ID) == Ok(id) && RequestedLevel(req) == Ok(value) && g.hooked
    ensures id != 1 && id != 2 ==> GpioSet(g, p, req) == (ERR_INVALID_RESOURCE, g)
    ensures (id == 1 || id == 2) && value > 1 ==> GpioSet(g, p, req) == (ERR_BAD_ENCODING, g)
    ensures !OutputLine(p, id) ==> GpioSet(g, p, req).0 != OK && GpioSet(g, p, req).1 == g
  {
    hide FindU32, RequestedLevel, Set;
  }

  /** A write that names no id or no level is refused as badly encoded. */
  lemma NamelessRefused(g: Guard, p: Profile, req: seq<byte>)
    requires FindU32(req, KEY_RESOURCE_ID).Err? || (FindU32(req, KEY_VALUE).Err? && FindBool(req, KEY_VALUE).Err?)
    ensures GpioSet(g, p, req) == (ERR_BAD_ENCODING, g)
  {
    hide FindU32, FindBool, Set;
  }

  lemma GpioSetChanges(g: Guard, p: Profile, req: seq<byte>, id: u32)
    requires Proper(g.table) && Level(GpioSet(g, p, req).1.table, id) != Level(g.table, id)
    ensures FindU32(req, KEY_RESOURCE_ID) == Ok(id) && RequestedLevel(req).Ok? && RequestedLevel(req).value <= 1
    ensures Level(GpioSet(g, p, req).1.table, id) == Ok(RequestedLevel(req).value)
    ensures (id == 1 || id == 2) && OutputLine(p, id)
  {
    if FindU32(req, KEY_RESOURCE_ID).Ok? && RequestedLevel(req).Ok? {
      SetWorks(g.table, FindU32(req, KEY_RESOURCE_ID).value, RequestedLevel(req).value);
    }
    hide FindU32, RequestedLevel, Set, Level, Proper, Used, LineOf;
  }

  /** An output level changes only in a running app's write that a capability of the set grants for that output, and
    * then to the level that the request names. */
  lemma LevelChangesOnlyIfGranted(g: Guard, p: Profile, caps: seq<Capability>, kinds: map<u32, u32>, b: Budget, c: Call,
                                  sizes: u32, id: u32)
    requires Sixteen(b) && Proper(g.table)
    requires Level(CallUnder(g, p, caps, kinds, b, c, sizes).1.table, id) != Level(g.table, id)
    ensures c.op == OP_GPIO_SET && g.authorizer && g.state == AppRunning
    ensures FindU32(c.req, KEY_RESOURCE_ID) == Ok(id)
    ensures id in kinds && kinds[id] == KIND_GPIO && exists x <- caps :: GrantsResource(x, KIND_GPIO, Write, id)
    ensures (id == 1 || id == 2) && OutputLine(p, id)
    ensures RequestedLevel(c.req).Ok?
    ensures Level(CallUnder(g, p, caps, kinds, b, c, sizes).1.table, id) == Ok(RequestedLevel(c.req).value)
  {
    var v := Verdict(sizes, OK, Decide(caps, kinds, b, c).0);
    hide GpioSet, IsEmptyOrMap, Decide, FindU32, RequestedLevel, Level, Proper, GrantsResource, OutputLine;
    if g.state != AppRunning || !g.authorizer {
      CallsFrozen(g, p, c.op, c.req, v);
    } else if v.capsDecision != OK {
      RefusedIsNotCarriedOut(g, p, c.op, c.req, v);
    } else if c.op == OP_GPIO_SET {
      AllowedIsGranted(caps, kinds, b, c, KIND_GPIO, Write);
      GpioSetChanges(g, p, c.req, id);
    }
  }

  /** A granted write of a boolean sets the output to one exactly when the boolean is true; a number names its level. */
  lemma GrantedWriteSets(g: Guard, p: Profile, caps: seq<Capability>, kinds: map<u32, u32>, b: Budget, now: u64,
                         es: seq<Entry>, id: u32, k: nat)
    requires Sixteen(b) && NoOverflow(b) && Proper(g.table) && AllSized(es) && |es| <= MAX_ENTRIES
    requires g.state == AppRunning && g.authorizer && g.hooked
    requires Lookup(es, KEY_RESOURCE_ID) == Ok(Uint(id)) && (id == RELAY_1 || id == STATUS_LED)
    requires LevelNamed(Lookup(es, KEY_VALUE)).Ok? && LevelNamed(Lookup(es, KEY_VALUE)).value <= 1
    requires LineOf(p.gpio, id, 0) < |p.gpio| && p.gpio[LineOf(p.gpio, id, 0)].mode == Output
    requires id in kinds && kinds[id] == KIND_GPIO && k < |caps| && GrantsResource(caps[k], KIND_GPIO, Write, id)
    requires forall j :: 0 <= j < k ==> !GrantsResource(caps[j], KIND_GPIO, Write, id)
    requires !TooSoon(caps, b, k, now) && |Used(g.table) + {id}| <= SLOTS
    ensures var c := CallAt(OP_GPIO_SET, MapBytes(es), now);
            var (outcome, g') := CallUnder(g, p, caps, kinds, b, c, OK);
            outcome == Answered(OK) && Level(g'.table, id) == Ok(LevelNamed(Lookup(es, KEY_VALUE)).value)
  {
    var req := MapBytes(es);
    var c := CallAt(OP_GPIO_SET, req, now);
    FindersOnWritten(es, KEY_RESOURCE_ID);
    LevelOfEntries(es);
    WrittenIsMap(es);
    assert FindU32(req, KEY_RESOURCE_ID) == Ok(id);
    hide MapBytes, Lookup, FindU32, RequestedLevel, LevelNamed, IsEmptyOrMap, Decide, TooSoon, GrantsResource, Used,
         Proper, Level, LineOf, HostCall, FindersAnswer;
    ResourceCallDecided(caps, kinds, b, c, KIND_GPIO, Write, id);
    assert Charged(caps, b, k, c).0 == OK;
    WriteTakesEffect(g, p, req, Verdict(OK, OK, OK), id, LevelNamed(Lookup(es, KEY_VALUE)).value);
  }
}
