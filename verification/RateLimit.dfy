/** Capability checks and the rate limiter that each capability carries. */
module RateLimit {
  import opened Words
  import opened Status
  import opened CborHead
  import opened CborMap
  import opened Safety

  const MAX_CAPABILITIES := 16
  const KIND_GPIO: u32 := 1
  const KIND_NETWORK: u32 := 4
  const KIND_CONFIG: u32 := 6
  const KEY_KEY: u32 := 8
  const KEY_DATA: u32 := 9

  datatype Op = Read | Write | Subscribe | Publish | Request

  /** A capability; the operation mask is the set of its bits. */
  datatype Capability = Capability(
    kind: u32, resource: u32, name: seq<byte>, ops: set<Op>, maxPayload: u32, maxRate: u32)

  datatype Target = OnResource(kind: u32, op: Op, id: u32) | OnConfig(op: Op, key: seq<byte>)

  const DOT: byte := 0x2e
  const STAR: byte := 0x2a

  /** A pattern that ends in ".*" matches every key with its prefix, up to and with the dot. */
  predicate NameMatches(pattern: seq<byte>, key: seq<byte>) {
    var n := |pattern|;
    if n >= 2 && pattern[n - 1] == STAR && pattern[n - 2] == DOT then pattern[..n - 1] <= key else key == pattern
  }

  predicate Matches(c: Capability, t: Target) {
    match t
    case OnResource(kind, op, id) => c.kind == kind && c.resource == id && op in c.ops
    case OnConfig(op, key) => c.kind == KIND_CONFIG && op in c.ops && NameMatches(c.name, key)
  }

  /** The first matching capability from `i` on below the bound, or the bound. */
  function Scan(caps: seq<Capability>, t: Target, bound: nat, i: nat): (k: nat)
    requires i <= bound <= |caps|
    ensures i <= k <= bound && (k < bound ==> Matches(caps[k], t))
    ensures forall j :: i <= j < k ==> !Matches(caps[j], t)
    decreases bound - i
  {
    if i == bound then i else if Matches(caps[i], t) then i else Scan(caps, t, bound, i + 1)
  }

  /** The permission check looks at the whole set. */
  function Permission(caps: seq<Capability>, t: Target): nat {
    Scan(caps, t, |caps|, 0)
  }

  /** The budget index is looked up among the first sixteen only; none is the size of the table. */
  function BudgetIndex(caps: seq<Capability>, t: Target): (k: nat)
    ensures k <= MAX_CAPABILITIES
  {
    var bound := if |caps| < MAX_CAPABILITIES then |caps| else MAX_CAPABILITIES;
    var k := Scan(caps, t, bound, 0);
    if k == bound then MAX_CAPABILITIES else k
  }

  /** The budget spent is that of the capability that gave permission, or none when that is past the sixteenth. */
  lemma SameCapability(caps: seq<Capability>, t: Target)
    requires Permission(caps, t) < |caps|
    ensures BudgetIndex(caps, t) ==
            if Permission(caps, t) < MAX_CAPABILITIES then Permission(caps, t) else MAX_CAPABILITIES
  {
    var bound := if |caps| < MAX_CAPABILITIES then |caps| else MAX_CAPABILITIES;
    assert Scan(caps, t, bound, 0) == if Permission(caps, t) < bound then Permission(caps, t) else bound;
  }

  /** What the limiter remembers of each capability. */
  datatype Budget = Budget(last: seq<u64>, seen: seq<bool>)

  predicate Sixteen(b: Budget) {
    |b.last| == |b.seen| == MAX_CAPABILITIES
  }

  /** Nothing allowed yet. */
  function Unspent(): (b: Budget)
    ensures Sixteen(b)
  {
    Budget(seq(MAX_CAPABILITIES, _ => 0), seq(MAX_CAPABILITIES, _ => false))
  }

  function Interval(hz: u32): (ms: nat)
    requires hz > 0
    ensures ms > 0
  {
    if 1000 / hz == 0 then 1 else 1000 / hz
  }

  /** `enforce_rate_limit`; the next allowed time is a 64-bit sum. */
  function Enforce(caps: seq<Capability>, b: Budget, k: nat, now: u64): (r: (u32, Budget))
    requires Sixteen(b)
    ensures Sixteen(r.1)
  {
    if k >= MAX_CAPABILITIES || k >= |caps| || caps[k].maxRate == 0 then (OK, b)
    else if b.seen[k] && now < (b.last[k] + Interval(caps[k].maxRate)) % 0x1_0000_0000_0000_0000 then
      (ERR_RATE_LIMITED, b)
    else (OK, Budget(b.last[k := now], b.seen[k := true]))
  }

  function TargetOf(op: u32, req: seq<byte>): Result<Target> {
    if op == OP_GPIO_GET || op == OP_GPIO_SET || op == OP_GPIO_SUBSCRIBE then
      match FindU32(req, KEY_RESOURCE_ID)
      case Err(_) => Err(ERR_BAD_ENCODING)
      case Ok(id) =>
        Ok(OnResource(KIND_GPIO,
                      if op == OP_GPIO_SET then Write else if op == OP_GPIO_SUBSCRIBE then Subscribe else Read, id))
    else if op == OP_CONFIG_GET || op == OP_CONFIG_SET || op == OP_CONFIG_DELETE then
      match FindPayload(req, KEY_KEY, TEXT)
      case Err(_) => Err(ERR_BAD_ENCODING)
      case Ok(key) => Ok(OnConfig(if op == OP_CONFIG_GET then Read else Write, key))
    else if op == OP_MQTT_PUBLISH || op == OP_MQTT_SUBSCRIBE || op == OP_HTTP_REQUEST then
      match FindU32(req, KEY_RESOURCE_ID)
      case Err(_) => Err(ERR_BAD_ENCODING)
      case Ok(id) =>
        Ok(OnResource(KIND_NETWORK,
                      if op == OP_MQTT_PUBLISH then Publish
                      else if op == OP_MQTT_SUBSCRIBE then Subscribe else Request, id))
    else Err(ERR_UNSUPPORTED_OPCODE)
  }

  predicate Unmetered(op: u32) {
    op == OP_SYS_GET_INFO || op == OP_NET_STATUS || op == OP_TIMER_SET || op == OP_TIMER_CANCEL
  }

  /** Permission, before payload and rate; `kinds` gives the kind of each resource of the profile. */
  function Permit(caps: seq<Capability>, kinds: map<u32, u32>, t: Target): u32 {
    if t.OnResource? && (t.id !in kinds || kinds[t.id] != t.kind) then ERR_INVALID_RESOURCE
    else if t.OnConfig? && t.key == [] then ERR_BAD_ENCODING
    else if Permission(caps, t) == |caps| then ERR_CAPABILITY_DENIED
    else OK
  }

  function PayloadLen(op: u32, req: seq<byte>): Result<nat> {
    if op != OP_CONFIG_SET && op != OP_MQTT_PUBLISH && op != OP_HTTP_REQUEST then Ok(0)
    else
      match FindPayload(req, KEY_DATA, BYTES)
      case Ok(data) => Ok(|data|)
      case Err(status) => if status == ERR_NOT_AVAILABLE then Ok(0) else Err(ERR_BAD_ENCODING)
  }

  /** `enforce_payload_limit`, which GPIO calls do not go through. */
  function CheckPayload(limit: u32, op: u32, req: seq<byte>): u32 {
    if limit == 0 || op == OP_GPIO_GET || op == OP_GPIO_SET || op == OP_GPIO_SUBSCRIBE then OK
    else
      match PayloadLen(op, req)
      case Err(status) => status
      case Ok(len) => if len > limit then ERR_BAD_LENGTH else OK
  }

  datatype Call = CallAt(op: u32, req: seq<byte>, now: u64)

  /** `wdc_caps_authorize_host_call`: the decision, and the budgets after it. */
  function Decide(caps: seq<Capability>, kinds: map<u32, u32>, b: Budget, c: Call): (r: (u32, Budget))
    requires Sixteen(b)
    ensures Sixteen(r.1)
  {
    if Unmetered(c.op) then (OK, b)
    else
      match TargetOf(c.op, c.req)
      case Err(status) => (status, b)
      case Ok(t) =>
        var permit := Permit(caps, kinds, t);
        if permit != OK then (permit, b)
        else
          var payload := CheckPayload(caps[Permission(caps, t)].maxPayload, c.op, c.req);
          if payload != OK then (payload, b) else Enforce(caps, b, BudgetIndex(caps, t), c.now)
  }

  /** The capability whose budget a call is charged to. */
  predicate ChargedTo(caps: seq<Capability>, kinds: map<u32, u32>, b: Budget, c: Call, k: nat)
    requires Sixteen(b)
  {
    && Decide(caps, kinds, b, c).0 == OK && !Unmetered(c.op)
    && TargetOf(c.op, c.req).Ok? && BudgetIndex(caps, TargetOf(c.op, c.req).value) == k
  }

  /** The times of the calls that were allowed on one capability. */
  function Times(caps: seq<Capability>, kinds: map<u32, u32>, b: Budget, calls: seq<Call>, k: nat): seq<u64>
    requires Sixteen(b)
    decreases |calls|
  {
    if calls == [] then []
    else
      (if ChargedTo(caps, kinds, b, calls[0], k) then [calls[0].now] else [])
      + Times(caps, kinds, Decide(caps, kinds, b, calls[0]).1, calls[1..], k)
  }

  const LAST_TIME := 0xffff_ffff_ffff_0000

  /** A clock that does not go back, and is not about to overflow. */
  predicate Clocked(from: nat, calls: seq<Call>)
    decreases |calls|
  {
    calls == [] || (from <= calls[0].now < LAST_TIME && Clocked(calls[0].now, calls[1..]))
  }

  predicate Spaced(t: seq<u64>, ms: nat) {
    forall i, j :: 0 <= i < j < |t| ==> t[i] + ms <= t[j]
  }

  predicate AllFrom(t: seq<u64>, from: nat) {
    forall i :: 0 <= i < |t| ==> from <= t[i]
  }

  lemma IntervalBound(hz: u32)
    requires hz > 0
    ensures 1 <= Interval(hz) <= 1000
    ensures hz <= 1000 ==> Interval(hz) == 1000 / hz
  {
    if hz <= 1000 {
      assert 1000 / hz >= 1;
    }
  }

  /** One call on a metered capability: it waits its turn, or is refused and costs nothing. */
  lemma OneCall(caps: seq<Capability>, kinds: map<u32, u32>, b: Budget, c: Call, k: nat)
    requires Sixteen(b) && k < MAX_CAPABILITIES && k < |caps| && caps[k].maxRate > 0
    requires c.now < LAST_TIME && (b.seen[k] ==> b.last[k] <= c.now)
    ensures var b' := Decide(caps, kinds, b, c).1;
            if ChargedTo(caps, kinds, b, c, k) then
              && (b.seen[k] ==> b.last[k] + Interval(caps[k].maxRate) <= c.now)
              && b'.seen[k] && b'.last[k] == c.now
            else b'.seen[k] == b.seen[k] && b'.last[k] == b.last[k]
  {
    IntervalBound(caps[k].maxRate);
    hide TargetOf, Permit, CheckPayload, BudgetIndex, Permission, Interval;
  }

  /** Over every run the calls that a metered capability allows are at least its interval apart. */
  lemma {:induction false} AllowedCallsSpaced(
      caps: seq<Capability>, kinds: map<u32, u32>, b: Budget, calls: seq<Call>, k: nat, from: nat)
    requires Sixteen(b) && k < MAX_CAPABILITIES && k < |caps| && caps[k].maxRate > 0
    requires Clocked(from, calls) && (b.seen[k] ==> b.last[k] <= from)
    ensures var t, ms := Times(caps, kinds, b, calls, k), Interval(caps[k].maxRate);
            Spaced(t, ms) && AllFrom(t, from) && (b.seen[k] ==> AllFrom(t, b.last[k] + ms))
    decreases |calls|
  {
    hide Decide, ChargedTo, Interval, Times, Clocked, Spaced, AllFrom;
    var ms := Interval(caps[k].maxRate);
    if calls == [] {
      NoTimes(caps, kinds, b, k);
      Nothing(ms, from);
      Nothing(ms, b.last[k] + ms);
    } else {
      var c, rest := calls[0], calls[1..];
      var b' := Decide(caps, kinds, b, c).1;
      ClockFirst(from, calls);
      OneCall(caps, kinds, b, c, k);
      AllowedCallsSpaced(caps, kinds, b', rest, k, c.now);
      TimesFirst(caps, kinds, b, calls, k);
      var t := Times(caps, kinds, b', rest, k);
      if ChargedTo(caps, kinds, b, c, k) {
        SpacedFirst(c.now, t, ms, from);
        if b.seen[k] {
          SpacedFirst(c.now, t, ms, b.last[k] + ms);
        }
      } else {
        Later(t, from, c.now);
        assert [] + t == t;
      }
    }
  }

  lemma ClockFirst(from: nat, calls: seq<Call>)
    requires calls != [] && Clocked(from, calls)
    ensures from <= calls[0].now < LAST_TIME && Clocked(calls[0].now, calls[1..])
  {
  }

  lemma Nothing(ms: nat, from: nat)
    ensures Spaced([], ms) && AllFrom([], from)
  {
  }

  lemma Later(t: seq<u64>, from: nat, now: nat)
    requires AllFrom(t, now) && from <= now
    ensures AllFrom(t, from)
  {
  }

  lemma SpacedFirst(x: u64, t: seq<u64>, ms: nat, from: nat)
    requires Spaced(t, ms) && AllFrom(t, x + ms) && from <= x
    ensures Spaced([x] + t, ms) && AllFrom([x] + t, from)
  {
  }

  lemma NoTimes(caps: seq<Capability>, kinds: map<u32, u32>, b: Budget, k: nat)
    requires Sixteen(b)
    ensures Times(caps, kinds, b, [], k) == []
  {
  }

  lemma TimesFirst(caps: seq<Capability>, kinds: map<u32, u32>, b: Budget, calls: seq<Call>, k: nat)
    requires Sixteen(b) && calls != []
    ensures Times(caps, kinds, b, calls, k) ==
            (if ChargedTo(caps, kinds, b, calls[0], k) then [calls[0].now] else [])
            + Times(caps, kinds, Decide(caps, kinds, b, calls[0]).1, calls[1..], k)
  {
    hide Decide, ChargedTo;
  }

  // ---- how many calls a window of time can hold

  function InWindow(t: seq<u64>, start: nat, width: nat): (w: seq<u64>)
    ensures forall i :: 0 <= i < |w| ==> start <= w[i] < start + width
    decreases |t|
  {
    if t == [] then []
    else (if start <= t[0] < start + width then [t[0]] else []) + InWindow(t[1..], start, width)
  }

  lemma {:induction false} WindowSpaced(t: seq<u64>, ms: nat, start: nat, width: nat)
    requires Spaced(t, ms)
    ensures Spaced(InWindow(t, start, width), ms)
    ensures forall x <- InWindow(t, start, width) :: x in t
    decreases |t|
  {
    if t != [] {
      WindowSpaced(t[1..], ms, start, width);
      var w := InWindow(t[1..], start, width);
      forall i | 0 <= i < |w|
        ensures t[0] + ms <= w[i]
      {
        assert w[i] in w;
        assert w[i] in t[1..];
      }
    }
  }

  lemma {:induction false} SpreadOut(t: seq<u64>, ms: nat)
    requires Spaced(t, ms) && t != []
    ensures t[0] + (|t| - 1) * ms <= t[|t| - 1]
    decreases |t|
  {
    if |t| > 1 {
      var rest := t[..|t| - 1];
      SpreadOut(rest, ms);
      assert (|t| - 1) * ms == (|t| - 2) * ms + ms;
    }
  }

  /** The number of whole or begun intervals in a stretch of time. */
  function Ceiling(width: nat, ms: nat): nat
    requires ms > 0
  {
    (width + ms - 1) / ms
  }

  lemma CeilingBound(n: nat, ms: nat, width: nat)
    requires ms > 0 && n > 0 && (n - 1) * ms < width
    ensures n <= Ceiling(width, ms)
  {
    assert n * ms <= width + ms - 1;
    DivideBoth(n, ms, width + ms - 1);
  }

  lemma Cancel(a: nat, b: nat, ms: nat)
    requires a * ms < b * ms
    ensures a < b
  {
    if b <= a {
      Multiply(b, a, ms);
    }
  }

  lemma Multiply(a: nat, b: nat, ms: nat)
    requires a <= b
    ensures a * ms <= b * ms
  {
  }

  lemma DivideBoth(n: nat, ms: nat, x: nat)
    requires ms > 0 && n * ms <= x
    ensures n <= x / ms
  {
    var q := x / ms;
    assert x == q * ms + x % ms;
    assert (q + 1) * ms == q * ms + ms;
    Cancel(n, q + 1, ms);
  }

  /** Any window holds at most as many allowed calls as it has begun intervals. */
  lemma WindowBound(caps: seq<Capability>, kinds: map<u32, u32>, calls: seq<Call>, k: nat, start: nat, width: nat)
    requires k < MAX_CAPABILITIES && k < |caps| && caps[k].maxRate > 0 && Clocked(0, calls)
    ensures var allowed := Times(caps, kinds, Unspent(), calls, k);
            |InWindow(allowed, start, width)| <= Ceiling(width, Interval(caps[k].maxRate))
  {
    var ms := Interval(caps[k].maxRate);
    AllowedCallsSpaced(caps, kinds, Unspent(), calls, k, 0);
    var t := Times(caps, kinds, Unspent(), calls, k);
    hide Times, Interval;
    WindowSpaced(t, ms, start, width);
    var w := InWindow(t, start, width);
    if w != [] {
      SpreadOut(w, ms);
      CeilingBound(|w|, ms, width);
    }
  }

  lemma SecondInIntervals(hz: u32)
    requires 0 < hz <= 1000
    ensures Ceiling(1000, Interval(hz)) <= hz <==> 1000 % hz == 0
  {
    IntervalBound(hz);
    var ms, rest := 1000 / hz, 1000 % hz;
    assert 1000 == hz * ms + rest;
    var q := Ceiling(1000, ms);
    assert (hz + 1) * ms == hz * ms + ms;
    if rest == 0 {
      assert 1000 + ms - 1 == q * ms + (1000 + ms - 1) % ms;
      Cancel(q, hz + 1, ms);
    } else {
      DivideBoth(hz + 1, ms, 1000 + ms - 1);
    }
  }

  /** Whether a second begins at most as many intervals as the rate allows calls. */
  lemma SecondFits(hz: u32)
    requires hz > 0
    ensures Ceiling(1000, Interval(hz)) <= hz <==> hz > 1000 || 1000 % hz == 0
  {
    if hz <= 1000 {
      SecondInIntervals(hz);
    } else {
      assert Interval(hz) == 1;
    }
  }

  // ---- the bound is met

  function After(start: nat, ms: nat, n: nat): nat {
    start + n * ms
  }

  lemma OneLess(start: nat, ms: nat, n: nat)
    requires n > 0
    ensures After(start, ms, n) == After(start + ms, ms, n - 1) && After(start, ms, n) >= start + ms
    ensures After(start, ms, n - 1) + ms == After(start, ms, n)
  {
    assert n * ms == ms + (n - 1) * ms;
  }

  /** The same request, once in every interval. */
  function Steady(op: u32, req: seq<byte>, start: nat, ms: nat, n: nat): seq<Call>
    requires After(start, ms, n) < LAST_TIME
    decreases n
  {
    if n == 0 then []
    else
      OneLess(start, ms, n);
      [CallAt(op, req, start)] + Steady(op, req, start + ms, ms, n - 1)
  }

  function Ticks(start: nat, ms: nat, n: nat): seq<u64>
    requires After(start, ms, n) < LAST_TIME
    decreases n
  {
    if n == 0 then []
    else
      OneLess(start, ms, n);
      [start] + Ticks(start + ms, ms, n - 1)
  }

  /** A request that only the rate of capability `k` can refuse. */
  predicate OnlyMetered(caps: seq<Capability>, kinds: map<u32, u32>, op: u32, req: seq<byte>, k: nat) {
    && k < MAX_CAPABILITIES && k < |caps| && caps[k].maxRate > 0
    && !Unmetered(op) && TargetOf(op, req).Ok?
    && var t := TargetOf(op, req).value;
       Permit(caps, kinds, t) == OK && CheckPayload(caps[Permission(caps, t)].maxPayload, op, req) == OK
       && BudgetIndex(caps, t) == k
  }

  /** The limiter's memory after a call that was allowed. */
  function Spend(b: Budget, k: nat, now: u64): (r: Budget)
    requires Sixteen(b) && k < MAX_CAPABILITIES
    ensures Sixteen(r)
  {
    Budget(b.last[k := now], b.seen[k := true])
  }

  lemma OneTick(caps: seq<Capability>, kinds: map<u32, u32>, b: Budget, c: Call, k: nat)
    requires Sixteen(b) && OnlyMetered(caps, kinds, c.op, c.req, k) && c.now < LAST_TIME
    requires b.seen[k] ==> b.last[k] + Interval(caps[k].maxRate) <= c.now
    ensures ChargedTo(caps, kinds, b, c, k)
    ensures Decide(caps, kinds, b, c).1 == Spend(b, k, c.now)
  {
    hide TargetOf, Permit, CheckPayload, BudgetIndex, Permission, Interval;
  }

  /** The capability has a budget with this interval, and enough of it has passed. */
  predicate MayCall(caps: seq<Capability>, b: Budget, k: nat, ms: nat, now: nat)
    requires Sixteen(b) && k < MAX_CAPABILITIES
  {
    k < |caps| && caps[k].maxRate > 0 && ms == Interval(caps[k].maxRate) && (b.seen[k] ==> b.last[k] + ms <= now)
  }

  lemma SteadyStep(
      caps: seq<Capability>, kinds: map<u32, u32>, b: Budget, op: u32, req: seq<byte>, k: nat,
      ms: nat, start: nat, n: nat)
    requires Sixteen(b) && k < MAX_CAPABILITIES && MayCall(caps, b, k, ms, start)
    requires OnlyMetered(caps, kinds, op, req, k)
    requires n > 0 && After(start, ms, n) < LAST_TIME
    ensures start < LAST_TIME && After(start + ms, ms, n - 1) < LAST_TIME
    ensures Ticks(start, ms, n) == [start] + Ticks(start + ms, ms, n - 1)
    ensures Times(caps, kinds, b, Steady(op, req, start, ms, n), k)
         == [start] + Times(caps, kinds, Spend(b, k, start), Steady(op, req, start + ms, ms, n - 1), k)
    ensures MayCall(caps, Spend(b, k, start), k, ms, start + ms)
  {
    hide Decide, ChargedTo, Interval, OnlyMetered, Times, Steady, Ticks, After;
    OneLess(start, ms, n);
    StepFirst(op, req, start, ms, n);
    OneTick(caps, kinds, b, CallAt(op, req, start), k);
    TimesFirst(caps, kinds, b, Steady(op, req, start, ms, n), k);
  }

  lemma {:induction false} SteadyAllowed(
      caps: seq<Capability>, kinds: map<u32, u32>, b: Budget, op: u32, req: seq<byte>, k: nat,
      ms: nat, start: nat, n: nat)
    requires Sixteen(b) && k < MAX_CAPABILITIES && MayCall(caps, b, k, ms, start)
    requires OnlyMetered(caps, kinds, op, req, k)
    requires After(start, ms, n) < LAST_TIME
    ensures Times(caps, kinds, b, Steady(op, req, start, ms, n), k) == Ticks(start, ms, n)
    decreases n
  {
    hide OnlyMetered, MayCall, Times, Steady, Ticks, After, Sixteen, Decide, ChargedTo;
    if n == 0 {
      NoTimes(caps, kinds, b, k);
      NoSteps(op, req, start, ms);
    } else {
      SteadyStep(caps, kinds, b, op, req, k, ms, start, n);
      SteadyAllowed(caps, kinds, Spend(b, k, start), op, req, k, ms, start + ms, n - 1);
    }
  }

  lemma NoSteps(op: u32, req: seq<byte>, start: nat, ms: nat)
    requires After(start, ms, 0) < LAST_TIME
    ensures Steady(op, req, start, ms, 0) == [] && Ticks(start, ms, 0) == []
  {
  }

  lemma StepFirst(op: u32, req: seq<byte>, start: nat, ms: nat, n: nat)
    requires n > 0 && After(start, ms, n) < LAST_TIME && After(start + ms, ms, n - 1) < LAST_TIME && start < LAST_TIME
    ensures Ticks(start, ms, n) == [start] + Ticks(start + ms, ms, n - 1)
    ensures var calls := Steady(op, req, start, ms, n);
            calls != [] && calls[0] == CallAt(op, req, start) && calls[1..] == Steady(op, req, start + ms, ms, n - 1)
  {
  }

  lemma {:induction false} TicksInWindow(start: nat, ms: nat, n: nat, width: nat)
    requires After(start, ms, n) < LAST_TIME && (n > 0 ==> After(start, ms, n - 1) < width)
    ensures InWindow(Ticks(start, ms, n), 0, width) == Ticks(start, ms, n) && |Ticks(start, ms, n)| == n
    decreases n
  {
    if n > 0 {
      OneLess(start, ms, n);
      if n > 1 {
        OneLess(start, ms, n - 1);
      }
      hide After;
      TicksInWindow(start + ms, ms, n - 1, width);
    }
  }

  lemma CeilingReached(width: nat, ms: nat)
    requires ms > 0 && width > 0
    ensures Ceiling(width, ms) > 0 && (Ceiling(width, ms) - 1) * ms < width
    ensures Ceiling(width, ms) * ms <= width + ms
  {
    var n := Ceiling(width, ms);
    assert n * ms <= width + ms - 1;
    assert (n - 1) * ms == n * ms - ms;
  }

  /** The bound is exact: some run fills the window. */
  lemma WindowFilled(caps: seq<Capability>, kinds: map<u32, u32>, op: u32, req: seq<byte>, k: nat, width: nat)
    requires OnlyMetered(caps, kinds, op, req, k) && 0 < width < 0x1_0000_0000
    ensures var ms := Interval(caps[k].maxRate);
            var n := Ceiling(width, ms);
            && After(0, ms, n) < LAST_TIME
            && |InWindow(Times(caps, kinds, Unspent(), Steady(op, req, 0, ms, n), k), 0, width)| == n
  {
    var ms := Interval(caps[k].maxRate);
    IntervalBound(caps[k].maxRate);
    CeilingReached(width, ms);
    hide Interval, Ceiling, OnlyMetered, Times, Steady;
    SteadyAllowed(caps, kinds, Unspent(), op, req, k, ms, 0, Ceiling(width, ms));
    TicksInWindow(0, ms, Ceiling(width, ms), width);
  }

  lemma {:induction false} SteadyClocked(op: u32, req: seq<byte>, from: nat, start: nat, ms: nat, n: nat)
    requires from <= start && After(start, ms, n) < LAST_TIME
    ensures Clocked(from, Steady(op, req, start, ms, n))
    decreases n
  {
    if n > 0 {
      OneLess(start, ms, n);
      hide After;
      SteadyClocked(op, req, start, start + ms, ms, n - 1);
    }
  }

  /** The calls of a run that capability `k` allows in the second that begins at `start`. */
  function InSecond(caps: seq<Capability>, kinds: map<u32, u32>, calls: seq<Call>, k: nat, start: nat): nat {
    |InWindow(Times(caps, kinds, Unspent(), calls, k), start, 1000)|
  }

  /** No second of any run has more allowed calls on capability `k` than its configured rate. */
  ghost predicate KeepsRate(caps: seq<Capability>, kinds: map<u32, u32>, k: nat)
    requires k < |caps|
  {
    forall calls: seq<Call>, start: nat | Clocked(0, calls) ::
      InSecond(caps, kinds, calls, k, start) <= caps[k].maxRate
  }

  /** "At most hz calls in a second" holds over all runs exactly for rates above 1000 or dividing 1000. */
  lemma RateInASecond(caps: seq<Capability>, kinds: map<u32, u32>, op: u32, req: seq<byte>, k: nat)
    requires OnlyMetered(caps, kinds, op, req, k)
    ensures KeepsRate(caps, kinds, k) <==> caps[k].maxRate > 1000 || 1000 % caps[k].maxRate == 0
  {
    var hz := caps[k].maxRate;
    var ms := Interval(hz);
    SecondFits(hz);
    hide Interval, Ceiling, Times, Steady, InWindow, Clocked, After;
    if Ceiling(1000, ms) <= hz {
      forall calls: seq<Call>, start: nat | Clocked(0, calls)
        ensures InSecond(caps, kinds, calls, k, start) <= hz
      {
        WindowBound(caps, kinds, calls, k, start, 1000);
      }
    } else {
      WindowFilled(caps, kinds, op, req, k, 1000);
      SteadyClocked(op, req, 0, 0, ms, Ceiling(1000, ms));
      assert InSecond(caps, kinds, Steady(op, req, 0, ms, Ceiling(1000, ms)), k, 0) > hz;
    }
  }

  /** A GPIO write to resource 7, on a profile that has it, under one capability with a rate. */
  function SetSeven(): seq<byte> {
    MapBytes([Entry(KEY_RESOURCE_ID, Uint(7))])
  }

  function SevenAt(hz: u32): seq<Capability> {
    [Capability(KIND_GPIO, 7, [], {Write}, 0, hz)]
  }

  const SEVEN_IS_GPIO: map<u32, u32> := map[7 := KIND_GPIO]

  lemma SevenIsMetered(hz: u32)
    requires hz > 0
    ensures OnlyMetered(SevenAt(hz), SEVEN_IS_GPIO, OP_GPIO_SET, SetSeven(), 0)
  {
    FindsEach([Entry(KEY_RESOURCE_ID, Uint(7))], 0);
    hide MapBytes, FindU32;
    assert TargetOf(OP_GPIO_SET, SetSeven()) == Ok(OnResource(KIND_GPIO, Write, 7));
    assert Scan(SevenAt(hz), OnResource(KIND_GPIO, Write, 7), 1, 0) == 0;
  }

  /** At three calls a second the limiter lets four through: at 0, 333, 666 and 999 milliseconds. */
  lemma FourInASecond()
    ensures var calls := Steady(OP_GPIO_SET, SetSeven(), 0, 333, 4);
            Clocked(0, calls) && InSecond(SevenAt(3), SEVEN_IS_GPIO, calls, 0, 0) == 4
    ensures !KeepsRate(SevenAt(3), SEVEN_IS_GPIO, 0)
  {
    SevenIsMetered(3);
    hide Times, Steady, InWindow, Clocked, OnlyMetered, SetSeven;
    assert Interval(SevenAt(3)[0].maxRate) == 333 && Ceiling(1000, 333) == 4;
    WindowFilled(SevenAt(3), SEVEN_IS_GPIO, OP_GPIO_SET, SetSeven(), 0, 1000);
    SteadyClocked(OP_GPIO_SET, SetSeven(), 0, 0, 333, 4);
    RateInASecond(SevenAt(3), SEVEN_IS_GPIO, OP_GPIO_SET, SetSeven(), 0);
  }

  // ---- the limiter itself

  class Authorizer {
    const lastAllowed: array<u64>
    const rateSeen: array<bool>

    predicate Valid()
      reads this
    {
      lastAllowed.Length == MAX_CAPABILITIES && rateSeen.Length == MAX_CAPABILITIES
    }

    function Value(): Budget
      reads this, lastAllowed, rateSeen
    {
      Budget(lastAllowed[..], rateSeen[..])
    }

    constructor ()
      ensures Valid() && fresh(lastAllowed) && fresh(rateSeen) && Value() == Unspent()
    {
      lastAllowed := new u64[MAX_CAPABILITIES](_ => 0);
      rateSeen := new bool[MAX_CAPABILITIES](_ => false);
    }

    /** The loop of the permission check, and of the budget look-up with its smaller bound. */
    static method FindCapability(caps: seq<Capability>, t: Target, bound: nat) returns (k: nat)
      requires bound <= |caps|
      ensures k == Scan(caps, t, bound, 0)
    {
      k := 0;
      while k < bound
        invariant k <= bound
        invariant Scan(caps, t, bound, 0) == Scan(caps, t, bound, k)
      {
        if Matches(caps[k], t) { return; }
        k := k + 1;
      }
    }

    method EnforceRateLimit(caps: seq<Capability>, k: nat, now: u64) returns (status: u32)
      requires Valid()
      modifies lastAllowed, rateSeen
      ensures (status, Value()) == Enforce(caps, old(Value()), k, now)
    {
      if k >= MAX_CAPABILITIES || k >= |caps| { return OK; }
      if caps[k].maxRate == 0 { return OK; }
      var interval := 1000 / caps[k].maxRate;
      if interval == 0 { interval := 1; }
      var nextAllowed := (lastAllowed[k] + interval) % 0x1_0000_0000_0000_0000;
      if rateSeen[k] && now < nextAllowed { return ERR_RATE_LIMITED; }
      lastAllowed[k] := now;
      rateSeen[k] := true;
      status := OK;
    }

    method AuthorizeHostCall(caps: seq<Capability>, kinds: map<u32, u32>, c: Call) returns (decision: u32)
      requires Valid()
      modifies lastAllowed, rateSeen
      ensures (decision, Value()) == Decide(caps, kinds, old(Value()), c)
    {
      hide TargetOf, PayloadLen, Enforce, Value;
      if Unmetered(c.op) { return OK; }
      var target := TargetOf(c.op, c.req);
      if target.Err? { return target.status; }
      var t := target.value;
      if t.OnResource? && (t.id !in kinds || kinds[t.id] != t.kind) { return ERR_INVALID_RESOURCE; }
      if t.OnConfig? && t.key == [] { return ERR_BAD_ENCODING; }
      var permission := FindCapability(caps, t, |caps|);
      if permission == |caps| { return ERR_CAPABILITY_DENIED; }
      decision := CheckPayload(caps[permission].maxPayload, c.op, c.req);
      if decision != OK { return; }
      var bound := if |caps| < MAX_CAPABILITIES then |caps| else MAX_CAPABILITIES;
      var k := FindCapability(caps, t, bound);
      decision := EnforceRateLimit(caps, if k == bound then MAX_CAPABILITIES else k, c.now);
    }
  }
}
