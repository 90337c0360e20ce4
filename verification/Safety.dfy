/** The safety guard between guest calls and outputs: outputs are safe unless an app is running. */
module Safety {
  import opened Words
  import opened Status
  import opened CborMap
  import opened GpioTable

  const OP_SYS_GET_INFO: u32 := 0x0001
  const OP_TIMER_SET: u32 := 0x0101
  const OP_TIMER_CANCEL: u32 := 0x0102
  const OP_CONFIG_GET: u32 := 0x0201
  const OP_CONFIG_SET: u32 := 0x0202
  const OP_CONFIG_DELETE: u32 := 0x0203
  const OP_GPIO_GET: u32 := 0x0301
  const OP_GPIO_SET: u32 := 0x0302
  const OP_GPIO_SUBSCRIBE: u32 := 0x0303
  const OP_NET_STATUS: u32 := 0x0501
  const OP_MQTT_PUBLISH: u32 := 0x0502
  const OP_MQTT_SUBSCRIBE: u32 := 0x0503
  const OP_HTTP_REQUEST: u32 := 0x0504
  const OP_BLE_SET_VALUE: u32 := 0x0601
  const OP_BLE_NOTIFY: u32 := 0x0602
  const OP_KV_SET: u32 := 0x0702
  const OP_KV_DELETE: u32 := 0x0703

  const KEY_RESOURCE_ID: u32 := 3
  const KEY_VALUE: u32 := 4
  const RELAY_1: u32 := 1
  const STATUS_LED: u32 := 2

  predicate Supported(op: u32) {
    op in {OP_SYS_GET_INFO, OP_TIMER_SET, OP_TIMER_CANCEL, OP_CONFIG_GET, OP_CONFIG_SET, OP_CONFIG_DELETE,
           OP_GPIO_GET, OP_GPIO_SET, OP_GPIO_SUBSCRIBE,
           OP_NET_STATUS, OP_MQTT_PUBLISH, OP_MQTT_SUBSCRIBE, OP_HTTP_REQUEST}
  }

  /** `opcode_is_effectful_when_stopped`. */
  predicate Effectful(op: u32) {
    op in {OP_GPIO_SET, OP_TIMER_SET, OP_TIMER_CANCEL, OP_CONFIG_SET, OP_CONFIG_DELETE, OP_MQTT_PUBLISH,
           OP_MQTT_SUBSCRIBE, OP_HTTP_REQUEST, OP_BLE_SET_VALUE, OP_BLE_NOTIFY, OP_KV_SET, OP_KV_DELETE}
  }

  datatype SafetyState = Uninitialized | BootSafe | NoBundleLoaded | AppRunning | AppFaultStopped

  /** The static state of guard, dispatcher and HAL that decides about outputs. */
  datatype Guard = Guard(ready: bool, state: SafetyState, table: seq<Slot>, authorizer: bool, hooked: bool)

  function Start(): Guard {
    Guard(false, Uninitialized, seq(SLOTS, _ => UNUSED), false, false)
  }

  /** What the rest of the firmware decides about one call: the size checks, and the capability check. */
  datatype Verdict = Verdict(sizes: u32, capsStatus: u32, capsDecision: u32)

  datatype Outcome = Refused(status: u32) | Denied(decision: u32) | Answered(status: u32)

  function Force(g: Guard, p: Profile): (u32, Guard) {
    if !g.ready then (ERR_INVALID_STATE, g)
    else
      var (status, t) := ApplyDefaults(g.table, p);
      (status, g.(table := t))
  }

  function Initialize(g: Guard, p: Profile): (u32, Guard) {
    if ValidationStatus(p) != OK then (ValidationStatus(p), g)
    else Force(g.(ready := true, state := BootSafe, hooked := true), p)
  }

  function InstallAuthorizer(g: Guard, p: Profile): (u32, Guard) {
    var (status, g') := if g.ready then (OK, g) else Initialize(g, p);
    (status, if status == OK then g'.(authorizer := true) else g')
  }

  function MarkRunning(g: Guard): (u32, Guard) {
    if !g.ready then (ERR_INVALID_STATE, g) else (OK, g.(state := AppRunning))
  }

  function EnterNoBundle(g: Guard, p: Profile): (u32, Guard) {
    var (status, g') := Force(g, p);
    (status, if status == OK then g'.(state := NoBundleLoaded) else g')
  }

  /** The state changes even when the outputs could not be forced. */
  function StopApp(g: Guard, p: Profile): (u32, Guard) {
    var (status, g') := Force(g, p);
    (status, g'.(state := AppFaultStopped))
  }

  /** `maybe_authorize`, with the guard as the installed authorizer. */
  function Authorize(g: Guard, op: u32, v: Verdict): (u32, u32) {
    if !g.authorizer then (OK, if op == OP_SYS_GET_INFO || op == OP_NET_STATUS then OK else ERR_CAPABILITY_DENIED)
    else if Effectful(op) && g.state != AppRunning then (OK, ERR_INVALID_STATE)
    else if v.capsStatus != OK then (v.capsStatus, OK)
    else (OK, v.capsDecision)
  }

  function RequestedLevel(req: seq<byte>): Result<u32> {
    match FindU32(req, KEY_VALUE)
    case Ok(value) => Ok(value)
    case Err(_) =>
      match FindBool(req, KEY_VALUE)
      case Ok(b) => Ok(if b then 1 else 0)
      case Err(_) => Err(ERR_BAD_ENCODING)
  }

  function GpioSet(g: Guard, p: Profile, req: seq<byte>): (u32, Guard) {
    match FindU32(req, KEY_RESOURCE_ID)
    case Err(_) => (ERR_BAD_ENCODING, g)
    case Ok(id) =>
      match RequestedLevel(req)
      case Err(status) => (status, g)
      case Ok(value) =>
        if id != RELAY_1 && id != STATUS_LED then (ERR_INVALID_RESOURCE, g)
        else if value > 1 then (ERR_BAD_ENCODING, g)
        else if !g.hooked then (OK, g)
        else
          var (status, t) := SetByResource(g.table, p, id, value);
          (status, g.(table := t))
  }

  /** `wdc_host_call_dispatch`; only one opcode writes outputs. */
  function HostCall(g: Guard, p: Profile, op: u32, req: seq<byte>, v: Verdict): (Outcome, Guard) {
    if !Supported(op) then (Refused(ERR_UNSUPPORTED_OPCODE), g)
    else if v.sizes != OK then (Refused(v.sizes), g)
    else if !IsEmptyOrMap(req) then (Refused(ERR_BAD_ENCODING), g)
    else
      var (status, decision) := Authorize(g, op, v);
      if status != OK then (Refused(status), g)
      else if decision != OK then (Denied(decision), g)
      else if op == OP_GPIO_SET then
        var (st, g') := GpioSet(g, p, req);
        (Answered(st), g')
      else (Answered(OK), g)
  }

  // ---- runs

  datatype Step =
    | Init
    | Install
    | Clear
    | Running
    | NoApp
    | Stop
    | Call(op: u32, req: seq<byte>, verdict: Verdict)

  function Next(g: Guard, p: Profile, s: Step): Guard {
    match s
    case Init => Initialize(g, p).1
    case Install => InstallAuthorizer(g, p).1
    case Clear => g.(authorizer := false)
    case Running => MarkRunning(g).1
    case NoApp => EnterNoBundle(g, p).1
    case Stop => StopApp(g, p).1
    case Call(op, req, verdict) => HostCall(g, p, op, req, verdict).1
  }

  function Run(g: Guard, p: Profile, ss: seq<Step>): Guard
    decreases |ss|
  {
    if ss == [] then g else Run(Next(g, p, ss[0]), p, ss[1..])
  }

  /** Unless an app is running, every output that has a safe level holds it; and the defaults keep their slots. */
  predicate Guarded(g: Guard, p: Profile) {
    && Proper(g.table)
    && (if g.ready then Reserved(p) <= Used(g.table) else Used(g.table) == {})
    && (g.ready && g.state != AppRunning ==> OutputsSafe(g.table, p))
    && (g.state == AppRunning ==> g.ready)
  }

  lemma StartGuarded(p: Profile)
    ensures Guarded(Start(), p) && Ready(Start().table, p) && Used(Start().table) == {}
  {
  }

  lemma ForceGuarded(g: Guard, p: Profile)
    requires Fitting(p) && Ready(g.table, p) && g.ready
    ensures var (status, g') := Force(g, p);
            && status == (if |WrittenIds(p)| <= SLOTS then OK else ERR_NO_MEMORY) && g' == g.(table := g'.table)
            && Proper(g'.table) && Reserved(p) <= Used(g'.table) && OutputsSafe(g'.table, p)
  {
    hide Proper, Used, Ready, Reserved, WrittenIds, OutputsSafe, ApplyDefaults, ConsistentUpTo, ValidationStatus;
    DefaultsSafe(g.table, p);
  }

  /** A guest's write keeps the table in order, and takes no slot away. */
  lemma GpioSetKeeps(g: Guard, p: Profile, req: seq<byte>)
    requires Proper(g.table)
    ensures var g' := GpioSet(g, p, req).1;
            g' == g.(table := g'.table) && Proper(g'.table) && Used(g.table) <= Used(g'.table)
  {
    hide Proper, Used, FindU32, RequestedLevel, Set;
    var id := FindU32(req, KEY_RESOURCE_ID);
    var value := RequestedLevel(req);
    if id.Ok? && value.Ok? {
      SetWorks(g.table, id.value, value.value);
    }
  }

  /** Unless an app runs under an authoriser, no call changes guard or outputs, and no effectful call is carried out. */
  lemma CallsFrozen(g: Guard, p: Profile, op: u32, req: seq<byte>, v: Verdict)
    requires g.state != AppRunning || !g.authorizer
    ensures HostCall(g, p, op, req, v).1 == g
    ensures Effectful(op) ==> !HostCall(g, p, op, req, v).0.Answered?
  {
    hide GpioSet, IsEmptyOrMap;
  }

  /** An authorised write by a running app sets the level it names, and no other, as long as there is a slot for it. */
  lemma WriteTakesEffect(g: Guard, p: Profile, req: seq<byte>, v: Verdict, id: u32, value: u32)
    requires Proper(g.table) && g.state == AppRunning && g.authorizer && g.hooked && v == Verdict(OK, OK, OK)
    requires IsEmptyOrMap(req) && FindU32(req, KEY_RESOURCE_ID) == Ok(id) && RequestedLevel(req) == Ok(value)
    requires (id == RELAY_1 || id == STATUS_LED) && value <= 1
    requires LineOf(p.gpio, id, 0) < |p.gpio| && p.gpio[LineOf(p.gpio, id, 0)].mode == Output
    ensures var (outcome, g') := HostCall(g, p, OP_GPIO_SET, req, v);
            && outcome == Answered(if |Used(g.table) + {id}| <= SLOTS then OK else ERR_NO_MEMORY)
            && (outcome == Answered(OK) ==> Level(g'.table, id) == Ok(value))
            && (forall other :: other != id ==> Level(g'.table, other) == Level(g.table, other))
            && g' == g.(table := g'.table)
  {
    SetWorks(g.table, id, value);
    hide FindU32, RequestedLevel, Set, Proper, Used, IsEmptyOrMap, Level;
  }

  lemma CallGuarded(g: Guard, p: Profile, op: u32, req: seq<byte>, v: Verdict)
    requires Guarded(g, p)
    ensures Guarded(HostCall(g, p, op, req, v).1, p)
  {
    if g.state == AppRunning {
      GpioSetKeeps(g, p, req);
    } else {
      CallsFrozen(g, p, op, req, v);
    }
    hide GpioSet, Proper, Used, WrittenIds, OutputsSafe, IsEmptyOrMap, Authorize;
  }

  lemma NextGuarded(g: Guard, p: Profile, s: Step)
    requires Fitting(p) && Guarded(g, p)
    ensures Guarded(Next(g, p, s), p)
  {
    if s.Call? {
      CallGuarded(g, p, s.op, s.req, s.verdict);
    } else {
      if g.ready {
        ForceGuarded(g, p);
      }
      ForceGuarded(g.(ready := true, state := BootSafe, hooked := true), p);
    }
    hide Force, HostCall, Proper, Used, Reserved, WrittenIds, OutputsSafe, ValidationStatus, ConsistentUpTo;
  }

  /** Over every run, outputs are safe in every state but the running one. */
  lemma {:induction false} RunGuarded(g: Guard, p: Profile, ss: seq<Step>)
    requires Fitting(p) && Guarded(g, p)
    ensures Guarded(Run(g, p, ss), p)
    decreases |ss|
  {
    hide Guarded, Next, Fitting;
    if ss != [] {
      NextGuarded(g, p, ss[0]);
      RunGuarded(Next(g, p, ss[0]), p, ss[1..]);
    }
  }

  /** The same from power-up; and stopping leaves outputs safe whatever the app did before, even when it reports that
    * the defaults need more slots than there are. */
  lemma StopIsSafe(p: Profile, ss: seq<Step>)
    requires Fitting(p)
    ensures var g := Run(Start(), p, ss);
            g.ready && g.state != AppRunning ==> OutputsSafe(g.table, p)
    ensures var g := Run(Start(), p, ss);
            g.ready ==>
              && StopApp(g, p).0 == (if |WrittenIds(p)| <= SLOTS then OK else ERR_NO_MEMORY)
              && OutputsSafe(StopApp(g, p).1.table, p)
  {
    StartGuarded(p);
    hide Run, Proper, Used, Reserved, WrittenIds, OutputsSafe, Fitting, Force;
    RunGuarded(Start(), p, ss);
    if Run(Start(), p, ss).ready {
      ForceGuarded(Run(Start(), p, ss), p);
    }
  }

  /** Initialisation of a valid profile fails exactly when the defaults need more than eight slots; failed or not, the
    * outputs are then safe exactly when the lines that got slots leave every output at its safe level. */
  lemma InitSafeIff(p: Profile)
    requires ValidProfile(p)
    ensures var (status, g) := Initialize(Start(), p);
            && status == (if |WrittenIds(p)| <= SLOTS then OK else ERR_NO_MEMORY)
            && g.ready && g.state == BootSafe
            && (OutputsSafe(g.table, p) <==> Fitting(p))
  {
    StartGuarded(p);
    hide Proper, Used, Ready, Reserved, WrittenIds, OutputsSafe, ApplyDefaults, ConsistentUpTo, ValidationStatus;
    DefaultsSafe(Start().table, p);
  }

  lemma {:induction false} InvalidNeverReady(g: Guard, p: Profile, ss: seq<Step>)
    requires !ValidProfile(p) && !g.ready && g.state != AppRunning
    ensures !Run(g, p, ss).ready
    decreases |ss|
  {
    if ss != [] {
      if ss[0].Call? {
        CallsFrozen(g, p, ss[0].op, ss[0].req, ss[0].verdict);
      }
      hide HostCall, ValidationStatus, ApplyDefaults;
      InvalidNeverReady(Next(g, p, ss[0]), p, ss[1..]);
    }
  }

  /** After a run from power-up: initialised and with no app running, every output that has a safe level holds it. */
  predicate SafeAfter(p: Profile, ss: seq<Step>) {
    var g := Run(Start(), p, ss);
    g.ready && g.state != AppRunning ==> OutputsSafe(g.table, p)
  }

  /** The profiles on which no run whatsoever leaves an output unsafe, unless an app is running. */
  lemma SafeRunsIff(p: Profile)
    ensures (forall ss: seq<Step> :: SafeAfter(p, ss)) <==> !ValidProfile(p) || Fitting(p)
  {
    hide Run, Guarded, OutputsSafe, ValidProfile, Fitting;
    if !ValidProfile(p) {
      forall ss: seq<Step>
        ensures SafeAfter(p, ss)
      {
        InvalidNeverReady(Start(), p, ss);
      }
    } else if Fitting(p) {
      forall ss: seq<Step>
        ensures SafeAfter(p, ss)
      {
        StopIsSafe(p, ss);
      }
    } else {
      InitSafeIff(p);
      OneStep(p);
      assert !SafeAfter(p, [Init]);
    }
  }

  lemma OneStep(p: Profile)
    ensures Run(Start(), p, [Init]) == Initialize(Start(), p).1
  {
    assert [Init][1..] == [];
    hide Initialize;
    assert Run(Next(Start(), p, Init), p, []) == Next(Start(), p, Init);
  }

  /** A valid profile with contradicting lines: initialisation succeeds with an output that is not safe. */
  lemma UnsafeAfterInit()
    ensures ValidProfile(TWICE)
    ensures Initialize(Start(), TWICE).0 == OK && !OutputsSafe(Initialize(Start(), TWICE).1.table, TWICE)
  {
    TwiceContradicts();
    hide Initialize, OutputsSafe, ValidProfile, Fitting, WrittenIds;
    InitSafeIff(TWICE);
  }

  /** Valid profiles on which initialisation runs out of slots, but is unsafe only when the output comes last. */
  lemma TooManyLines(k: nat)
    requires k < 9
    ensures ValidProfile(Nine(k)) && Initialize(Start(), Nine(k)).0 == ERR_NO_MEMORY
    ensures OutputsSafe(Initialize(Start(), Nine(k)).1.table, Nine(k)) <==> k < 8
  {
    NineOverflow(k);
    hide Initialize, OutputsSafe, ValidProfile, Fitting, WrittenIds, Nine;
    InitSafeIff(Nine(k));
  }

  // ---- the calls on the static state

  class SafetyGuard {
    var ready: bool
    var state: SafetyState
    var authorizer: bool
    var hooked: bool
    const table: Table

    predicate Valid()
      reads this, table
    {
      table.Valid()
    }

    function Value(): Guard
      reads this, table, table.slots
    {
      Guard(ready, state, table.Value(), authorizer, hooked)
    }

    constructor ()
      ensures Valid() && fresh(table) && fresh(table.slots) && Value() == Start()
    {
      ready, state, authorizer, hooked := false, Uninitialized, false, false;
      table := new Table();
    }

    method ForceSafeOutputs(p: Profile) returns (status: u32)
      requires Valid()
      modifies table.slots
      ensures (status, Value()) == Force(old(Value()), p)
    {
      hide ApplyDefaults, Table.Value;
      if !ready { return ERR_INVALID_STATE; }
      status := table.ApplySafeDefaults(p);
    }

    method DoInit(p: Profile) returns (status: u32)
      requires Valid()
      modifies this, table.slots
      ensures (status, Value()) == Initialize(old(Value()), p)
    {
      hide Force, ValidationStatus, Table.Value;
      status := ValidateBasic(p);
      if status != OK { return; }
      ready := true;
      state := BootSafe;
      hooked := true;
      status := ForceSafeOutputs(p);
    }

    method DoInstallAuthorizer(p: Profile) returns (status: u32)
      requires Valid()
      modifies this, table.slots
      ensures (status, Value()) == InstallAuthorizer(old(Value()), p)
    {
      hide Initialize, Table.Value;
      if !ready {
        status := DoInit(p);
        if status != OK { return; }
      }
      authorizer := true;
      status := OK;
    }

    method DoMarkRunning() returns (status: u32)
      modifies this
      ensures (status, Value()) == MarkRunning(old(Value()))
    {
      if !ready { return ERR_INVALID_STATE; }
      state := AppRunning;
      status := OK;
    }

    method DoEnterNoBundle(p: Profile) returns (status: u32)
      requires Valid()
      modifies this, table.slots
      ensures (status, Value()) == EnterNoBundle(old(Value()), p)
    {
      hide Force, Table.Value;
      status := ForceSafeOutputs(p);
      if status != OK { return; }
      state := NoBundleLoaded;
    }

    method DoStopApp(p: Profile) returns (status: u32)
      requires Valid()
      modifies this, table.slots
      ensures (status, Value()) == StopApp(old(Value()), p)
    {
      hide Force, Table.Value;
      status := ForceSafeOutputs(p);
      state := AppFaultStopped;
    }

    method DoGpioSet(p: Profile, req: seq<byte>) returns (status: u32)
      requires Valid()
      modifies table.slots
      ensures (status, Value()) == GpioSet(old(Value()), p, req)
    {
      hide FindU32, RequestedLevel, Set, Table.Value;
      var id := FindU32(req, KEY_RESOURCE_ID);
      if id.Err? { return ERR_BAD_ENCODING; }
      var value := RequestedLevel(req);
      if value.Err? { return value.status; }
      if id.value != RELAY_1 && id.value != STATUS_LED { return ERR_INVALID_RESOURCE; }
      if value.value > 1 { return ERR_BAD_ENCODING; }
      status := OK;
      if hooked {
        var k := LineOf(p.gpio, id.value, 0);
        if id.value == 0 || k == |p.gpio| || p.gpio[k].mode != Output { return ERR_INVALID_RESOURCE; }
        status := table.SetState(id.value, value.value);
      }
    }

    method Dispatch(p: Profile, op: u32, req: seq<byte>, v: Verdict) returns (outcome: Outcome)
      requires Valid()
      modifies table.slots
      ensures (outcome, Value()) == HostCall(old(Value()), p, op, req, v)
    {
      hide GpioSet, IsEmptyOrMap, Table.Value;
      if !Supported(op) { return Refused(ERR_UNSUPPORTED_OPCODE); }
      if v.sizes != OK { return Refused(v.sizes); }
      if !IsEmptyOrMap(req) { return Refused(ERR_BAD_ENCODING); }
      var (status, decision) := Authorize(Value(), op, v);
      if status != OK { return Refused(status); }
      if decision != OK { return Denied(decision); }
      outcome := Answered(OK);
      if op == OP_GPIO_SET {
        var st := DoGpioSet(p, req);
        outcome := Answered(st);
      }
    }
  }
}
