/** The boot orchestration over the journal: updates, boots and power cuts, as whole runs. */
module BootProtocol {
  import opened Words
  import opened Status
  import opened BundleMetadata
  import opened Activation
  import opened SlotInvariant
  import opened Journal

  // ---- what a session does to the outside

  datatype Action =
    | Persist(m: Metadata, fate: Fate)
    | GuestStart(slot: u32, probation: bool)

  datatype GuestRun = PowerLoss | Returned(status: u32)

  /** Everything that the outside decides during one boot. */
  datatype BootEnv = BootEnv(
    decisionWrite: Fate, powerLossBeforeGuest: bool, load: u32, payloadSha: Sha, extract: u32, authorize: u32,
    guest: GuestRun, outcomeWrite: Fate)

  /** The bundle in the slot has the payload that the block records for the slot. */
  predicate Matches(m: Metadata, slot: u32, env: BootEnv) {
    IsSlot(slot) && Record(m, slot).sha == env.payloadSha
  }

  /** Reading and verifying the bundle, then the comparison with the recorded payload hash, then finding the payload. */
  function LoadStatus(m: Metadata, slot: u32, env: BootEnv): u32 {
    if env.load != OK then env.load
    else if !Matches(m, slot, env) then ERR_CONTRACT_VIOLATION
    else env.extract
  }

  /** `fail_runtime`: only a candidate on probation is recorded as faulted. */
  function FailRuntime(m: Metadata, slot: u32, probation: bool, status: u32, fate: Fate): seq<Action> {
    if probation && slot != SLOT_NONE then
      var (st, m', _) := RecordFault(m, slot, status, Plain(NoBundle, OK));
      if st == OK then [Persist(m', fate)] else []
    else []
  }

  function Checks(p: Policy): u32 {
    if p.healthChecks != 0 then p.healthChecks else 1
  }

  function ConfirmActions(m: Metadata, slot: u32, checks: u32, fate: Fate): seq<Action> {
    var (st, m') := Confirm(m, slot, checks);
    if st == OK then [Persist(m', fate)] else []
  }

  /** What follows once the guest has started. */
  function AfterStart(m: Metadata, d: Decision, p: Policy, env: BootEnv): seq<Action> {
    match env.guest
    case PowerLoss => []
    case Returned(status) =>
      if status != OK then FailRuntime(m, d.slotToRun, d.probation, status, env.outcomeWrite)
      else if d.probation then ConfirmActions(m, d.slotToRun, Checks(p), env.outcomeWrite)
      else []
  }

  function RunGuest(m: Metadata, d: Decision, p: Policy, env: BootEnv): seq<Action> {
    [GuestStart(d.slotToRun, d.probation)] + AfterStart(m, d, p, env)
  }

  function RunSlot(m: Metadata, d: Decision, p: Policy, env: BootEnv): seq<Action> {
    if d.kind.NoBundle? || d.slotToRun == SLOT_NONE || env.powerLossBeforeGuest then []
    else if LoadStatus(m, d.slotToRun, env) != OK then
      FailRuntime(m, d.slotToRun, d.probation, LoadStatus(m, d.slotToRun, env), env.outcomeWrite)
    else if env.authorize != OK then []
    else RunGuest(m, d, p, env)
  }

  /** `wdc_app_boot_active_slot` on the metadata just read: the decision is stored before the guest runs. */
  function BootActions(m: Metadata, p: Policy, env: BootEnv): seq<Action> {
    var (status, m1, d) := OnBoot(m, p);
    if status != OK then []
    else if !d.changed then RunSlot(m1, d, p, env)
    else if env.decisionWrite.Complete? then [Persist(m1, Complete)] + RunSlot(m1, d, p, env)
    else [Persist(m1, env.decisionWrite)]
  }

  // ---- sessions

  /** A bundle offered for installation; `checks` is the verdict of every check but the counter check. */
  datatype Bundle = Bundle(checks: u32, payloadHashOk: bool, version: u32, counter: u64, sha: Sha)

  /** Verification under the policy built from the current metadata. */
  function VerifyUnder(m: Metadata, b: Bundle): VerifyResult {
    VerifyResult(if b.checks != OK then b.checks
                 else if b.counter >= SecurityFloor(m) then OK else ERR_CONTRACT_VIOLATION,
                 b.payloadHashOk, b.version, b.counter, b.sha)
  }

  datatype Edit = InstallBundle(slot: u32, bundle: Bundle) | PrepareSlot(slot: u32)

  function ApplyEdit(m: Metadata, e: Edit): Metadata {
    match e
    case InstallBundle(slot, bundle) => MarkVerified(m, slot, VerifyUnder(m, bundle)).1
    case PrepareSlot(slot) => PreparePending(m, slot).1
  }

  function ApplyEdits(m: Metadata, es: seq<Edit>): Metadata
    decreases |es|
  {
    if es == [] then m else ApplyEdits(ApplyEdit(m, es[0]), es[1..])
  }

  predicate EditDisciplined(m: Metadata, e: Edit) {
    e.InstallBundle? ==> e.slot != m.active && e.slot != m.lastGood
  }

  predicate EditsDisciplined(m: Metadata, es: seq<Edit>)
    decreases |es|
  {
    es == [] || (EditDisciplined(m, es[0]) && EditsDisciplined(ApplyEdit(m, es[0]), es[1..]))
  }

  /** A slot is armed when one of the edits marks it as the new candidate. */
  predicate Arms(m: Metadata, es: seq<Edit>, slot: u32)
    decreases |es|
  {
    es != [] &&
    ((es[0].PrepareSlot? && es[0].slot == slot && PreparePending(m, slot).0 == OK)
     || Arms(ApplyEdit(m, es[0]), es[1..], slot))
  }

  /** Each session starts from the metadata that the journal returns. */
  datatype Session = Update(edits: seq<Edit>, fate: Fate) | BootUp(policy: Policy, env: BootEnv)

  function SessionActions(m: Metadata, s: Session): seq<Action> {
    match s
    case Update(edits, fate) => [Persist(ApplyEdits(m, edits), fate)]
    case BootUp(policy, env) => BootActions(m, policy, env)
  }

  // ---- effects: on the journal, on an ideal cell, and on the trial counters

  function OnFlash(f: Flash, acts: seq<Action>): Flash
    decreases |acts|
  {
    if acts == [] then f
    else OnFlash(if acts[0].Persist? then Write(f, acts[0].m, acts[0].fate).1 else f, acts[1..])
  }

  /** A cell that a finished write replaces and an unfinished one leaves alone. */
  function OnCell(m: Metadata, acts: seq<Action>): Metadata
    decreases |acts|
  {
    if acts == [] then m
    else OnCell(if acts[0].Persist? && Landed(acts[0].fate) then Seal(acts[0].m) else m, acts[1..])
  }

  /** Probation runs of each slot since it was last armed. */
  datatype Trials = Trials(a: nat, b: nat)

  function CountStarts(acts: seq<Action>, slot: u32): nat
    decreases |acts|
  {
    if acts == [] then 0
    else (if acts[0] == GuestStart(slot, true) then 1 else 0) + CountStarts(acts[1..], slot)
  }

  function AfterSession(f: Flash, s: Session): Flash {
    OnFlash(f, SessionActions(Read(f), s))
  }

  /** The session leaves the slot on flash as a new candidate. */
  predicate Rearms(f: Flash, s: Session, slot: u32) {
    s.Update? && Arms(Read(f), s.edits, slot) && Read(AfterSession(f, s)) == ApplyEdits(Read(f), s.edits)
  }

  function Counted(f: Flash, n: nat, s: Session, slot: u32): nat {
    if Rearms(f, s, slot) then 0 else n + CountStarts(SessionActions(Read(f), s), slot)
  }

  datatype Device = Device(flash: Flash, trials: Trials)

  function NextDevice(d: Device, s: Session): Device {
    Device(AfterSession(d.flash, s),
           Trials(Counted(d.flash, d.trials.a, s, SLOT_A), Counted(d.flash, d.trials.b, s, SLOT_B)))
  }

  function RunDevice(d: Device, ss: seq<Session>): Device
    decreases |ss|
  {
    if ss == [] then d else RunDevice(NextDevice(d, ss[0]), ss[1..])
  }
}
