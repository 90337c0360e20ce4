/** The host tool's own slot machine over its JSON metadata, and how far it behaves like the firmware's. */
module HostTool {
  import opened Words
  import opened Status
  import opened BundleMetadata
  import opened Activation
  import opened SlotInvariant

  /** The three keys that the metadata file holds for each slot; slots and states use the firmware's codes. */
  datatype SlotKeys = SlotKeys(state: u32, version: int, counter: int)

  datatype Meta = Meta(
    active: u32, lastGood: u32, a: SlotKeys, b: SlotKeys,
    boots: int, faults: int, reason: int, generation: int)

  const DEFAULT_META := Meta(SLOT_NONE, SLOT_NONE, SlotKeys(EMPTY, 0, 0), SlotKeys(EMPTY, 0, 0), 0, 0, 0, 0)

  datatype Verdict = RunActive | BootPending | RolledBack | CandidateFailed | NoBundleFound

  datatype BootReport = BootReport(verdict: Verdict, selected: u32, failed: u32, probation: bool)

  function Keys(t: Meta, slot: u32): SlotKeys
    requires IsSlot(slot)
  {
    if slot == SLOT_A then t.a else t.b
  }

  function PutState(t: Meta, slot: u32, state: u32): Meta
    requires IsSlot(slot)
  {
    if slot == SLOT_A then t.(a := t.a.(state := state)) else t.(b := t.b.(state := state))
  }

  function Other(slot: u32): u32 {
    if slot == SLOT_A then SLOT_B else SLOT_A
  }

  predicate IsConfirmed(t: Meta, slot: u32) {
    IsSlot(slot) && Keys(t, slot).state == CONFIRMED
  }

  function ChooseFallback(t: Meta, failed: u32): u32 {
    if t.lastGood != failed && IsConfirmed(t, t.lastGood) then t.lastGood
    else if IsSlot(failed) && IsConfirmed(t, Other(failed)) then Other(failed)
    else if IsConfirmed(t, SLOT_A) then SLOT_A
    else if IsConfirmed(t, SLOT_B) then SLOT_B
    else SLOT_NONE
  }

  /** The fallback is a confirmed slot whenever there is one: the last good slot before the others, and the slot that
    * failed only when no other is left. */
  lemma FallbackChosen(t: Meta, failed: u32)
    ensures var slot := ChooseFallback(t, failed);
            && (slot == SLOT_NONE <==> !IsConfirmed(t, SLOT_A) && !IsConfirmed(t, SLOT_B))
            && (slot != SLOT_NONE ==> IsConfirmed(t, slot))
            && (IsConfirmed(t, t.lastGood) && t.lastGood != failed ==> slot == t.lastGood)
            && (slot == failed && IsSlot(failed) ==> !IsConfirmed(t, Other(failed)))
            && (slot == SLOT_B && !IsSlot(failed) && t.lastGood != SLOT_B ==> !IsConfirmed(t, SLOT_A))
  {
  }

  function Saved(t: Meta): Meta {
    t.(generation := t.generation + 1)
  }

  function Installed(t: Meta, slot: u32, pass: bool, version: int, counter: int): Meta {
    if !IsSlot(slot) || !pass then t
    else Saved(if slot == SLOT_A then t.(a := SlotKeys(VERIFIED, version, counter))
               else t.(b := SlotKeys(VERIFIED, version, counter)))
  }

  function Activated(t: Meta, slot: u32): Meta {
    if !IsSlot(slot) || (Keys(t, slot).state != VERIFIED && Keys(t, slot).state != CONFIRMED) then t
    else
      var fallback := ChooseFallback(t, slot);
      var t1 := if IsSlot(fallback) then t.(lastGood := fallback) else t;
      var t2 := if Keys(t, slot).state == VERIFIED then PutState(t1, slot, PENDING) else t1;
      Saved(t2.(active := slot, boots := 0, faults := 0, reason := 0))
  }

  /** A candidate is given up: what boot and fail have in common. */
  function GivenUp(t: Meta, slot: u32, reason: int): Meta
    requires IsSlot(slot)
  {
    var t1 := PutState(t, slot, FAILED).(boots := 0, faults := t.faults + 1, reason := reason);
    var fallback := ChooseFallback(t1, slot);
    Saved(t1.(active := fallback, lastGood := if fallback != SLOT_NONE then fallback else t1.lastGood))
  }

  function GivenUpReport(t: Meta, slot: u32): BootReport {
    BootReport(if t.active != SLOT_NONE then RolledBack else CandidateFailed, t.active, slot, false)
  }

  function Booted(t: Meta, maxBoots: int, writeNoBundle: bool): (Meta, BootReport) {
    var state := if IsSlot(t.active) then Keys(t, t.active).state else EMPTY;
    if state == CONFIRMED then
      (if t.lastGood != t.active then Saved(t.(lastGood := t.active)) else t,
       BootReport(RunActive, t.active, SLOT_NONE, false))
    else if state == PENDING && t.boots < maxBoots then
      (Saved(PutState(t, t.active, RUNNING_PENDING).(boots := t.boots + 1)),
       BootReport(BootPending, t.active, SLOT_NONE, true))
    else if state == PENDING || state == RUNNING_PENDING then
      var t' := GivenUp(t, t.active, if state == PENDING then -11 else -18);
      (t', GivenUpReport(t', t.active))
    else
      var fallback := ChooseFallback(t, SLOT_NONE);
      if IsSlot(fallback) then
        (Saved(t.(active := fallback, lastGood := fallback)), BootReport(RolledBack, fallback, SLOT_NONE, false))
      else
        (if writeNoBundle then Saved(t.(active := SLOT_NONE)) else t,
         BootReport(NoBundleFound, SLOT_NONE, SLOT_NONE, false))
  }

  function Accepted(t: Meta, slot: u32): Meta {
    if !IsSlot(slot) || t.active != slot
       || Keys(t, slot).state !in {PENDING, RUNNING_PENDING, CONFIRMED} then t
    else
      Saved(PutState(t, slot, CONFIRMED).(lastGood := slot, boots := 0, faults := 0, reason := 0))
  }

  function Rejected(t: Meta, slot: u32, reason: int): Meta {
    if IsSlot(slot) then GivenUp(t, slot, reason) else t
  }

  // ---- the commands, on the loaded dictionary

  class MetaFile {
    var active: u32
    var lastGood: u32
    var a: SlotKeys
    var b: SlotKeys
    var boots: int
    var faults: int
    var reason: int
    var generation: int

    function Value(): Meta
      reads this
    {
      Meta(active, lastGood, a, b, boots, faults, reason, generation)
    }

    constructor ()
      ensures Value() == DEFAULT_META
    {
      active, lastGood := SLOT_NONE, SLOT_NONE;
      a, b := SlotKeys(EMPTY, 0, 0), SlotKeys(EMPTY, 0, 0);
      boots, faults, reason, generation := 0, 0, 0, 0;
    }

    method Put(slot: u32, state: u32)
      requires IsSlot(slot)
      modifies `a, `b
      ensures Value() == PutState(old(Value()), slot, state)
    {
      if slot == SLOT_A { a := a.(state := state); } else { b := b.(state := state); }
    }

    method Save()
      modifies `generation
      ensures Value() == Saved(old(Value()))
    {
      generation := generation + 1;
    }

    method Install(slot: u32, pass: bool, version: int, counter: int)
      modifies this
      ensures Value() == Installed(old(Value()), slot, pass, version, counter)
    {
      if !IsSlot(slot) || !pass { return; }
      Put(slot, VERIFIED);
      if slot == SLOT_A {
        a := a.(version := version, counter := counter);
      } else {
        b := b.(version := version, counter := counter);
      }
      Save();
    }

    method Activate(slot: u32)
      modifies this
      ensures Value() == Activated(old(Value()), slot)
    {
      if !IsSlot(slot) { return; }
      var state := Keys(Value(), slot).state;
      if state != VERIFIED && state != CONFIRMED { return; }
      var fallback := ChooseFallback(Value(), slot);
      if IsSlot(fallback) { lastGood := fallback; }
      if state == VERIFIED { Put(slot, PENDING); }
      active := slot;
      boots, faults, reason := 0, 0, 0;
      Save();
    }

    method Drop(slot: u32, why: int) returns (report: BootReport)
      requires IsSlot(slot)
      modifies this
      ensures Value() == GivenUp(old(Value()), slot, why) && report == GivenUpReport(Value(), slot)
    {
      Put(slot, FAILED);
      boots := 0;
      faults := faults + 1;
      reason := why;
      var fallback := ChooseFallback(Value(), slot);
      active := fallback;
      if fallback != SLOT_NONE { lastGood := fallback; }
      Save();
      report := BootReport(if fallback != SLOT_NONE then RolledBack else CandidateFailed, fallback, slot, false);
    }

    method Boot(maxBoots: int, writeNoBundle: bool) returns (report: BootReport)
      modifies this
      ensures (Value(), report) == Booted(old(Value()), maxBoots, writeNoBundle)
    {
      report := BootReport(NoBundleFound, SLOT_NONE, SLOT_NONE, false);
      var changed := false;
      if IsSlot(active) {
        var state := Keys(Value(), active).state;
        if state == CONFIRMED {
          report := BootReport(RunActive, active, SLOT_NONE, false);
          if lastGood != active { lastGood := active; changed := true; }
        } else if state == PENDING {
          if boots >= maxBoots {
            report := Drop(active, -11);
            return;
          }
          boots := boots + 1;
          Put(active, RUNNING_PENDING);
          report := BootReport(BootPending, active, SLOT_NONE, true);
          changed := true;
        } else if state == RUNNING_PENDING {
          report := Drop(active, -18);
          return;
        }
      }
      if report.verdict == NoBundleFound {
        var fallback := ChooseFallback(Value(), SLOT_NONE);
        if IsSlot(fallback) {
          active, lastGood := fallback, fallback;
          report := BootReport(RolledBack, fallback, SLOT_NONE, false);
          changed := true;
        } else if writeNoBundle {
          active := SLOT_NONE;
          changed := true;
        }
      }
      if changed { Save(); }
    }

    method Confirm(slot: u32)
      modifies this
      ensures Value() == Accepted(old(Value()), slot)
    {
      if !IsSlot(slot) { return; }
      var state := Keys(Value(), slot).state;
      if active != slot || state !in {PENDING, RUNNING_PENDING, CONFIRMED} { return; }
      Put(slot, CONFIRMED);
      active := slot;
      lastGood := slot;
      boots, faults, reason := 0, 0, 0;
      Save();
    }

    method Fail(slot: u32, why: int)
      modifies this
      ensures Value() == Rejected(old(Value()), slot, why)
    {
      if !IsSlot(slot) { return; }
      var report := Drop(slot, why);
    }
  }

  // ---- the two machines side by side

  predicate SameSlot(r: SlotRecord, k: SlotKeys) {
    r.state == k.state && r.version == k.version && r.counter == k.counter
  }

  /** Same active slot, same last good slot, same slots. */
  predicate Agree(m: Metadata, t: Meta) {
    m.active == t.active && m.lastGood == t.lastGood && SameSlot(m.a, t.a) && SameSlot(m.b, t.b)
  }

  /** The tool keeps no attempt on record for a candidate that has not run. */
  predicate Fresh(t: Meta) {
    IsSlot(t.active) && Keys(t, t.active).state == PENDING ==> t.boots == 0
  }

  /** A 32-bit status word as the signed number that the tool stores. */
  function Signed(w: u32): int {
    if w < 0x8000_0000 then w else w - 0x1_0000_0000
  }

  function ApplyTool(t: Meta, op: Op): Meta {
    match op
    case Install(slot, v) => Installed(t, slot, v.status == OK && v.payloadHashOk, v.version, v.counter)
    case Prepare(slot) => Activated(t, slot)
    case Boot(policy) => Booted(t, policy.maxBoots, false).0
    case ConfirmSlot(slot, _) => Accepted(t, slot)
    case Fault(slot, reason) => Rejected(t, slot, Signed(reason))
  }

  predicate Candidate(m: Metadata, slot: u32) {
    InState(m, slot, PENDING) || InState(m, slot, RUNNING_PENDING)
  }

  /** Exactly the calls on which the two machines do the same to the slots. */
  predicate Shared(m: Metadata, op: Op) {
    match op
    case Install(_, _) => true
    case Prepare(slot) =>
      InState(m, slot, CONFIRMED) ==> m.active == slot && !InState(m, Other(slot), CONFIRMED)
    case Boot(p) =>
      && (InState(m, m.active, PENDING) ==> p.maxBoots != 0)
      && (InState(m, m.active, RUNNING_PENDING) ==> p.failRunning)
    case ConfirmSlot(slot, checks) =>
      checks == 0 ==> !(m.active == slot && Candidate(m, slot))
    case Fault(slot, _) =>
      IsSlot(slot) ==> Candidate(m, slot) || (InState(m, slot, FAILED) && m.active == m.lastGood)
  }

  lemma FallbackAgrees(m: Metadata, t: Meta, failed: u32)
    requires Sound(m) && Agree(m, t) && !InState(m, failed, CONFIRMED)
    ensures ChooseFallback(t, failed) == m.lastGood
  {
    hide Valid;
  }

  lemma GivenUpAgrees(m: Metadata, t: Meta, slot: u32, reason: u32, why: int)
    requires Sound(m) && Agree(m, t) && Candidate(m, slot)
    ensures Agree(Rollback(m, slot, reason).0, GivenUp(t, slot, why))
  {
    RollbackFields(m, slot, reason);
    RollbackSound(m, slot, reason);
    hide Rollback, Validate;
  }

  lemma InstallAgrees(m: Metadata, t: Meta, slot: u32, v: VerifyResult)
    requires Agree(m, t)
    ensures Agree(Apply(m, Install(slot, v)), ApplyTool(t, Install(slot, v)))
  {
    hide BundleMetadata.Checksum;
  }

  lemma PrepareAgrees(m: Metadata, t: Meta, slot: u32)
    requires Sound(m) && Agree(m, t)
    ensures Agree(Apply(m, Prepare(slot)), ApplyTool(t, Prepare(slot))) <==> Shared(m, Prepare(slot))
  {
    if InState(m, slot, VERIFIED) {
      FallbackAgrees(m, t, slot);
    }
    hide BundleMetadata.Checksum, Validate;
  }

  lemma ConfirmAgrees(m: Metadata, t: Meta, slot: u32, checks: u32)
    requires Sound(m) && Agree(m, t)
    ensures Agree(Apply(m, ConfirmSlot(slot, checks)), ApplyTool(t, ConfirmSlot(slot, checks)))
            <==> Shared(m, ConfirmSlot(slot, checks))
  {
    hide BundleMetadata.Checksum, Validate;
  }

  lemma FaultAgrees(m: Metadata, t: Meta, slot: u32, reason: u32)
    requires Sound(m) && Agree(m, t)
    ensures Agree(Apply(m, Fault(slot, reason)), ApplyTool(t, Fault(slot, reason))) <==> Shared(m, Fault(slot, reason))
  {
    if Candidate(m, slot) {
      GivenUpAgrees(m, t, slot, reason, Signed(reason));
    } else if IsSlot(slot) {
      assert RecordFault(m, slot, reason, Plain(NoBundle, OK)).1 == m;
    }
    hide Rollback, Validate;
  }

  /** The tool's wording for each of the firmware's decisions. */
  function Wording(kind: Kind): Verdict {
    match kind
    case NoBundle => NoBundleFound
    case RunConfirmed => RunActive
    case RunCandidate => BootPending
    case RollbackToLastGood => RolledBack
    case FaultNoFallback => CandidateFailed
  }

  /** A shared boot also selects the same slot, for the same reason, with the same probation. */
  lemma BootAgrees(m: Metadata, t: Meta, p: Policy)
    requires Sound(m) && Agree(m, t) && Fresh(t)
    ensures Agree(Apply(m, Boot(p)), ApplyTool(t, Boot(p))) <==> Shared(m, Boot(p))
    ensures Shared(m, Boot(p)) ==>
              var (_, _, d) := OnBoot(m, p);
              var (_, report) := Booted(t, p.maxBoots, false);
              && report.selected == d.slotToRun && report.probation == d.probation
              && report.verdict == Wording(d.kind)
  {
    if InState(m, m.active, PENDING) {
      BootPendingAgrees(m, t, p);
    } else if InState(m, m.active, RUNNING_PENDING) {
      BootRunningAgrees(m, t, p);
    } else {
      BootSettled(m, p);
      if m.active == SLOT_NONE {
        FallbackAgrees(m, t, SLOT_NONE);
      }
      hide BundleMetadata.Checksum, Validate, Rollback;
    }
  }

  predicate BootShared(m: Metadata, t: Meta, p: Policy) {
    var (_, m', d) := OnBoot(m, p);
    var (t', report) := Booted(t, p.maxBoots, false);
    && (Agree(m', t') <==> Shared(m, Boot(p)))
    && (Shared(m, Boot(p)) ==>
          report.selected == d.slotToRun && report.probation == d.probation && report.verdict == Wording(d.kind))
  }

  lemma BootPendingAgrees(m: Metadata, t: Meta, p: Policy)
    requires Sound(m) && Agree(m, t) && Fresh(t) && InState(m, m.active, PENDING)
    ensures BootShared(m, t, p)
  {
    BumpFields(WithState(m, m.active, RUNNING_PENDING).(boots := 1));
    hide Bump, Validate, Rollback;
  }

  lemma BootRunningAgrees(m: Metadata, t: Meta, p: Policy)
    requires Sound(m) && Agree(m, t) && InState(m, m.active, RUNNING_PENDING)
    ensures BootShared(m, t, p)
  {
    GivenUpAgrees(m, t, m.active, ERR_NOT_SYNCHRONIZED, -18);
    RollbackFields(m, m.active, ERR_NOT_SYNCHRONIZED);
    hide Validate, Rollback;
  }

  lemma FreshKept(t: Meta, op: Op)
    requires Fresh(t)
    ensures Fresh(ApplyTool(t, op))
  {
  }

  /** For every call, the two machines stay together exactly on the shared calls. */
  lemma StepAgrees(m: Metadata, t: Meta, op: Op)
    requires Sound(m) && Agree(m, t) && Fresh(t)
    ensures Agree(Apply(m, op), ApplyTool(t, op)) <==> Shared(m, op)
  {
    match op
    case Install(slot, v) => InstallAgrees(m, t, slot, v);
    case Prepare(slot) => PrepareAgrees(m, t, slot);
    case Boot(p) => BootAgrees(m, t, p);
    case ConfirmSlot(slot, checks) => ConfirmAgrees(m, t, slot, checks);
    case Fault(slot, reason) => FaultAgrees(m, t, slot, reason);
  }

  function RunTool(t: Meta, ops: seq<Op>): Meta
    decreases |ops|
  {
    if ops == [] then t else RunTool(ApplyTool(t, ops[0]), ops[1..])
  }

  predicate SharedRun(m: Metadata, ops: seq<Op>)
    decreases |ops|
  {
    ops == [] || (Shared(m, ops[0]) && SharedRun(Apply(m, ops[0]), ops[1..]))
  }

  /** Over every run of shared calls the firmware and the tool hold the same slots. */
  lemma {:induction false} RunAgrees(m: Metadata, t: Meta, ops: seq<Op>)
    requires Sound(m) && Agree(m, t) && Fresh(t) && DisciplinedRun(m, ops) && SharedRun(m, ops)
    ensures Sound(Run(m, ops)) && Agree(Run(m, ops), RunTool(t, ops)) && Fresh(RunTool(t, ops))
    decreases |ops|
  {
    if ops != [] {
      StepAgrees(m, t, ops[0]);
      FreshKept(t, ops[0]);
      ApplySound(m, ops[0]);
      hide Sound, Apply, ApplyTool, Shared, Disciplined, Agree, Fresh;
      RunAgrees(Apply(m, ops[0]), ApplyTool(t, ops[0]), ops[1..]);
    }
  }

  /** From the factory state, after any such run, both would boot the same slot. */
  lemma SameSelection(ops: seq<Op>, p: Policy)
    requires DisciplinedRun(Init(), ops) && SharedRun(Init(), ops)
    requires Shared(Run(Init(), ops), Boot(p))
    ensures var (_, m, d) := OnBoot(Run(Init(), ops), p);
            var (t, report) := Booted(RunTool(DEFAULT_META, ops), p.maxBoots, false);
            && Agree(m, t) && report.selected == d.slotToRun && report.probation == d.probation
            && report.verdict == Wording(d.kind)
  {
    InitSound();
    InitAgrees();
    hide Init, OnBoot, Booted, Sound, Agree, Fresh, Shared, Run, RunTool, DisciplinedRun, SharedRun;
    RunAgrees(Init(), DEFAULT_META, ops);
    BootAgrees(Run(Init(), ops), RunTool(DEFAULT_META, ops), p);
  }

  lemma InitAgrees()
    ensures Agree(Init(), DEFAULT_META) && Fresh(DEFAULT_META)
  {
    hide BundleMetadata.Checksum;
  }
}
