/** What every run of the slot state machine keeps, and how fast consecutive boots settle. */
module SlotInvariant {
  import opened Words
  import opened Status
  import opened BundleMetadata
  import opened Activation

  /** The shape that every disciplined run keeps. */
  predicate SlotInv(m: Metadata) {
    && (m.active == SLOT_NONE || Runnable(m, m.active))
    && (m.lastGood == SLOT_NONE || InState(m, m.lastGood, CONFIRMED))
    && (InState(m, m.active, CONFIRMED) ==> m.lastGood == m.active)
    && (m.active == SLOT_NONE ==> m.lastGood == SLOT_NONE)
    && (m.lastGood == SLOT_NONE ==> m.a.state != CONFIRMED && m.b.state != CONFIRMED)
    && (InState(m, m.active, PENDING) ==> m.boots == 0)
  }

  predicate Sound(m: Metadata) {
    Valid(m) && SlotInv(m)
  }

  datatype Op =
    | Install(slot: u32, result: VerifyResult)
    | Prepare(slot: u32)
    | Boot(policy: Policy)
    | ConfirmSlot(slot: u32, checks: u32)
    | Fault(slot: u32, reason: u32)

  function Apply(m: Metadata, op: Op): Metadata {
    match op
    case Install(slot, result) => MarkVerified(m, slot, result).1
    case Prepare(slot) => PreparePending(m, slot).1
    case Boot(policy) => OnBoot(m, policy).1
    case ConfirmSlot(slot, checks) => Confirm(m, slot, checks).1
    case Fault(slot, reason) => RecordFault(m, slot, reason, Plain(NoBundle, OK)).1
  }

  /** Bundles are only installed into a slot that is neither active nor last good. */
  predicate Disciplined(m: Metadata, op: Op) {
    op.Install? ==> op.slot != m.active && op.slot != m.lastGood
  }

  function Run(m: Metadata, ops: seq<Op>): Metadata
    decreases |ops|
  {
    if ops == [] then m else Run(Apply(m, ops[0]), ops[1..])
  }

  predicate DisciplinedRun(m: Metadata, ops: seq<Op>)
    decreases |ops|
  {
    ops == [] || (Disciplined(m, ops[0]) && DisciplinedRun(Apply(m, ops[0]), ops[1..]))
  }

  lemma BumpFields(m: Metadata)
    ensures Bump(m) == m.(generation := Next(m.generation), crc := Bump(m).crc)
    ensures m.magic == MAGIC && m.version == VERSION ==> Valid(Bump(m))
  {
    SealFields(m.(generation := Next(m.generation)));
    hide Seal, Validate;
  }

  lemma SealFields(m: Metadata)
    ensures Seal(m) == m.(crc := Seal(m).crc)
    ensures m.magic == MAGIC && m.version == VERSION ==> Valid(Seal(m))
  {
    if m.magic == MAGIC && m.version == VERSION {
      SealIsValid(m);
    }
    hide Checksum, Validate;
  }

  lemma InitSound()
    ensures Sound(Init())
  {
    SealFields(Metadata(MAGIC, VERSION, 0, SLOT_NONE, SLOT_NONE, BLANK_SLOT, BLANK_SLOT, 0, 0, 0, 0, 0, 0));
    hide Bump, Seal, Validate;
  }

  /** A rollback in plain terms. */
  lemma RollbackFields(m: Metadata, failed: u32, reason: u32)
    requires Valid(m)
    ensures var (m', d) := Rollback(m, failed, reason);
            && Valid(m')
            && m'.a == (if failed == SLOT_A then m.a.(state := FAILED) else m.a)
            && m'.b == (if failed == SLOT_B then m.b.(state := FAILED) else m.b)
            && m'.lastGood == m.lastGood && m'.boots == m.boots
            && m'.generation == Next(m.generation) && m'.reason == reason
            && m'.active == (if FallbackValid(m') then m.lastGood else SLOT_NONE)
            && d.kind == (if FallbackValid(m') then RollbackToLastGood else FaultNoFallback)
            && d.slotToRun == m'.active && !d.probation && d.changed
  {
    hide Bump, Seal, Checksum, Valid;
    assert m.magic == MAGIC && m.version == VERSION by { ValidIsSealed(m); }
    var m1 := if IsSlot(failed) then WithState(m, failed, FAILED) else m;
    var m2 := m1.(faults := Next(m1.faults), reason := reason);
    BumpFields(m2.(active := m2.lastGood));
    BumpFields(m2.(active := SLOT_NONE));
  }

  lemma RollbackSound(m: Metadata, failed: u32, reason: u32)
    requires Sound(m)
    requires InState(m, failed, PENDING) || InState(m, failed, RUNNING_PENDING)
    ensures Sound(Rollback(m, failed, reason).0)
    ensures Rollback(m, failed, reason).0.lastGood == m.lastGood
  {
    RollbackFields(m, failed, reason);
    hide Rollback, Validate;
  }

  lemma InstallSound(m: Metadata, slot: u32, v: VerifyResult)
    requires Sound(m)
    requires v.status == OK && v.payloadHashOk && IsSlot(slot)
    ensures Sound(MarkVerified(m, slot, v).1) <==> slot != m.active && slot != m.lastGood
    ensures MarkVerified(m, slot, v).1.lastGood == m.lastGood
  {
    SealFields(WithRecord(m, slot, SlotRecord(VERIFIED, v.version, v.counter, v.sha))
               .(generation := Next(m.generation)));
    hide Bump, Seal, Validate;
  }

  lemma PrepareSound(m: Metadata, slot: u32)
    requires Sound(m)
    ensures Sound(PreparePending(m, slot).1)
    ensures PreparePending(m, slot).1.lastGood == m.lastGood
  {
    if IsSlot(slot) && Record(m, slot).state == VERIFIED {
      var m1 := if m.active != SLOT_NONE && InState(m, m.active, CONFIRMED) then m.(lastGood := m.active) else m;
      BumpFields(WithState(m1, slot, PENDING).(active := slot, boots := 0, faults := 0, reason := OK));
    }
    hide Bump, Seal, Validate;
  }

  /** What a boot runs is recorded in the block it leaves: a candidate on probation, or a confirmed slot. */
  predicate RunsRecorded(m: Metadata, d: Decision) {
    d.slotToRun != SLOT_NONE ==> InState(m, d.slotToRun, if d.probation then RUNNING_PENDING else CONFIRMED)
  }

  /** What a boot keeps, and what it promises once a last good slot is known. */
  predicate BootKeeps(m: Metadata, p: Policy) {
    var (status, m', d) := OnBoot(m, p);
    && status == OK && Sound(m') && m'.lastGood == m.lastGood && RunsRecorded(m', d)
    && (m.lastGood != SLOT_NONE ==>
          !d.kind.NoBundle? && !d.kind.FaultNoFallback? && IsSlot(d.slotToRun))
  }

  lemma BootSettled(m: Metadata, p: Policy)
    requires Sound(m) && (m.active == SLOT_NONE || InState(m, m.active, CONFIRMED))
    ensures BootKeeps(m, p) && OnBoot(m, p).1 == m
  {
    hide Bump, Rollback, Validate;
  }

  lemma BootPending(m: Metadata, p: Policy)
    requires Sound(m) && InState(m, m.active, PENDING)
    ensures BootKeeps(m, p)
    ensures OnBoot(m, p).1 == Bump(WithState(m, m.active, RUNNING_PENDING).(boots := 1))
  {
    BumpFields(WithState(m, m.active, RUNNING_PENDING).(boots := 1));
    hide Bump, Rollback, Validate;
  }

  lemma BootRunning(m: Metadata, p: Policy)
    requires Sound(m) && InState(m, m.active, RUNNING_PENDING)
    ensures BootKeeps(m, p)
  {
    RollbackSound(m, m.active, ERR_NOT_SYNCHRONIZED);
    RollbackFields(m, m.active, ERR_NOT_SYNCHRONIZED);
    hide Bump, Rollback, Validate;
  }

  lemma BootSound(m: Metadata, p: Policy)
    requires Sound(m)
    ensures BootKeeps(m, p)
  {
    hide OnBoot, Validate;
    if m.active == SLOT_NONE || InState(m, m.active, CONFIRMED) {
      BootSettled(m, p);
    } else if InState(m, m.active, PENDING) {
      BootPending(m, p);
    } else {
      BootRunning(m, p);
    }
  }

  lemma ConfirmSound(m: Metadata, slot: u32, checks: u32)
    requires Sound(m)
    ensures Sound(Confirm(m, slot, checks).1)
    ensures m.lastGood != SLOT_NONE ==> Confirm(m, slot, checks).1.lastGood != SLOT_NONE
  {
    if IsSlot(slot) {
      BumpFields(WithState(m, slot, CONFIRMED)
                 .(active := slot, lastGood := slot, boots := 0, faults := 0, reason := OK));
    }
    hide Bump, Seal, Validate;
  }

  /** Every operation keeps the shape, and a known last good slot is never forgotten. */
  lemma ApplySound(m: Metadata, op: Op)
    requires Sound(m) && Disciplined(m, op)
    ensures Sound(Apply(m, op))
    ensures m.lastGood != SLOT_NONE ==> Apply(m, op).lastGood != SLOT_NONE
  {
    match op
    case Install(slot, result) =>
      if result.status == OK && result.payloadHashOk && IsSlot(slot) {
        InstallSound(m, slot, result);
      }
    case Prepare(slot) => PrepareSound(m, slot);
    case Boot(policy) => BootSound(m, policy);
    case ConfirmSlot(slot, checks) => ConfirmSound(m, slot, checks);
    case Fault(slot, reason) =>
      if InState(m, slot, PENDING) || InState(m, slot, RUNNING_PENDING) {
        RollbackSound(m, slot, reason);
      }
  }

  lemma {:induction false} RunSound(m: Metadata, ops: seq<Op>)
    requires Sound(m) && DisciplinedRun(m, ops)
    ensures Sound(Run(m, ops))
    ensures m.lastGood != SLOT_NONE ==> Run(m, ops).lastGood != SLOT_NONE
    decreases |ops|
  {
    if ops != [] {
      ApplySound(m, ops[0]);
      hide Apply, Sound;
      RunSound(Apply(m, ops[0]), ops[1..]);
    }
  }

  /** From the factory state, every disciplined run stays in shape. */
  lemma ReachableSound(ops: seq<Op>)
    requires DisciplinedRun(Init(), ops)
    ensures Sound(Run(Init(), ops))
  {
    InitSound();
    RunSound(Init(), ops);
  }

  lemma {:induction false} RunAppend(m: Metadata, first: seq<Op>, rest: seq<Op>)
    ensures Run(m, first + rest) == Run(Run(m, first), rest)
    ensures DisciplinedRun(m, first + rest) <==> DisciplinedRun(m, first) && DisciplinedRun(Run(m, first), rest)
    decreases |first|
  {
    if first == [] {
      assert first + rest == rest;
    } else {
      assert (first + rest)[1..] == first[1..] + rest;
      hide Apply;
      RunAppend(Apply(m, first[0]), first[1..], rest);
    }
  }

  /** Once some slot has been confirmed, no later boot of the run reports that there is nothing to run. */
  lemma NeverWithoutFallback(before: seq<Op>, after: seq<Op>, p: Policy)
    requires DisciplinedRun(Init(), before + after)
    requires Run(Init(), before).lastGood != SLOT_NONE
    ensures var m := Run(Init(), before + after);
            var d := OnBoot(m, p).2;
            && InState(m, m.lastGood, CONFIRMED)
            && !d.kind.NoBundle? && !d.kind.FaultNoFallback? && IsSlot(d.slotToRun)
  {
    RunAppend(Init(), before, after);
    ReachableSound(before);
    RunSound(Run(Init(), before), after);
    BootSound(Run(Init(), before + after), p);
    hide OnBoot, Init, Validate;
  }

  // ---- consecutive boots

  /** How many more boots can still change the block. */
  function Unsettled(m: Metadata): nat {
    if m.active == SLOT_NONE then if FallbackValid(m) then 1 else 0
    else if !IsSlot(m.active) then 1
    else if Record(m, m.active).state == CONFIRMED then if m.lastGood == m.active then 0 else 1
    else if Record(m, m.active).state == PENDING then 2
    else 1
  }

  lemma RollbackSettles(m: Metadata, failed: u32, reason: u32)
    requires Valid(m)
    ensures var (m', d) := Rollback(m, failed, reason);
            Unsettled(m') == 0 && Valid(m') && m'.generation == Next(m.generation) && d.changed
  {
    RollbackFields(m, failed, reason);
    hide Rollback, Validate;
  }

  /** The report that the block changed is exact, and a change always counts the generation up by one. */
  predicate ReportsChange(m: Metadata, p: Policy) {
    var (status, m', d) := OnBoot(m, p);
    && (d.changed <==> m' != m)
    && (d.changed ==> m'.generation == Next(m.generation) && Unsettled(m') < Unsettled(m))
    && (Valid(m) ==> Valid(m'))
    && (!Valid(m) ==> m' == m)
  }

  lemma CandidateReportsChange(m: Metadata, p: Policy)
    requires Valid(m) && InState(m, m.active, PENDING)
    ensures ReportsChange(m, p)
  {
    RollbackSettles(m, m.active, ERR_TIMEOUT);
    BumpFields(WithState(m, m.active, RUNNING_PENDING).(boots := Next(m.boots)));
    hide Bump, Rollback, Validate;
  }

  lemma ConfirmedReportsChange(m: Metadata, p: Policy)
    requires Valid(m) && (m.active == SLOT_NONE || InState(m, m.active, CONFIRMED))
    ensures ReportsChange(m, p)
  {
    assert m.magic == MAGIC && m.version == VERSION;
    BumpFields(m.(active := m.lastGood));
    BumpFields(m.(lastGood := m.active));
    hide Bump, Rollback, Validate;
  }

  lemma InvalidReportsChange(m: Metadata, p: Policy)
    requires !Valid(m)
    ensures ReportsChange(m, p)
  {
  }

  lemma RunningReportsChange(m: Metadata, p: Policy)
    requires Valid(m) && InState(m, m.active, RUNNING_PENDING)
    ensures ReportsChange(m, p)
  {
    RollbackSettles(m, m.active, ERR_NOT_SYNCHRONIZED);
    hide Bump, Rollback, Validate;
  }

  lemma OtherReportsChange(m: Metadata, p: Policy)
    requires Valid(m) && m.active != SLOT_NONE && !Runnable(m, m.active)
    ensures ReportsChange(m, p)
  {
    RollbackSettles(m, m.active, ERR_INVALID_RESOURCE);
    RollbackSettles(m, m.active, ERR_INVALID_STATE);
    hide Bump, Rollback, Validate;
  }

  lemma BootReportsChange(m: Metadata, p: Policy)
    ensures ReportsChange(m, p)
  {
    hide Validate, ReportsChange;
    if !Valid(m) {
      InvalidReportsChange(m, p);
    } else if m.active == SLOT_NONE || InState(m, m.active, CONFIRMED) {
      ConfirmedReportsChange(m, p);
    } else if InState(m, m.active, PENDING) {
      CandidateReportsChange(m, p);
    } else if InState(m, m.active, RUNNING_PENDING) {
      RunningReportsChange(m, p);
    } else {
      OtherReportsChange(m, p);
    }
  }

  function ChangingBoots(m: Metadata, policies: seq<Policy>): nat
    decreases |policies|
  {
    if policies == [] then 0
    else
      (if OnBoot(m, policies[0]).2.changed then 1 else 0) + ChangingBoots(OnBoot(m, policies[0]).1, policies[1..])
  }

  lemma {:induction false} ChangesBounded(m: Metadata, policies: seq<Policy>)
    ensures ChangingBoots(m, policies) <= Unsettled(m)
    decreases |policies|
  {
    if policies != [] {
      BootReportsChange(m, policies[0]);
      ChangesBounded(OnBoot(m, policies[0]).1, policies[1..]);
      hide OnBoot, Unsettled;
    }
  }

  /** However often the device boots in a row, and whatever policies it uses, at most two boots change the block. */
  lemma BootsConverge(m: Metadata, policies: seq<Policy>)
    ensures ChangingBoots(m, policies) <= 2
  {
    ChangesBounded(m, policies);
  }
}
