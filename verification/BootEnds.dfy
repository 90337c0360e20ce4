/** How a boot ends on flash: confirmed, failed or untouched, by what the guest and the power did. */
module BootEnds {
  import opened Words
  import opened Status
  import opened BundleMetadata
  import opened Activation
  import opened SlotInvariant
  import opened Journal
  import opened BootProtocol
  import opened BootSafety

  // ---- the two ends of a trial, in the terms of the block

  /** The slot that is not this one. */
  function OtherSlot(slot: u32): u32 {
    if slot == SLOT_A then SLOT_B else SLOT_A
  }

  /** The candidate failed for this reason, and the device falls back to the last good slot if that is confirmed. */
  predicate Failed(m: Metadata, slot: u32, reason: u32, m': Metadata)
    requires IsSlot(slot)
  {
    && Valid(m') && m'.generation == Next(m.generation)
    && Record(m', slot) == Record(m, slot).(state := FAILED)
    && Record(m', OtherSlot(slot)) == Record(m, OtherSlot(slot))
    && m'.lastGood == m.lastGood && m'.reason == reason && m'.faults == Next(m.faults) && m'.boots == m.boots
    && m'.active == if m.lastGood == OtherSlot(slot) && InState(m, m.lastGood, CONFIRMED) then m.lastGood else SLOT_NONE
  }

  /** The candidate is confirmed: active and last good, with its counters cleared. */
  predicate ConfirmedBy(m: Metadata, slot: u32, m': Metadata)
    requires IsSlot(slot)
  {
    && Valid(m') && m'.generation == Next(m.generation)
    && Record(m', slot) == Record(m, slot).(state := CONFIRMED)
    && Record(m', OtherSlot(slot)) == Record(m, OtherSlot(slot))
    && m'.lastGood == slot && m'.active == slot && m'.reason == OK && m'.faults == 0 && m'.boots == 0
  }

  lemma FaultFails(m: Metadata, slot: u32, status: u32)
    requires Valid(m) && InState(m, slot, RUNNING_PENDING)
    ensures var (st, m', _) := RecordFault(m, slot, status, Plain(NoBundle, OK));
            st == OK && Failed(m, slot, status, m')
  {
    RollbackFields(m, slot, status);
    FaultsCounted(m, slot, status);
    hide Rollback, Validate;
  }

  lemma FaultsCounted(m: Metadata, failed: u32, reason: u32)
    ensures Rollback(m, failed, reason).0.faults == Next(m.faults)
  {
    hide BundleMetadata.Checksum;
  }

  lemma ConfirmConfirms(m: Metadata, slot: u32, checks: u32)
    requires Valid(m) && m.active == slot && InState(m, slot, RUNNING_PENDING) && checks != 0
    ensures var (st, m') := Confirm(m, slot, checks);
            st == OK && ConfirmedBy(m, slot, m')
  {
    BumpFields(WithState(m, slot, CONFIRMED).(active := slot, lastGood := slot, boots := 0, faults := 0, reason := OK));
    hide Bump, Validate;
  }

  // ---- what a candidate's boot leaves on flash

  /** The block after a candidate's boot, once its decision is stored. */
  predicate TrialEnds(m1: Metadata, env: BootEnv, m': Metadata)
    requires IsSlot(m1.active)
  {
    if env.powerLossBeforeGuest || !Landed(env.outcomeWrite) then m' == m1
    else if env.load != OK then Failed(m1, m1.active, env.load, m')
    else if Record(m1, m1.active).sha != env.payloadSha then Failed(m1, m1.active, ERR_CONTRACT_VIOLATION, m')
    else if env.extract != OK then Failed(m1, m1.active, env.extract, m')
    else if env.authorize != OK || env.guest.PowerLoss? then m' == m1
    else if env.guest.status != OK then Failed(m1, m1.active, env.guest.status, m')
    else ConfirmedBy(m1, m1.active, m')
  }

  lemma OneWritten(m: Metadata, m1: Metadata, fate: Fate)
    requires Valid(m1)
    ensures OnCell(m, [Persist(m1, fate)]) == if Landed(fate) then m1 else m
    ensures OnCell(m, []) == m
  {
    SealIdempotent(m1);
    hide Seal, Validate;
    assert [Persist(m1, fate)][1..] == [];
  }

  lemma StartOnCell(m: Metadata, slot: u32, probation: bool, rest: seq<Action>)
    ensures OnCell(m, [GuestStart(slot, probation)] + rest) == OnCell(m, rest)
  {
    assert ([GuestStart(slot, probation)] + rest)[1..] == rest;
    hide Seal;
  }

  lemma DecisionOnCell(m: Metadata, m1: Metadata, rest: seq<Action>)
    requires Valid(m1)
    ensures OnCell(m, [Persist(m1, Complete)] + rest) == OnCell(m1, rest)
  {
    SealIdempotent(m1);
    assert ([Persist(m1, Complete)] + rest)[1..] == rest;
    hide Seal, Validate;
  }

  lemma FailureOnCell(m: Metadata, slot: u32, status: u32, fate: Fate)
    requires Valid(m) && InState(m, slot, RUNNING_PENDING)
    ensures var m' := OnCell(m, FailRuntime(m, slot, true, status, fate));
            if Landed(fate) then Failed(m, slot, status, m') else m' == m
  {
    FaultFails(m, slot, status);
    var m' := RecordFault(m, slot, status, Plain(NoBundle, OK)).1;
    OneWritten(m, m', fate);
    hide RecordFault, OnCell, Validate;
  }

  lemma ConfirmationOnCell(m: Metadata, checks: u32, fate: Fate)
    requires Valid(m) && InState(m, m.active, RUNNING_PENDING) && checks != 0
    ensures var m' := OnCell(m, ConfirmActions(m, m.active, checks, fate));
            if Landed(fate) then ConfirmedBy(m, m.active, m') else m' == m
  {
    ConfirmConfirms(m, m.active, checks);
    var m' := Confirm(m, m.active, checks).1;
    OneWritten(m, m', fate);
    hide Confirm, OnCell, Validate;
  }

  lemma GuestOnCell(m: Metadata, d: Decision, p: Policy, env: BootEnv)
    requires Valid(m) && InState(m, m.active, RUNNING_PENDING) && d.probation && d.slotToRun == m.active
    ensures var m' := OnCell(m, RunGuest(m, d, p, env));
            if env.guest.PowerLoss? || !Landed(env.outcomeWrite) then m' == m
            else if env.guest.status != OK then Failed(m, m.active, env.guest.status, m')
            else ConfirmedBy(m, m.active, m')
  {
    hide FailRuntime, ConfirmActions, OnCell, Validate, Failed, ConfirmedBy;
    OneWritten(m, m, Complete);
    StartOnCell(m, m.active, true, AfterStart(m, d, p, env));
    if env.guest.Returned? {
      FailureOnCell(m, m.active, env.guest.status, env.outcomeWrite);
      ConfirmationOnCell(m, Checks(p), env.outcomeWrite);
    }
  }

  lemma TrialOnCell(m: Metadata, d: Decision, p: Policy, env: BootEnv)
    requires Valid(m) && InState(m, m.active, RUNNING_PENDING)
    requires d.probation && d.slotToRun == m.active && !d.kind.NoBundle?
    ensures TrialEnds(m, env, OnCell(m, RunSlot(m, d, p, env)))
  {
    hide FailRuntime, RunGuest, OnCell, Validate, Failed, ConfirmedBy;
    OneWritten(m, m, Complete);
    FailureOnCell(m, m.active, LoadStatus(m, m.active, env), env.outcomeWrite);
    GuestOnCell(m, d, p, env);
  }

  lemma CandidateKind(m: Metadata, p: Policy)
    requires Valid(m) && OnBoot(m, p).2.probation
    ensures !OnBoot(m, p).2.kind.NoBundle? && InState(OnBoot(m, p).1, OnBoot(m, p).1.active, RUNNING_PENDING)
    ensures OnBoot(m, p).2.slotToRun == OnBoot(m, p).1.active
  {
    BootDecides(m, p);
    hide Bump, Validate, Moves;
  }

  /** For every flash with room in the counter: how the boot of a candidate on probation ends, write by write. */
  lemma CandidateBootEnds(f: Flash, p: Policy, env: BootEnv)
    requires Read(f).generation + 2 <= MAX_U32 && OnBoot(Read(f), p).2.probation
    ensures var (m, m') := (Read(f), Read(AfterSession(f, BootUp(p, env))));
            var (_, m1, d) := OnBoot(m, p);
            && IsSlot(m1.active)
            && if !d.changed || env.decisionWrite.Complete? then TrialEnds(m1, env, m')
               else m' == if Landed(env.decisionWrite) then m1 else m
  {
    var m := Read(f);
    var (_, m1, d) := OnBoot(m, p);
    ReadValid(f);
    hide Read, OnBoot, RunSlot, OnFlash, OnCell, Validate, Moves, TrialEnds, BootActions;
    CandidateKind(m, p);
    BootDecides(m, p);
    ValidOfMoves(m, m1);
    BootActionsAre(m, p, env);
    SessionRefinesCell(f, BootUp(p, env));
    TrialOnCell(m1, d, p, env);
    DecisionOnCell(m, m1, RunSlot(m1, d, p, env));
    OneWritten(m, m1, env.decisionWrite);
  }

  /** A candidate whose guest returned a fault is never confirmed: it is failed on flash, for that reason. */
  lemma FaultedCandidateFails(f: Flash, p: Policy, env: BootEnv, i: nat)
    requires Read(f).generation + 2 <= MAX_U32
    requires i < |BootActions(Read(f), p, env)|
    requires var slot := OnBoot(Read(f), p).2.slotToRun;
             BootActions(Read(f), p, env)[i] == GuestStart(slot, true)
    requires env.guest.Returned? && env.guest.status != OK && Landed(env.outcomeWrite)
    ensures var slot := OnBoot(Read(f), p).2.slotToRun;
            var m' := Read(AfterSession(f, BootUp(p, env)));
            && InState(m', slot, FAILED) && m'.reason == env.guest.status && m'.lastGood == Read(f).lastGood
            && (m'.active == SLOT_NONE || (m'.active == m'.lastGood && InState(m', m'.active, CONFIRMED)))
  {
    var m := Read(f);
    var (_, m1, d) := OnBoot(m, p);
    hide Read, OnBoot, OnFlash, Validate, Moves, BootActions, LoadStatus;
    ReadValid(f);
    BootStarts(m, p, env);
    BootDecides(m, p);
    StartedLoads(m, p, env, i);
    CandidateGood(m, p);
    CandidateBootEnds(f, p, env);
  }

  lemma CandidateGood(m: Metadata, p: Policy)
    requires Valid(m) && OnBoot(m, p).2.probation
    ensures OnBoot(m, p).1.lastGood == m.lastGood
  {
    BootDecides(m, p);
    BumpFields(WithState(m, m.active, RUNNING_PENDING).(boots := Next(m.boots)));
    hide Bump, Rollback, Validate, Moves, RunsRecorded;
  }

  /** A guest that started was loaded and authorised, after its decision was stored. */
  lemma StartedLoads(m: Metadata, p: Policy, env: BootEnv, i: nat)
    requires Valid(m) && i < |BootActions(m, p, env)| && BootActions(m, p, env)[i].GuestStart?
    ensures var (_, m1, d) := OnBoot(m, p);
            && (d.changed ==> env.decisionWrite.Complete?) && d.slotToRun != SLOT_NONE && !env.powerLossBeforeGuest
            && env.load == OK && Matches(m1, d.slotToRun, env) && env.extract == OK && env.authorize == OK
  {
    var (_, m1, d) := OnBoot(m, p);
    BootActionsAre(m, p, env);
    BootDecides(m, p);
    ValidOfMoves(m, m1);
    FailFollows(m1, d, LoadStatus(m1, d.slotToRun, env), env.outcomeWrite);
    hide OnBoot, BootActions, FailRuntime, RunGuest, Validate, Moves, RunsRecorded;
  }

  /** The boot of a confirmed slot leaves the decision on flash and nothing else, whatever its guest returns. */
  lemma ConfirmedBootEnds(f: Flash, p: Policy, env: BootEnv)
    requires Read(f).generation + 2 <= MAX_U32 && !OnBoot(Read(f), p).2.probation
    ensures var (m, m') := (Read(f), Read(AfterSession(f, BootUp(p, env))));
            m' == if Landed(env.decisionWrite) then OnBoot(m, p).1 else m
  {
    var m := Read(f);
    var (_, m1, d) := OnBoot(m, p);
    hide Read, OnBoot, RunSlot, OnFlash, OnCell, Validate, Moves, BootActions, RunsRecorded;
    ReadValid(f);
    BootDecides(m, p);
    ValidOfMoves(m, m1);
    BootActionsAre(m, p, env);
    QuietOnCell(m1, d, p, env);
    SessionRefinesCell(f, BootUp(p, env));
    DecisionOnCell(m, m1, RunSlot(m1, d, p, env));
    OneWritten(m, m1, env.decisionWrite);
  }

  lemma QuietOnCell(m: Metadata, d: Decision, p: Policy, env: BootEnv)
    requires !d.probation
    ensures OnCell(m, RunSlot(m, d, p, env)) == m
  {
    StartOnCell(m, d.slotToRun, false, []);
    hide RecordFault, Confirm, LoadStatus;
    assert OnCell(m, []) == m;
  }

  // ---- confirmation, over every session

  predicate NewlyConfirmed(m: Metadata, m': Metadata, slot: u32) {
    InState(m', slot, CONFIRMED) && !InState(m, slot, CONFIRMED)
  }

  lemma FailureConfirmsNone(m: Metadata, slot: u32, probation: bool, status: u32, fate: Fate, of: u32)
    requires Valid(m) && (probation && slot != SLOT_NONE ==> InState(m, slot, RUNNING_PENDING))
    ensures var acts := FailRuntime(m, slot, probation, status, fate);
            forall i | 0 <= i < |acts| :: acts[i].Persist? && !NewlyConfirmed(m, acts[i].m, of)
  {
    if probation && slot != SLOT_NONE {
      FaultFails(m, slot, status);
    }
    hide RecordFault, Validate;
  }

  lemma ConfirmationConfirmsOne(m: Metadata, checks: u32, fate: Fate, of: u32)
    requires Valid(m) && InState(m, m.active, RUNNING_PENDING) && checks != 0
    ensures var acts := ConfirmActions(m, m.active, checks, fate);
            forall i | 0 <= i < |acts| :: acts[i].Persist? && (NewlyConfirmed(m, acts[i].m, of) ==> of == m.active)
  {
    ConfirmConfirms(m, m.active, checks);
    hide Confirm, Validate;
  }

  lemma GuestConfirms(m: Metadata, d: Decision, p: Policy, env: BootEnv, i: nat, of: u32)
    requires Valid(m) && RunsRecorded(m, d) && d.slotToRun != SLOT_NONE && (d.probation ==> d.slotToRun == m.active)
    requires i < |AfterStart(m, d, p, env)|
    ensures var acts := AfterStart(m, d, p, env);
            && acts[i].Persist?
            && (NewlyConfirmed(m, acts[i].m, of) ==> d.probation && of == d.slotToRun && env.guest == Returned(OK))
  {
    if env.guest.Returned? {
      FailureConfirmsNone(m, d.slotToRun, d.probation, env.guest.status, env.outcomeWrite, of);
    }
    if d.probation {
      ConfirmationConfirmsOne(m, Checks(p), env.outcomeWrite, of);
    }
    hide FailRuntime, ConfirmActions, NewlyConfirmed, Validate;
  }

  /** What a run of the chosen slot stores confirms a slot only when its guest was started and returned OK. */
  lemma RunConfirms(m: Metadata, d: Decision, p: Policy, env: BootEnv, i: nat, of: u32)
    requires Valid(m) && RunsRecorded(m, d) && (d.probation ==> d.slotToRun == m.active)
    requires i < |RunSlot(m, d, p, env)| && RunSlot(m, d, p, env)[i].Persist?
    ensures var acts := RunSlot(m, d, p, env);
            NewlyConfirmed(m, acts[i].m, of) ==> acts[0] == GuestStart(of, true) && env.guest == Returned(OK)
  {
    FailureConfirmsNone(m, d.slotToRun, d.probation, LoadStatus(m, d.slotToRun, env), env.outcomeWrite, of);
    if d.slotToRun != SLOT_NONE && i > 0 && i - 1 < |AfterStart(m, d, p, env)| {
      GuestConfirms(m, d, p, env, i - 1, of);
    }
    hide FailRuntime, AfterStart, NewlyConfirmed, LoadStatus, Validate;
  }

  /** What a boot stores confirms a slot only after a start of that slot's guest, which returned OK. */
  lemma BootConfirms(m: Metadata, p: Policy, env: BootEnv, i: nat, of: u32)
    requires Valid(m) && i < |BootActions(m, p, env)| && BootActions(m, p, env)[i].Persist?
    requires NewlyConfirmed(m, BootActions(m, p, env)[i].m, of)
    ensures env.guest == Returned(OK) && GuestStart(of, true) in BootActions(m, p, env)
  {
    var (_, m1, d) := OnBoot(m, p);
    BootDecides(m, p);
    ValidOfMoves(m, m1);
    DecisionConfirmsNone(m, m1, of);
    hide OnBoot, RunSlot, Moves, Validate, RunsRecorded, NoneConfirmed, NewlyConfirmed;
    BootActionsAre(m, p, env);
    hide BootActions;
    var rest, acts := RunSlot(m1, d, p, env), BootActions(m, p, env);
    if acts == rest {
      RunConfirms(m1, d, p, env, i, of);
    } else if i > 0 {
      assert acts[1..] == rest && acts[i] == rest[i - 1];
      RunConfirms(m1, d, p, env, i - 1, of);
    }
  }

  lemma DecisionConfirmsNone(m: Metadata, m1: Metadata, of: u32)
    requires NoneConfirmed(m, m1)
    ensures !NewlyConfirmed(m, m1, of)
    ensures forall m2: Metadata :: NewlyConfirmed(m, m2, of) ==> NewlyConfirmed(m1, m2, of)
  {
  }

  lemma EditConfirmsNone(m: Metadata, e: Edit)
    ensures NoneConfirmed(m, ApplyEdit(m, e))
  {
    hide BundleMetadata.Checksum, Validate, VerifyUnder;
  }

  lemma {:induction false} EditsConfirmNone(m: Metadata, es: seq<Edit>)
    ensures NoneConfirmed(m, ApplyEdits(m, es))
    decreases |es|
  {
    if es != [] {
      EditConfirmsNone(m, es[0]);
      hide ApplyEdit;
      EditsConfirmNone(ApplyEdit(m, es[0]), es[1..]);
    }
  }

  /** Over every session, on every flash: a slot becomes confirmed only when its guest was started on probation in that
    * boot, and returned OK. */
  lemma ConfirmedOnlyHealthy(f: Flash, s: Session, slot: u32)
    requires NewlyConfirmed(Read(f), Read(AfterSession(f, s)), slot)
    ensures s.BootUp? && s.env.guest == Returned(OK)
    ensures GuestStart(slot, true) in SessionActions(Read(f), s)
  {
    var m, acts := Read(f), SessionActions(Read(f), s);
    var m' := Read(AfterSession(f, s));
    ReadValid(f);
    ReadsOldOrStored(f, acts);
    hide Read, OnFlash, BootActions, ApplyEdits, Seal, Validate;
    var i :| 0 <= i < |acts| && acts[i].Persist? && m' == Seal(acts[i].m);
    SealKeepsStates(acts[i].m);
    match s
    case Update(edits, fate) => EditsConfirmNone(m, edits);
    case BootUp(policy, env) => BootConfirms(m, policy, env, i, slot);
  }

  lemma SealKeepsStates(m: Metadata)
    ensures Seal(m).a == m.a && Seal(m).b == m.b
  {
    hide BundleMetadata.Checksum;
  }
}
