/** What a boot reports, and what it leaves in RAM, against what it stored and started. */
module BootReports {
  import opened Words
  import opened Status
  import opened BundleMetadata
  import opened Activation
  import opened SlotInvariant
  import opened Journal
  import opened BootProtocol
  import opened BootSafety
  import opened BootEnds
  import opened BootApp
  import opened Decisions

  // ---- the status

  predicate AllStored(acts: seq<Action>) {
    forall a <- acts :: a.Persist? ==> a.fate.Complete?
  }

  predicate SomeStarted(acts: seq<Action>) {
    exists a <- acts :: a.GuestStart?
  }

  /** OK is reported exactly when a guest was started and returned OK, and every write was finished. */
  predicate Reports(status: u32, acts: seq<Action>, env: BootEnv) {
    && (status == OK <==> SomeStarted(acts) && env.guest == Returned(OK) && AllStored(acts))
    && (SomeStarted(acts) && env.guest.Returned? && env.guest.status != OK ==> status == env.guest.status)
    && (acts == [] ==> status != OK)
  }

  lemma FailureReports(m: Metadata, slot: u32, probation: bool, status: u32, fate: Fate)
    ensures !SomeStarted(FailRuntime(m, slot, probation, status, fate))
  {
    hide RecordFault;
  }

  lemma StartedHere(slot: u32, probation: bool, rest: seq<Action>)
    ensures var acts := [GuestStart(slot, probation)] + rest;
            SomeStarted(acts) && (AllStored(acts) <==> AllStored(rest))
  {
    var acts := [GuestStart(slot, probation)] + rest;
    assert acts[0] in acts && forall a :: a in acts <==> a == acts[0] || a in rest;
  }

  lemma StoredHere(m: Metadata, fate: Fate, rest: seq<Action>)
    ensures var acts := [Persist(m, fate)] + rest;
            (SomeStarted(acts) <==> SomeStarted(rest)) && (AllStored(acts) <==> fate.Complete? && AllStored(rest))
  {
    var acts := [Persist(m, fate)] + rest;
    assert acts[0] in acts && forall a :: a in acts <==> a == acts[0] || a in rest;
  }

  lemma GuestReports(m: Metadata, d: Decision, p: Policy, env: BootEnv)
    requires Valid(m) && RunsRecorded(m, d) && d.slotToRun != SLOT_NONE && (d.probation ==> d.slotToRun == m.active)
    requires Authorized(m, d, env)
    ensures Reports(SlotResult(m, d, p, env).0, RunGuest(m, d, p, env), env)
  {
    GuestSplit(m, d, p, env);
    StartedHere(d.slotToRun, d.probation, AfterStart(m, d, p, env));
    assert d.probation ==> Confirm(m, d.slotToRun, Checks(p)).0 == OK by { hide Validate; }
    hide SlotResult, RunGuest, RecordFault, Confirm, SomeStarted, Validate, Authorized;
  }

  lemma RunReports(m: Metadata, d: Decision, p: Policy, env: BootEnv)
    requires Valid(m) && RunsRecorded(m, d) && (d.probation ==> d.slotToRun == m.active)
    requires d.kind.NoBundle? ==> d.slotToRun == SLOT_NONE
    ensures Reports(SlotResult(m, d, p, env).0, RunSlot(m, d, p, env), env)
  {
    SlotSplit(m, d, p, env);
    FailureReports(m, d.slotToRun, d.probation, LoadStatus(m, d.slotToRun, env), env.outcomeWrite);
    if Authorized(m, d, env) {
      GuestReports(m, d, p, env);
    }
    hide SlotResult, RunSlot, RunGuest, FailRuntime, LoadStatus, Validate;
  }

  /** Over every valid block: a boot reports OK exactly when its guest was started and returned OK and every write was
    * finished; a guest's failure is reported as it is. */
  lemma BootTells(m: Metadata, p: Policy, env: BootEnv)
    requires Valid(m)
    ensures Reports(BootResult(m, p, env).0, BootActions(m, p, env), env)
  {
    var (_, m1, d) := OnBoot(m, p);
    BootDecides(m, p);
    ValidOfMoves(m, m1);
    DecisionTells(m, p);
    hide OnBoot, Moves, Validate, RunsRecorded, RunSlot, SlotResult;
    BootActionsAre(m, p, env);
    hide BootActions, SomeStarted, AllStored;
    RunReports(m1, d, p, env);
    StoredHere(m1, env.decisionWrite, []);
    StoredHere(m1, env.decisionWrite, RunSlot(m1, d, p, env));
    assert [Persist(m1, env.decisionWrite)] + [] == [Persist(m1, env.decisionWrite)];
    assert !SomeStarted([]);
  }

  /** Why a boot that does not get to its guest, or cannot store its outcome, was refused. */
  lemma RefusalTold(m: Metadata, p: Policy, env: BootEnv)
    requires Valid(m) && !env.powerLossBeforeGuest
    ensures var (status, (_, m1, d)) := (BootResult(m, p, env).0, OnBoot(m, p));
            if d.changed && !env.decisionWrite.Complete? then status == ERR_IO
            else if d.slotToRun == SLOT_NONE then status == ERR_NOT_AVAILABLE
            else if env.load != OK then status == env.load
            else if !Matches(m1, d.slotToRun, env) then status == ERR_CONTRACT_VIOLATION
            else if env.extract != OK then status == env.extract
            else if env.authorize != OK then status == env.authorize
            else env.guest == Returned(OK) && d.probation && !env.outcomeWrite.Complete? ==> status == ERR_IO
  {
    hide OnBoot, Moves, Validate, RunSlot, RunGuest, FailedBlock, RecordFault, ConfirmResult, Matches, Told;
    var (_, m1, d) := OnBoot(m, p);
    BootDecides(m, p);
    ValidOfMoves(m, m1);
    KindTold(m, p);
    if d.probation && d.slotToRun != SLOT_NONE {
      ConfirmConfirms(m1, d.slotToRun, Checks(p));
      assert ConfirmResult(m1, d.slotToRun, Checks(p), env.outcomeWrite).0 ==
             if env.outcomeWrite.Complete? then OK else ERR_IO by { ConfirmStatus(m1, d.slotToRun, Checks(p), env); }
    }
  }

  lemma ConfirmStatus(m: Metadata, slot: u32, checks: u32, env: BootEnv)
    requires Confirm(m, slot, checks).0 == OK
    ensures ConfirmResult(m, slot, checks, env.outcomeWrite).0 == if env.outcomeWrite.Complete? then OK else ERR_IO
  {
    hide Confirm;
  }

  lemma KindTold(m: Metadata, p: Policy)
    requires Valid(m)
    ensures OnBoot(m, p).0 == OK && (OnBoot(m, p).2.kind.NoBundle? ==> OnBoot(m, p).2.slotToRun == SLOT_NONE)
  {
    hide OnBoot, Validate, MayRun;
    DecisionTells(m, p);
  }

  // ---- the block in RAM

  lemma FailedIsStored(m: Metadata, slot: u32, probation: bool, status: u32)
    requires Valid(m) && (probation && slot != SLOT_NONE ==> InState(m, slot, RUNNING_PENDING))
    ensures OnCell(m, FailRuntime(m, slot, probation, status, Complete)) == FailedBlock(m, slot, probation, status)
  {
    if probation && slot != SLOT_NONE {
      FaultFails(m, slot, status);
      OneWritten(m, RecordFault(m, slot, status, Plain(NoBundle, OK)).1, Complete);
    }
    hide RecordFault, Validate;
  }

  lemma ConfirmedIsStored(m: Metadata, checks: u32)
    requires Valid(m) && InState(m, m.active, RUNNING_PENDING) && checks != 0
    ensures OnCell(m, ConfirmActions(m, m.active, checks, Complete)) == Confirm(m, m.active, checks).1
  {
    ConfirmConfirms(m, m.active, checks);
    OneWritten(m, Confirm(m, m.active, checks).1, Complete);
    hide Confirm, OnCell, Validate;
  }

  lemma RunIsStored(m: Metadata, d: Decision, p: Policy, env: BootEnv)
    requires Valid(m) && RunsRecorded(m, d) && (d.probation ==> d.slotToRun == m.active) && env.outcomeWrite.Complete?
    ensures OnCell(m, RunSlot(m, d, p, env)) == SlotResult(m, d, p, env).1
  {
    SlotSplit(m, d, p, env);
    OneWritten(m, m, Complete);
    FailedIsStored(m, d.slotToRun, d.probation, LoadStatus(m, d.slotToRun, env));
    if Authorized(m, d, env) {
      GuestSplit(m, d, p, env);
      StartOnCell(m, d.slotToRun, d.probation, AfterStart(m, d, p, env));
      if env.guest.Returned? {
        FailedIsStored(m, d.slotToRun, d.probation, env.guest.status);
      }
      if d.probation {
        ConfirmedIsStored(m, Checks(p));
      }
    }
    hide SlotResult, RunSlot, RunGuest, FailRuntime, FailedBlock, ConfirmActions, Confirm, LoadStatus, OnCell, Validate;
  }

  /** For every flash with room in the counter: when its writes are finished, a boot leaves in RAM exactly the block
    * that the next read returns. */
  lemma RamIsStored(f: Flash, p: Policy, env: BootEnv)
    requires Read(f).generation + 2 <= MAX_U32 && env.decisionWrite.Complete? && env.outcomeWrite.Complete?
    ensures BootResult(Read(f), p, env).1 == Read(AfterSession(f, BootUp(p, env)))
  {
    var m := Read(f);
    var (_, m1, d) := OnBoot(m, p);
    ReadValid(f);
    BootDecides(m, p);
    ValidOfMoves(m, m1);
    BootActionsAre(m, p, env);
    hide Read, OnBoot, RunSlot, SlotResult, OnFlash, OnCell, Validate, Moves, BootActions, RunsRecorded;
    SessionRefinesCell(f, BootUp(p, env));
    DecisionOnCell(m, m1, RunSlot(m1, d, p, env));
    RunIsStored(m1, d, p, env);
  }
}
