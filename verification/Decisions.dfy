/** What a boot decides on any valid block, and how a failed trial is undone. */
module Decisions {
  import opened Words
  import opened Status
  import opened BundleMetadata
  import opened Activation
  import opened SlotInvariant

  // ---- the decision, in the terms of the block before and after

  /** The active slot can be run: it is confirmed, has attempts left, or goes on with its trial. */
  predicate MayRun(m: Metadata, p: Policy) {
    || InState(m, m.active, CONFIRMED)
    || (InState(m, m.active, PENDING) && m.boots < Budget(p))
    || (InState(m, m.active, RUNNING_PENDING) && !p.failRunning)
  }

  /** The active slot if it can be run, else the last good slot if that is confirmed. */
  function Selected(m: Metadata, p: Policy): u32 {
    if MayRun(m, p) then m.active else if InState(m, m.lastGood, CONFIRMED) then m.lastGood else SLOT_NONE
  }

  /** Why an active slot that cannot be run is given up. */
  function Why(m: Metadata): u32 {
    if !IsSlot(m.active) then ERR_INVALID_RESOURCE
    else if Record(m, m.active).state == PENDING then ERR_TIMEOUT
    else if Record(m, m.active).state == RUNNING_PENDING then ERR_NOT_SYNCHRONIZED
    else ERR_INVALID_STATE
  }

  /** The slot that is selected is active afterwards; a confirmed one is also last good. */
  predicate SelectionTold(m: Metadata, p: Policy, m': Metadata, d: Decision) {
    && d.slotToRun == m'.active == Selected(m, p)
    && (d.probation <==> InState(m', d.slotToRun, RUNNING_PENDING))
    && (d.slotToRun != SLOT_NONE && !d.probation ==> InState(m', d.slotToRun, CONFIRMED))
    && m'.lastGood == (if d.slotToRun != SLOT_NONE && !d.probation then d.slotToRun else m.lastGood)
    && d.fallback == (if d.slotToRun == SLOT_NONE then SLOT_NONE else m'.lastGood)
    && d.candidate == (if d.rollback || d.probation then m.active else SLOT_NONE)
    && d.kind == (if d.rollback then if d.slotToRun == SLOT_NONE then FaultNoFallback else RollbackToLastGood
                  else if d.slotToRun == SLOT_NONE then NoBundle
                  else if d.probation then RunCandidate else RunConfirmed)
  }

  /** A slot that is given up is failed, counted and given a reason; an attempt is counted; nothing else changes. */
  predicate ChangeTold(m: Metadata, p: Policy, m': Metadata, d: Decision) {
    var attempt := d.probation && InState(m, m.active, PENDING);
    && (d.rollback <==> m.active != SLOT_NONE && !MayRun(m, p))
    && m'.faults == (if d.rollback then Next(m.faults) else m.faults)
    && m'.reason == (if d.rollback then Why(m) else m.reason)
    && m'.boots == (if attempt then Next(m.boots) else m.boots)
    && d.boots == (if d.rollback || d.probation then m'.boots else 0)
    && d.reason == (if d.rollback then Why(m) else if d.slotToRun == SLOT_NONE then ERR_NOT_AVAILABLE else OK)
    && forall slot | IsSlot(slot) ::
         Record(m', slot) == if slot != m.active then Record(m, slot)
                             else if d.rollback then Record(m, slot).(state := FAILED)
                             else if attempt then Record(m, slot).(state := RUNNING_PENDING)
                             else Record(m, slot)
  }

  predicate Told(m: Metadata, p: Policy) {
    var (status, m', d) := OnBoot(m, p);
    status == OK && Valid(m') && SelectionTold(m, p, m', d) && ChangeTold(m, p, m', d)
  }

  predicate BootIs(m: Metadata, p: Policy, m': Metadata, d: Decision) {
    OnBoot(m, p) == (OK, m', d) && Valid(m')
  }

  lemma GivesUp(m: Metadata, p: Policy)
    requires Valid(m) && m.active != SLOT_NONE && !MayRun(m, p)
    ensures var (m', d) := Rollback(m, m.active, Why(m));
            BootIs(m, p, m', d)
  {
    RollbackFields(m, m.active, Why(m));
    hide Rollback, Validate, Bump;
  }

  lemma RollbackTold(m: Metadata, p: Policy)
    requires Valid(m) && m.active != SLOT_NONE && !MayRun(m, p)
    ensures Told(m, p)
  {
    RollbackFields(m, m.active, Why(m));
    RollbackDecision(m, m.active, Why(m));
    GivesUp(m, p);
    hide Rollback, Validate, OnBoot;
  }

  lemma RollbackDecision(m: Metadata, failed: u32, reason: u32)
    ensures var (m', d) := Rollback(m, failed, reason);
            && m'.faults == Next(m.faults) && d.rollback && d.candidate == failed && d.reason == reason
            && d.boots == m.boots && d.fallback == d.slotToRun
  {
    hide BundleMetadata.Checksum;
  }

  lemma NothingSelected(m: Metadata, p: Policy)
    requires Valid(m) && m.active == SLOT_NONE
    ensures Told(m, p)
  {
    assert m.magic == MAGIC && m.version == VERSION;
    BumpFields(m.(active := m.lastGood));
    hide Bump, Rollback, Validate;
  }

  lemma ConfirmedTold(m: Metadata, p: Policy)
    requires Valid(m) && InState(m, m.active, CONFIRMED)
    ensures Told(m, p)
  {
    assert m.magic == MAGIC && m.version == VERSION;
    BumpFields(m.(lastGood := m.active));
    hide Bump, Rollback, Validate;
  }

  lemma CandidateTold(m: Metadata, p: Policy)
    requires Valid(m) && MayRun(m, p) && (InState(m, m.active, PENDING) || InState(m, m.active, RUNNING_PENDING))
    ensures Told(m, p)
  {
    assert m.magic == MAGIC && m.version == VERSION;
    BumpFields(WithState(m, m.active, RUNNING_PENDING).(boots := Next(m.boots)));
    hide Bump, Rollback, Validate;
  }

  /** On every valid block, under every policy, the decision tells what is run and what was changed. */
  lemma DecisionTells(m: Metadata, p: Policy)
    requires Valid(m)
    ensures Told(m, p)
  {
    hide Told, Validate;
    if m.active == SLOT_NONE {
      NothingSelected(m, p);
    } else if !MayRun(m, p) {
      RollbackTold(m, p);
    } else if InState(m, m.active, CONFIRMED) {
      ConfirmedTold(m, p);
    } else {
      CandidateTold(m, p);
    }
  }

  // ---- a failed trial is undone

  /** Where the device stands: the confirmed active slot, else the confirmed last good slot, else nowhere. */
  function Home(m: Metadata): u32 {
    if InState(m, m.active, CONFIRMED) then m.active
    else if InState(m, m.lastGood, CONFIRMED) then m.lastGood
    else SLOT_NONE
  }

  /** Back where it stood, with the candidate failed for this reason and the other slot as it was. */
  predicate BackHome(m: Metadata, candidate: u32, reason: u32, m': Metadata) {
    && Valid(m') && m'.active == Home(m) && (Home(m) != SLOT_NONE ==> m'.lastGood == Home(m))
    && m'.faults == 1 && m'.reason == reason
    && forall slot | IsSlot(slot) ::
         Record(m', slot) == if slot == candidate then Record(m, slot).(state := FAILED) else Record(m, slot)
  }

  /** A candidate in its trial, over the block from before it was prepared. */
  predicate OnTrial(m: Metadata, candidate: u32, state: u32, m': Metadata) {
    && Valid(m') && IsSlot(candidate) && m'.active == candidate
    && m'.lastGood == (if InState(m, m.active, CONFIRMED) then m.active else m.lastGood)
    && m'.faults == 0 && m'.reason == OK && m'.boots == (if state == PENDING then 0 else 1)
    && forall slot | IsSlot(slot) ::
         Record(m', slot) == if slot == candidate then Record(m, slot).(state := state) else Record(m, slot)
  }

  lemma Prepared(m: Metadata, slot: u32)
    requires Valid(m) && InState(m, slot, VERIFIED)
    ensures PreparePending(m, slot).0 == OK && OnTrial(m, slot, PENDING, PreparePending(m, slot).1)
  {
    var m1 := if InState(m, m.active, CONFIRMED) then m.(lastGood := m.active) else m;
    BumpFields(WithState(m1, slot, PENDING).(active := slot, boots := 0, faults := 0, reason := OK));
    hide Bump, Validate;
  }

  lemma Tried(m: Metadata, slot: u32, m1: Metadata, p: Policy)
    requires OnTrial(m, slot, PENDING, m1)
    ensures OnBoot(m1, p).0 == OK && OnTrial(m, slot, RUNNING_PENDING, OnBoot(m1, p).1)
  {
    DecisionTells(m1, p);
    hide OnBoot, Validate;
  }

  lemma GivenUpGoesHome(m: Metadata, slot: u32, state: u32, m1: Metadata, reason: u32)
    requires InState(m, slot, VERIFIED) && OnTrial(m, slot, state, m1)
    ensures BackHome(m, slot, reason, Rollback(m1, slot, reason).0)
  {
    RollbackFields(m1, slot, reason);
    RollbackDecision(m1, slot, reason);
    hide Rollback, Validate;
  }

  /** From every valid block: preparing a candidate is undone by a fault, before or after its first boot, and by a
    * second boot. */
  lemma FailedTrialReturns(m: Metadata, slot: u32, p: Policy, q: Policy, reason: u32)
    requires Valid(m) && InState(m, slot, VERIFIED)
    ensures var m1 := PreparePending(m, slot).1;
            var m2 := OnBoot(m1, p).1;
            && BackHome(m, slot, reason, RecordFault(m1, slot, reason, Plain(NoBundle, OK)).1)
            && BackHome(m, slot, reason, RecordFault(m2, slot, reason, Plain(NoBundle, OK)).1)
            && (q.failRunning ==> BackHome(m, slot, ERR_NOT_SYNCHRONIZED, OnBoot(m2, q).1))
  {
    var m1 := PreparePending(m, slot).1;
    var m2 := OnBoot(m1, p).1;
    Prepared(m, slot);
    Tried(m, slot, m1, p);
    GivenUpGoesHome(m, slot, PENDING, m1, reason);
    GivenUpGoesHome(m, slot, RUNNING_PENDING, m2, reason);
    GivenUpGoesHome(m, slot, RUNNING_PENDING, m2, ERR_NOT_SYNCHRONIZED);
    hide PreparePending, Rollback, Validate, BackHome;
    assert RecordFault(m1, slot, reason, Plain(NoBundle, OK)).1 == Rollback(m1, slot, reason).0;
    assert RecordFault(m2, slot, reason, Plain(NoBundle, OK)).1 == Rollback(m2, slot, reason).0;
    if q.failRunning {
      GivesUp(m2, q);
    }
    hide OnBoot;
  }
}
