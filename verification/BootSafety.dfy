/** What every run of updates, boots and power cuts keeps: one trial per candidate, a good slot, a rising floor. */
module BootSafety {
  import opened Words
  import opened Status
  import opened BundleMetadata
  import opened Activation
  import opened SlotInvariant
  import opened Journal
  import opened BootProtocol

  // ---- one step of the state machine

  predicate IsPending(m: Metadata, slot: u32) {
    InState(m, slot, PENDING)
  }

  /** No slot has become a candidate, and none has become the active one. */
  predicate NoNewCandidate(m: Metadata, m': Metadata) {
    && (m'.a.state == PENDING ==> m.a.state == PENDING)
    && (m'.b.state == PENDING ==> m.b.state == PENDING)
    && (IsPending(m', m'.active) ==> IsPending(m, m.active))
  }

  predicate KeepsGood(m: Metadata, m': Metadata) {
    m.lastGood != SLOT_NONE ==> m'.lastGood != SLOT_NONE
  }

  /** Each slot keeps the version, the counter and the hash of its bundle. */
  predicate SameContents(m: Metadata, m': Metadata) {
    m'.a == m.a.(state := m'.a.state) && m'.b == m.b.(state := m'.b.state)
  }

  /** The active slot, if any, is filled. */
  predicate ActiveFilled(m: Metadata) {
    m.active != SLOT_NONE ==> IsSlot(m.active) && Record(m, m.active).state != EMPTY
  }

  /** No slot is filled or emptied; this needs a filled active slot, because a rollback marks that slot as failed. */
  predicate SameFilled(m: Metadata, m': Metadata) {
    ActiveFilled(m) ==>
      && ActiveFilled(m')
      && (m'.a.state == EMPTY <==> m.a.state == EMPTY) && (m'.b.state == EMPTY <==> m.b.state == EMPTY)
  }

  /** No slot became confirmed. */
  predicate NoneConfirmed(m: Metadata, m': Metadata) {
    (m'.a.state == CONFIRMED ==> m.a.state == CONFIRMED) && (m'.b.state == CONFIRMED ==> m.b.state == CONFIRMED)
  }

  /** What every step of a boot does to a valid block, whatever the policy. */
  predicate Moves(m: Metadata, m': Metadata) {
    && Valid(m') && NoNewCandidate(m, m') && KeepsGood(m, m') && SameContents(m, m') && SameFilled(m, m')
    && SecurityFloor(m) <= SecurityFloor(m')
    && (SlotInv(m) ==> SlotInv(m'))
  }

  lemma MovesTrans(m: Metadata, m1: Metadata, m2: Metadata)
    requires Moves(m, m1) && Moves(m1, m2)
    ensures Moves(m, m2)
  {
    hide Validate, SlotInv, SecurityFloor;
  }

  lemma StaysPut(m: Metadata)
    requires Valid(m)
    ensures Moves(m, m)
  {
  }

  lemma RollbackRaisesFloor(m: Metadata, failed: u32, reason: u32)
    requires Valid(m)
    ensures SecurityFloor(m) <= SecurityFloor(Rollback(m, failed, reason).0)
  {
    RollbackFields(m, failed, reason);
    hide Rollback, Validate;
  }

  lemma RollbackMoves(m: Metadata, failed: u32, reason: u32)
    requires Valid(m)
    requires SlotInv(m) ==> InState(m, failed, PENDING) || InState(m, failed, RUNNING_PENDING)
    requires ActiveFilled(m) && IsSlot(failed) ==> Record(m, failed).state != EMPTY
    ensures var (m', d) := Rollback(m, failed, reason);
            && Moves(m, m') && NoneConfirmed(m, m') && RunsRecorded(m', d) && m'.generation == Next(m.generation)
            && !d.probation && d.changed
  {
    hide Rollback, Validate, SlotInv, SecurityFloor;
    RollbackRaisesFloor(m, failed, reason);
    RollbackFields(m, failed, reason);
    if SlotInv(m) {
      RollbackSound(m, failed, reason);
    }
  }

  /** What a boot decides, on any valid block and under any policy. */
  predicate Decides(m: Metadata, p: Policy) {
    var (status, m1, d) := OnBoot(m, p);
    && status == OK && Moves(m, m1) && NoneConfirmed(m, m1) && RunsRecorded(m1, d)
    && (d.changed ==> m1.generation == Next(m.generation))
    && (!d.changed ==> m1 == m)
    && (d.probation ==> d.slotToRun == m.active == m1.active && IsSlot(m.active))
    && (d.probation && d.changed <==> InState(m, m.active, PENDING) && m.boots < Budget(p))
    && (d.probation && !d.changed <==> InState(m, m.active, RUNNING_PENDING) && !p.failRunning)
  }

  lemma EmptyDecides(m: Metadata, p: Policy)
    requires Valid(m) && m.active == SLOT_NONE
    ensures Decides(m, p)
  {
    assert m.magic == MAGIC && m.version == VERSION;
    BumpFields(m.(active := m.lastGood));
    StaysPut(m);
    hide Bump, Rollback, Validate, Budget;
  }

  lemma ConfirmedDecides(m: Metadata, p: Policy)
    requires Valid(m) && InState(m, m.active, CONFIRMED)
    ensures Decides(m, p)
  {
    assert m.magic == MAGIC && m.version == VERSION;
    BumpFields(m.(lastGood := m.active));
    StaysPut(m);
    hide Bump, Rollback, Validate, Budget;
  }

  lemma ExpiredDecides(m: Metadata, p: Policy)
    requires Valid(m) && InState(m, m.active, PENDING) && m.boots >= Budget(p)
    ensures Decides(m, p)
  {
    RollbackMoves(m, m.active, ERR_TIMEOUT);
    hide Rollback, Validate, Moves, Budget;
  }

  lemma FreshMoves(m: Metadata)
    requires Valid(m) && InState(m, m.active, PENDING)
    ensures Moves(m, Bump(WithState(m, m.active, RUNNING_PENDING).(boots := Next(m.boots))))
  {
    BumpFields(WithState(m, m.active, RUNNING_PENDING).(boots := Next(m.boots)));
    hide Bump, Validate;
  }

  lemma FreshDecides(m: Metadata, p: Policy)
    requires Valid(m) && InState(m, m.active, PENDING) && m.boots < Budget(p)
    ensures Decides(m, p)
  {
    FreshMoves(m);
    BumpFields(WithState(m, m.active, RUNNING_PENDING).(boots := Next(m.boots)));
    hide Bump, Validate, Moves, Budget;
  }

  lemma RunningDecides(m: Metadata, p: Policy)
    requires Valid(m) && InState(m, m.active, RUNNING_PENDING)
    ensures Decides(m, p)
  {
    RollbackMoves(m, m.active, ERR_NOT_SYNCHRONIZED);
    StaysPut(m);
    hide Rollback, Validate, Moves;
  }

  lemma OtherDecides(m: Metadata, p: Policy)
    requires Valid(m) && m.active != SLOT_NONE && !Runnable(m, m.active)
    ensures Decides(m, p)
  {
    RollbackMoves(m, m.active, ERR_INVALID_RESOURCE);
    RollbackMoves(m, m.active, ERR_INVALID_STATE);
    hide Rollback, Validate, Moves;
  }

  lemma BootDecides(m: Metadata, p: Policy)
    requires Valid(m)
    ensures Decides(m, p)
  {
    hide Validate, Decides;
    if m.active == SLOT_NONE {
      EmptyDecides(m, p);
    } else if InState(m, m.active, CONFIRMED) {
      ConfirmedDecides(m, p);
    } else if InState(m, m.active, PENDING) {
      if m.boots >= Budget(p) {
        ExpiredDecides(m, p);
      } else {
        FreshDecides(m, p);
      }
    } else if InState(m, m.active, RUNNING_PENDING) {
      RunningDecides(m, p);
    } else {
      OtherDecides(m, p);
    }
  }

  lemma FaultMoves(m: Metadata, slot: u32, status: u32)
    requires Valid(m) && InState(m, slot, RUNNING_PENDING)
    ensures var (st, m', _) := RecordFault(m, slot, status, Plain(NoBundle, OK));
            st == OK && Moves(m, m') && m'.generation == Next(m.generation)
  {
    RollbackMoves(m, slot, status);
    hide Rollback, Validate, Moves;
  }

  lemma ConfirmMoves(m: Metadata, slot: u32, checks: u32)
    requires Valid(m) && m.active == slot && InState(m, slot, RUNNING_PENDING) && checks != 0
    ensures var (st, m') := Confirm(m, slot, checks);
            st == OK && Moves(m, m') && m'.generation == Next(m.generation)
  {
    BumpFields(WithState(m, slot, CONFIRMED).(active := slot, lastGood := slot, boots := 0, faults := 0, reason := OK));
    hide Bump, Validate;
  }

  // ---- what one boot stores and starts

  /** What follows the decision: at most one start, of the chosen slot and at once, and then at most one step. */
  predicate Follows(m: Metadata, d: Decision, acts: seq<Action>) {
    && (forall i | 0 <= i < |acts| && acts[i].GuestStart? ::
          i == 0 && d.slotToRun != SLOT_NONE && acts[i] == GuestStart(d.slotToRun, d.probation))
    && (forall i | 0 <= i < |acts| && acts[i].Persist? ::
          i == |acts| - 1 && d.probation && Moves(m, acts[i].m) && acts[i].m.generation == Next(m.generation))
  }

  lemma FailFollows(m: Metadata, d: Decision, status: u32, fate: Fate)
    requires Valid(m) && RunsRecorded(m, d)
    ensures var acts := FailRuntime(m, d.slotToRun, d.probation, status, fate);
            Follows(m, d, acts) && |acts| <= 1 && (acts != [] ==> acts[0].Persist?)
  {
    if d.probation && d.slotToRun != SLOT_NONE {
      FaultMoves(m, d.slotToRun, status);
    }
    hide RecordFault, Validate, Moves;
  }

  /** What follows the guest is either nothing or one write. */
  lemma AfterStartFollows(m: Metadata, d: Decision, p: Policy, env: BootEnv)
    requires Valid(m) && RunsRecorded(m, d) && d.slotToRun != SLOT_NONE && (d.probation ==> d.slotToRun == m.active)
    ensures var acts := AfterStart(m, d, p, env);
            Follows(m, d, acts) && |acts| <= 1 && (acts != [] ==> acts[0].Persist?)
  {
    if env.guest.Returned? && env.guest.status != OK {
      FailFollows(m, d, env.guest.status, env.outcomeWrite);
      hide FailRuntime, Validate, Moves, Follows;
    } else if d.probation {
      ConfirmMoves(m, d.slotToRun, Checks(p));
      hide Confirm, Validate, Moves;
    }
  }

  lemma GuestFollows(m: Metadata, d: Decision, p: Policy, env: BootEnv)
    requires Valid(m) && RunsRecorded(m, d) && d.slotToRun != SLOT_NONE && (d.probation ==> d.slotToRun == m.active)
    ensures Follows(m, d, RunGuest(m, d, p, env))
  {
    AfterStartFollows(m, d, p, env);
    hide AfterStart, Validate, Moves, RunsRecorded;
  }

  lemma RunFollows(m: Metadata, d: Decision, p: Policy, env: BootEnv)
    requires Valid(m) && RunsRecorded(m, d) && (d.probation ==> d.slotToRun == m.active)
    ensures Follows(m, d, RunSlot(m, d, p, env))
  {
    if !(d.kind.NoBundle? || d.slotToRun == SLOT_NONE || env.powerLossBeforeGuest) {
      FailFollows(m, d, LoadStatus(m, d.slotToRun, env), env.outcomeWrite);
      GuestFollows(m, d, p, env);
    }
    hide FailRuntime, RunGuest, LoadStatus, Validate, Moves, RunsRecorded;
  }

  /** The position of the only start: after the decision's write, if there is one. */
  function StartIndex(d: Decision): nat {
    if d.changed then 1 else 0
  }

  /** The actions of a boot: the decision's write when the block changed, then what follows. */
  lemma BootActionsAre(m: Metadata, p: Policy, env: BootEnv)
    requires Valid(m)
    ensures var (_, m1, d) := OnBoot(m, p);
            var acts := BootActions(m, p, env);
            acts == if !d.changed then RunSlot(m1, d, p, env)
                    else if env.decisionWrite.Complete? then [Persist(m1, Complete)] + RunSlot(m1, d, p, env)
                    else [Persist(m1, env.decisionWrite)]
  {
    BootDecides(m, p);
    hide OnBoot, RunSlot, Moves, Validate, RunsRecorded;
  }

  lemma BootStarts(m: Metadata, p: Policy, env: BootEnv)
    requires Valid(m)
    ensures var (_, m1, d) := OnBoot(m, p);
            var acts := BootActions(m, p, env);
            forall i | 0 <= i < |acts| && acts[i].GuestStart? ::
              && i == StartIndex(d) && d.slotToRun != SLOT_NONE && acts[i] == GuestStart(d.slotToRun, d.probation)
              && (d.changed ==> acts == [Persist(m1, Complete)] + RunSlot(m1, d, p, env))
  {
    BootDecides(m, p);
    BootActionsAre(m, p, env);
    var (_, m1, d) := OnBoot(m, p);
    RunFollows(m1, d, p, env);
    hide OnBoot, RunSlot, BootActions, Moves, Validate, RunsRecorded;
  }

  lemma BootStores(m: Metadata, p: Policy, env: BootEnv)
    requires Valid(m)
    ensures var acts := BootActions(m, p, env);
            forall i | 0 <= i < |acts| && acts[i].Persist? :: Moves(m, acts[i].m)
  {
    BootDecides(m, p);
    BootActionsAre(m, p, env);
    var (_, m1, d) := OnBoot(m, p);
    RunFollows(m1, d, p, env);
    var rest := RunSlot(m1, d, p, env);
    forall i | 0 <= i < |rest| && rest[i].Persist?
      ensures Moves(m, rest[i].m)
    {
      MovesTrans(m, m1, rest[i].m);
    }
    hide OnBoot, RunSlot, BootActions, Moves, Validate, RunsRecorded;
  }

  /** A list with a single place for a start holds one start or none. */
  lemma {:induction false} OneStart(acts: seq<Action>, k: int, slot: u32)
    requires forall i | 0 <= i < |acts| && acts[i].GuestStart? :: i == k
    ensures CountStarts(acts, slot) == if 0 <= k < |acts| && acts[k] == GuestStart(slot, true) then 1 else 0
    decreases |acts|
  {
    if acts != [] {
      OneStart(acts[1..], k - 1, slot);
    }
  }

  // ---- updates

  lemma InstallRaisesFloor(m: Metadata, slot: u32, v: VerifyResult)
    requires IsSlot(slot) && v.counter >= SecurityFloor(m)
    ensures SecurityFloor(m) <= SecurityFloor(MarkVerified(m, slot, v).1)
  {
    hide BundleMetadata.Checksum;
  }

  lemma PrepareKeepsFloor(m: Metadata, slot: u32)
    ensures SecurityFloor(PreparePending(m, slot).1) == SecurityFloor(m)
  {
    hide BundleMetadata.Checksum, Validate;
  }

  lemma EditValid(m: Metadata, e: Edit)
    requires Valid(m)
    ensures Valid(ApplyEdit(m, e))
  {
    match e
    case InstallBundle(slot, bundle) =>
      var v := VerifyUnder(m, bundle);
      if IsSlot(slot) {
        SealFields(WithRecord(m, slot, SlotRecord(VERIFIED, v.version, v.counter, v.sha))
                   .(generation := Next(m.generation)));
      }
      hide Seal, VerifyUnder;
    case PrepareSlot(slot) =>
      if IsSlot(slot) {
        var m1 := if m.active != SLOT_NONE && InState(m, m.active, CONFIRMED) then m.(lastGood := m.active) else m;
        BumpFields(WithState(m1, slot, PENDING).(active := slot, boots := 0, faults := 0, reason := OK));
      }
      hide Bump, Seal;
  }

  lemma EditRaisesFloor(m: Metadata, e: Edit)
    ensures SecurityFloor(m) <= SecurityFloor(ApplyEdit(m, e))
  {
    match e
    case InstallBundle(slot, bundle) =>
      var v := VerifyUnder(m, bundle);
      if v.status == OK && v.payloadHashOk && IsSlot(slot) {
        InstallRaisesFloor(m, slot, v);
      }
      hide SecurityFloor;
    case PrepareSlot(slot) => PrepareKeepsFloor(m, slot);
  }

  lemma EditSound(m: Metadata, e: Edit)
    requires Sound(m) && EditDisciplined(m, e)
    ensures Sound(ApplyEdit(m, e)) && KeepsGood(m, ApplyEdit(m, e))
  {
    match e
    case InstallBundle(slot, bundle) =>
      var v := VerifyUnder(m, bundle);
      if v.status == OK && v.payloadHashOk && IsSlot(slot) {
        InstallSound(m, slot, v);
      }
      hide MarkVerified, Validate, SlotInv, SecurityFloor;
    case PrepareSlot(slot) =>
      PrepareSound(m, slot);
      hide PreparePending, Validate, SlotInv;
  }

  lemma {:induction false} EditsValid(m: Metadata, es: seq<Edit>)
    requires Valid(m)
    ensures Valid(ApplyEdits(m, es)) && SecurityFloor(m) <= SecurityFloor(ApplyEdits(m, es))
    decreases |es|
  {
    if es != [] {
      EditValid(m, es[0]);
      EditRaisesFloor(m, es[0]);
      hide ApplyEdit, Validate, SecurityFloor;
      EditsValid(ApplyEdit(m, es[0]), es[1..]);
    }
  }

  lemma {:induction false} EditsSound(m: Metadata, es: seq<Edit>)
    requires Sound(m) && EditsDisciplined(m, es)
    ensures Sound(ApplyEdits(m, es)) && KeepsGood(m, ApplyEdits(m, es))
    decreases |es|
  {
    if es != [] {
      EditSound(m, es[0]);
      hide ApplyEdit, Sound, EditDisciplined;
      EditsSound(ApplyEdit(m, es[0]), es[1..]);
    }
  }

  lemma EditArms(m: Metadata, e: Edit, slot: u32)
    requires IsPending(ApplyEdit(m, e), slot)
    ensures IsPending(m, slot) || (e.PrepareSlot? && e.slot == slot && PreparePending(m, slot).0 == OK)
  {
    hide BundleMetadata.Checksum, Validate, VerifyUnder;
  }

  /** Only an armed slot can have become a pending candidate. */
  lemma {:induction false} EditsArm(m: Metadata, es: seq<Edit>, slot: u32)
    requires IsPending(ApplyEdits(m, es), slot)
    ensures IsPending(m, slot) || Arms(m, es, slot)
    decreases |es|
  {
    if es != [] {
      EditsArm(ApplyEdit(m, es[0]), es[1..], slot);
      if IsPending(ApplyEdit(m, es[0]), slot) {
        EditArms(m, es[0], slot);
      }
      hide ApplyEdit, PreparePending, IsPending;
    }
  }

  // ---- one session on flash, with power lost anywhere

  /** What the next read returns after any list of actions: the block from before, or one of those stored. */
  predicate OldOrStored(f: Flash, acts: seq<Action>) {
    var m' := Read(OnFlash(f, acts));
    m' == Read(f) || exists i :: 0 <= i < |acts| && acts[i].Persist? && m' == Seal(acts[i].m)
  }

  lemma {:induction false} ReadsOldOrStored(f: Flash, acts: seq<Action>)
    ensures OldOrStored(f, acts)
    decreases |acts|
  {
    hide Write, Read, Seal, Visible;
    if acts != [] {
      var f1 := if acts[0].Persist? then Write(f, acts[0].m, acts[0].fate).1 else f;
      if acts[0].Persist? {
        Atomic(f, acts[0].m, acts[0].fate);
      }
      ReadsOldOrStored(f1, acts[1..]);
      var m' := Read(OnFlash(f1, acts[1..]));
      assert OnFlash(f, acts) == OnFlash(f1, acts[1..]);
      if m' != Read(f) && !(acts[0].Persist? && m' == Seal(acts[0].m)) {
        var i :| 0 <= i < |acts[1..]| && acts[1..][i].Persist? && m' == Seal(acts[1..][i].m);
        assert acts[i + 1] == acts[1..][i];
      }
    }
  }

  /** Whatever flash holds, the block read is valid. */
  lemma ReadValid(f: Flash)
    ensures Valid(Read(f))
  {
    InitSound();
    hide Init, BundleMetadata.Checksum, RecordOf, SlotInv;
  }

  /** Writing back the block just read reports success and touches nothing. */
  lemma RewriteIsFree(f: Flash, fate: Fate)
    ensures Write(f, Read(f), fate) == (OK, f)
  {
    ReadValid(f);
    SealIdempotent(Read(f));
    hide Read, Seal, Validate;
  }

  /** After any session, interrupted anywhere, flash holds the block from before or one step of that session. */
  lemma SessionSteps(f: Flash, s: Session)
    ensures var (m, m') := (Read(f), Read(AfterSession(f, s)));
            && (s.BootUp? ==> Moves(m, m'))
            && (s.Update? ==> m' == m || m' == ApplyEdits(m, s.edits))
  {
    var m, acts := Read(f), SessionActions(Read(f), s);
    ReadValid(f);
    ReadsOldOrStored(f, acts);
    StaysPut(m);
    hide Read, OnFlash, Moves, ApplyEdits, BootActions, Seal, Validate;
    match s
    case Update(edits, fate) =>
      EditsValid(m, edits);
      SealIdempotent(ApplyEdits(m, edits));
    case BootUp(policy, env) =>
      BootStores(m, policy, env);
      if Read(OnFlash(f, acts)) != m {
        var i :| 0 <= i < |acts| && acts[i].Persist? && Read(OnFlash(f, acts)) == Seal(acts[i].m);
        SealIdempotent(acts[i].m);
        ValidOfMoves(m, acts[i].m);
      }
  }

  lemma ValidOfMoves(m: Metadata, m': Metadata)
    requires Moves(m, m')
    ensures Valid(m')
  {
  }

  // ---- the floor and the good slot, over whole runs

  lemma SessionRaisesFloor(f: Flash, s: Session)
    ensures SecurityFloor(Read(f)) <= SecurityFloor(Read(AfterSession(f, s)))
  {
    SessionSteps(f, s);
    if s.Update? {
      ReadValid(f);
      EditsValid(Read(f), s.edits);
    }
    hide Read, AfterSession, ApplyEdits, SecurityFloor, Validate, SlotInv;
  }

  /** Over every run, from any flash, under any policies, with power lost anywhere, the security floor never falls. */
  lemma {:induction false} FloorNeverFalls(d: Device, ss: seq<Session>)
    ensures SecurityFloor(Read(d.flash)) <= SecurityFloor(Read(RunDevice(d, ss).flash))
    decreases |ss|
  {
    if ss != [] {
      SessionRaisesFloor(d.flash, ss[0]);
      hide Read, AfterSession, SecurityFloor, Counted;
      FloorNeverFalls(NextDevice(d, ss[0]), ss[1..]);
    }
  }

  /** Bundles are only installed into a slot that is neither active nor last good. */
  predicate InstallsAside(d: Device, ss: seq<Session>)
    decreases |ss|
  {
    ss == [] ||
    (&& (ss[0].Update? ==> EditsDisciplined(Read(d.flash), ss[0].edits))
     && InstallsAside(NextDevice(d, ss[0]), ss[1..]))
  }

  lemma SessionKeepsGood(f: Flash, s: Session)
    requires Sound(Read(f)) && (s.Update? ==> EditsDisciplined(Read(f), s.edits))
    ensures Sound(Read(AfterSession(f, s))) && KeepsGood(Read(f), Read(AfterSession(f, s)))
  {
    SessionSteps(f, s);
    if s.Update? {
      EditsSound(Read(f), s.edits);
    }
    hide Read, AfterSession, ApplyEdits, SecurityFloor, Validate, SlotInv, EditsDisciplined;
  }

  lemma {:induction false} RunKeepsGood(d: Device, ss: seq<Session>)
    requires Sound(Read(d.flash)) && InstallsAside(d, ss)
    ensures var m' := Read(RunDevice(d, ss).flash);
            Sound(m') && KeepsGood(Read(d.flash), m')
    decreases |ss|
  {
    if ss != [] {
      SessionKeepsGood(d.flash, ss[0]);
      hide Read, AfterSession, Sound, EditsDisciplined, Counted;
      RunKeepsGood(NextDevice(d, ss[0]), ss[1..]);
    }
  }

  /** Over every such run, under any policies, a last good slot stays confirmed and the next boot selects a slot. */
  lemma GoodSlotKept(d: Device, ss: seq<Session>, p: Policy)
    requires Sound(Read(d.flash)) && InstallsAside(d, ss)
    requires Read(d.flash).lastGood != SLOT_NONE
    ensures var m' := Read(RunDevice(d, ss).flash);
            var decision := OnBoot(m', p).2;
            && InState(m', m'.lastGood, CONFIRMED)
            && !decision.kind.NoBundle? && !decision.kind.FaultNoFallback? && IsSlot(decision.slotToRun)
  {
    RunKeepsGood(d, ss);
    BootSound(Read(RunDevice(d, ss).flash), p);
    hide Read, RunDevice, InstallsAside, Validate, OnBoot;
  }

  /** No valid record yet, and nothing ever run. */
  predicate Factory(d: Device) {
    !HasRecord(d.flash) && d.trials == Trials(0, 0)
  }

  lemma FactoryBlock(d: Device)
    requires Factory(d)
    ensures Read(d.flash) == Init() && Sound(Init())
    ensures Init().generation == 0 && Init().active == SLOT_NONE && Init().lastGood == SLOT_NONE
    ensures Init().a.state == EMPTY && Init().b.state == EMPTY
  {
    InitSound();
    hide HasRecord, BundleMetadata.Checksum, Validate;
  }

  /** From the factory state, the stored block keeps its shape over every run that installs aside. */
  lemma FlashStaysSound(d: Device, ss: seq<Session>)
    requires Factory(d) && InstallsAside(d, ss)
    ensures Sound(Read(RunDevice(d, ss).flash))
  {
    hide Read, RunDevice, InstallsAside, Sound, HasRecord, Init;
    FactoryBlock(d);
    RunKeepsGood(d, ss);
  }

  // ---- the decision is on flash before the guest starts

  lemma OneWrite(f: Flash, m: Metadata, fate: Fate)
    requires m.magic == MAGIC && m.version == VERSION
    requires Seal(m) == Read(f) || m.generation > Read(f).generation
    ensures Read(Write(f, m, fate).1) == if Landed(fate) then Seal(m) else Read(f)
  {
    Atomic(f, m, fate);
    hide Write, Read, Seal, Landed;
  }

  lemma WriteValid(f: Flash, m: Metadata)
    requires Valid(m) && m.generation == Next(Read(f).generation)
    ensures Read(Write(f, m, Complete).1) == if Read(f).generation == MAX_U32 then Read(f) else m
  {
    SealIdempotent(m);
    if Read(f).generation == MAX_U32 {
      BlankGeneration(f);
      WrappedWriteIsLost(f, m, Complete);
    } else {
      OneWrite(f, m, Complete);
    }
    hide Read, Write, Seal, HasRecord;
  }

  lemma BlankGeneration(f: Flash)
    ensures HasRecord(f) || Read(f).generation == 0
  {
    hide Read, Init, HasRecord, Sound;
    if !HasRecord(f) {
      FactoryBlock(Device(f, Trials(0, 0)));
    }
  }

  lemma BeforeStart(f: Flash, m1: Metadata, rest: seq<Action>)
    ensures var acts := [Persist(m1, Complete)] + rest;
            && OnFlash(f, acts[..1]) == Write(f, m1, Complete).1
            && OnFlash(f, acts) == OnFlash(Write(f, m1, Complete).1, rest)
  {
    hide Write;
    var acts := [Persist(m1, Complete)] + rest;
    assert acts[1..] == rest && acts[..1] == [Persist(m1, Complete)];
    assert OnFlash(f, acts[..1]) == OnFlash(Write(f, m1, Complete).1, []);
  }

  lemma NothingDone(f: Flash, acts: seq<Action>)
    ensures OnFlash(f, acts[..0]) == f
  {
  }

  /** The block from before the decision already records the slot to run, unless that is a fresh candidate. */
  lemma OldBlockRecords(m: Metadata, p: Policy)
    requires Valid(m) && OnBoot(m, p).2.slotToRun != SLOT_NONE
    ensures RunsRecorded(m, OnBoot(m, p).2) <==> !(OnBoot(m, p).2.probation && InState(m, m.active, PENDING))
  {
    hide Bump, Validate, Budget;
  }

  /** When a guest starts, flash already says what it is, except when a fresh candidate's generation wrapped. */
  lemma DurableBeforeGuest(f: Flash, p: Policy, env: BootEnv, i: nat)
    requires i < |BootActions(Read(f), p, env)| && BootActions(Read(f), p, env)[i].GuestStart?
    ensures var (m, acts) := (Read(f), BootActions(Read(f), p, env));
            var state := if acts[i].probation then RUNNING_PENDING else CONFIRMED;
            InState(Read(OnFlash(f, acts[..i])), acts[i].slot, state)
            <==> !(m.generation == MAX_U32 && acts[i].probation && InState(m, acts[i].slot, PENDING))
  {
    var m, acts := Read(f), BootActions(Read(f), p, env);
    var (_, m1, d) := OnBoot(m, p);
    ReadValid(f);
    BootDecides(m, p);
    BootStarts(m, p, env);
    OldBlockRecords(m, p);
    hide Read, OnBoot, BootActions, RunSlot, Validate, Moves, OnFlash, Write;
    if d.changed {
      BeforeStart(f, m1, RunSlot(m1, d, p, env));
      ValidOfMoves(m, m1);
      WriteValid(f, m1);
    } else {
      NothingDone(f, acts);
    }
  }

  // ---- at most one trial for each candidate

  /** A boot fails an abandoned candidate, and does not start a fresh one at the last generation. */
  predicate Careful(m: Metadata, s: Session) {
    s.BootUp? ==>
      && s.policy.failRunning
      && !(IsPending(m, m.active) && m.boots < Budget(s.policy) && m.generation == MAX_U32)
  }

  predicate CarefulRun(d: Device, ss: seq<Session>)
    decreases |ss|
  {
    ss == [] || (Careful(Read(d.flash), ss[0]) && CarefulRun(NextDevice(d, ss[0]), ss[1..]))
  }

  /** A slot was tried at most once since it was armed, and not at all while its candidate is fresh. */
  predicate TriedOnce(m: Metadata, n: nat, slot: u32) {
    n <= 1 && (IsPending(m, slot) ==> n == 0)
  }

  lemma AfterDecision(f: Flash, m: Metadata, d: Decision, p: Policy, env: BootEnv)
    requires Read(f) == m && Valid(m) && RunsRecorded(m, d) && (d.probation ==> d.slotToRun == m.active)
    ensures Moves(m, Read(OnFlash(f, RunSlot(m, d, p, env))))
  {
    var acts := RunSlot(m, d, p, env);
    RunFollows(m, d, p, env);
    ReadsOldOrStored(f, acts);
    StaysPut(m);
    hide Read, OnFlash, RunSlot, Moves, Seal, Validate;
    if Read(OnFlash(f, acts)) != m {
      var i :| 0 <= i < |acts| && acts[i].Persist? && Read(OnFlash(f, acts)) == Seal(acts[i].m);
      ValidOfMoves(m, acts[i].m);
      SealIdempotent(acts[i].m);
    }
  }

  lemma NotPendingAgain(m: Metadata, m': Metadata, slot: u32)
    requires Moves(m, m')
    ensures IsPending(m', slot) ==> IsPending(m, slot)
    ensures IsPending(m', m'.active) ==> IsPending(m, m.active)
  {
  }

  /** A boot that starts a candidate on probation found it fresh, and leaves it spent, however it is interrupted. */
  lemma TrialSpends(f: Flash, p: Policy, env: BootEnv, slot: u32)
    requires Careful(Read(f), BootUp(p, env)) && IsSlot(slot)
    requires CountStarts(BootActions(Read(f), p, env), slot) > 0
    ensures CountStarts(BootActions(Read(f), p, env), slot) == 1 && IsPending(Read(f), slot)
    ensures var m' := Read(OnFlash(f, BootActions(Read(f), p, env)));
            !IsPending(m', slot) && !IsPending(m', m'.active)
  {
    var m, acts := Read(f), BootActions(Read(f), p, env);
    var (_, m1, d) := OnBoot(m, p);
    hide Read, OnBoot, BootActions, RunSlot, Validate, Moves, OnFlash, Write, CountStarts;
    ReadValid(f);
    BootDecides(m, p);
    BootStarts(m, p, env);
    OneStart(acts, StartIndex(d), slot);
    BeforeStart(f, m1, RunSlot(m1, d, p, env));
    ValidOfMoves(m, m1);
    WriteValid(f, m1);
    AfterDecision(Write(f, m1, Complete).1, m1, d, p, env);
    NotPendingAgain(m1, Read(OnFlash(f, acts)), slot);
  }

  lemma UpdateTries(f: Flash, s: Session, slot: u32, n: nat)
    requires s.Update? && TriedOnce(Read(f), n, slot)
    ensures TriedOnce(Read(AfterSession(f, s)), Counted(f, n, s, slot), slot)
  {
    var m, m' := Read(f), Read(AfterSession(f, s));
    SessionSteps(f, s);
    OneStart(SessionActions(m, s), -1, slot);
    hide Read, OnFlash, AfterSession, SessionActions, ApplyEdits, Arms, CountStarts, IsPending;
    if m' == ApplyEdits(m, s.edits) && IsPending(m', slot) {
      EditsArm(m, s.edits, slot);
    }
  }

  lemma BootTries(f: Flash, s: Session, slot: u32, n: nat)
    requires s.BootUp? && Careful(Read(f), s) && IsSlot(slot) && TriedOnce(Read(f), n, slot)
    ensures TriedOnce(Read(AfterSession(f, s)), Counted(f, n, s, slot), slot)
  {
    var m, m' := Read(f), Read(AfterSession(f, s));
    SessionSteps(f, s);
    hide Read, OnFlash, BootActions, CountStarts, Moves, IsPending, Careful;
    if CountStarts(SessionActions(m, s), slot) > 0 {
      TrialSpends(f, s.policy, s.env, slot);
    }
    NotPendingAgain(m, m', slot);
  }

  lemma {:induction false} RunTries(d: Device, ss: seq<Session>)
    requires CarefulRun(d, ss)
    requires TriedOnce(Read(d.flash), d.trials.a, SLOT_A) && TriedOnce(Read(d.flash), d.trials.b, SLOT_B)
    ensures RunDevice(d, ss).trials.a <= 1 && RunDevice(d, ss).trials.b <= 1
    decreases |ss|
  {
    if ss != [] {
      hide Read, AfterSession, Counted, IsPending, Careful, TriedOnce;
      if ss[0].Update? {
        UpdateTries(d.flash, ss[0], SLOT_A, d.trials.a);
        UpdateTries(d.flash, ss[0], SLOT_B, d.trials.b);
      } else {
        BootTries(d.flash, ss[0], SLOT_A, d.trials.a);
        BootTries(d.flash, ss[0], SLOT_B, d.trials.b);
      }
      RunTries(NextDevice(d, ss[0]), ss[1..]);
    }
  }

  /** Over every run from the factory state, installs and power cuts anywhere, no candidate is tried twice. */
  lemma AtMostOneTrial(d: Device, ss: seq<Session>)
    requires Factory(d) && CarefulRun(d, ss)
    ensures RunDevice(d, ss).trials.a <= 1 && RunDevice(d, ss).trials.b <= 1
  {
    hide Read, RunDevice, CarefulRun, Init, HasRecord, Sound;
    FactoryBlock(d);
    RunTries(d, ss);
  }

  // ---- where the bound on trials stops

  /** A boot on which nothing goes wrong before the guest's first run, which then loses power. */
  predicate CutInGuest(env: BootEnv) {
    && env.decisionWrite.Complete? && !env.powerLossBeforeGuest && env.load == OK && env.extract == OK
    && env.authorize == OK && env.guest.PowerLoss?
  }

  /** An abandoned candidate is started again exactly when the policy does not fail running candidates. */
  lemma WithoutFailRunning(m: Metadata, p: Policy, env: BootEnv)
    requires Valid(m) && InState(m, m.active, RUNNING_PENDING)
    requires !env.powerLossBeforeGuest && LoadStatus(m, m.active, env) == OK && env.authorize == OK
    requires env.decisionWrite.Complete?
    ensures p.failRunning <==> CountStarts(BootActions(m, p, env), m.active) == 0
  {
    var (_, m1, d) := OnBoot(m, p);
    var acts := BootActions(m, p, env);
    BootDecides(m, p);
    BootStarts(m, p, env);
    OneStart(acts, StartIndex(d), m.active);
    if !p.failRunning {
      assert d.kind == RunCandidate;
      hide OnBoot, Validate, Confirm, FailRuntime, Moves, CountStarts;
      assert acts == RunGuest(m, d, p, env);
      assert acts[0] == GuestStart(m.active, true);
    }
    hide OnBoot, BootActions, CountStarts, Validate, Moves;
  }

  lemma TrialActions(m: Metadata, p: Policy, env: BootEnv)
    requires Valid(m) && IsPending(m, m.active) && m.boots < Budget(p) && CutInGuest(env) && Matches(m, m.active, env)
    ensures var m1 := OnBoot(m, p).1;
            && BootActions(m, p, env) == [Persist(m1, Complete), GuestStart(m.active, true)]
            && Valid(m1) && m1.generation == Next(m.generation) && !IsPending(m1, m.active)
  {
    BootDecides(m, p);
    assert OnBoot(m, p).2.kind == RunCandidate;
    hide OnBoot, Validate, FailRuntime, ConfirmActions, Moves;
  }

  lemma TrialEffect(f: Flash, m1: Metadata, slot: u32)
    ensures var acts := [Persist(m1, Complete), GuestStart(slot, true)];
            OnFlash(f, acts) == Write(f, m1, Complete).1 && CountStarts(acts, slot) == 1
  {
    hide Write;
    var start := [GuestStart(slot, true)];
    assert [Persist(m1, Complete), GuestStart(slot, true)][1..] == start;
    assert OnFlash(Write(f, m1, Complete).1, start) == Write(f, m1, Complete).1;
    assert CountStarts(start, slot) == 1;
  }

  /** A candidate whose first run loses power is offered again exactly when the generation counter has run out. */
  lemma WrapRepeatsTrial(f: Flash, p: Policy, env: BootEnv)
    requires IsPending(Read(f), Read(f).active) && Read(f).boots < Budget(p)
    requires CutInGuest(env) && Matches(Read(f), Read(f).active, env)
    ensures var m := Read(f);
            var acts := BootActions(m, p, env);
            && CountStarts(acts, m.active) == 1
            && (Read(OnFlash(f, acts)) == m <==> m.generation == MAX_U32)
  {
    var m := Read(f);
    ReadValid(f);
    TrialActions(m, p, env);
    var m1 := OnBoot(m, p).1;
    hide Read, Write, OnBoot, BootActions, Validate, OnFlash, CountStarts, CutInGuest;
    TrialEffect(f, m1, m.active);
    WriteValid(f, m1);
  }

  // ---- the journal behaves as an ideal cell, as long as the 32-bit counter has room

  /** Every write of the list replaces an older generation, or changes nothing. */
  predicate Ordered(m: Metadata, acts: seq<Action>)
    decreases |acts|
  {
    acts == [] ||
    (&& (acts[0].Persist? ==>
           && acts[0].m.magic == MAGIC && acts[0].m.version == VERSION
           && (Seal(acts[0].m) == m || acts[0].m.generation > m.generation))
     && Ordered(OnCell(m, acts[..1]), acts[1..]))
  }

  /** Flash with torn writes refines the cell. */
  lemma {:induction false} FlashRefinesCell(f: Flash, acts: seq<Action>)
    requires Ordered(Read(f), acts)
    ensures Read(OnFlash(f, acts)) == OnCell(Read(f), acts)
    decreases |acts|
  {
    hide Write, Read, Seal, Landed, OnFlash, OnCell, Ordered;
    if acts == [] {
      NoAction(f, Read(f));
    } else {
      FirstAction(f, Read(f), acts);
      if acts[0].Persist? {
        OneWrite(f, acts[0].m, acts[0].fate);
        FlashRefinesCell(Write(f, acts[0].m, acts[0].fate).1, acts[1..]);
      } else {
        FlashRefinesCell(f, acts[1..]);
      }
    }
  }

  lemma NoAction(f: Flash, m: Metadata)
    ensures OnFlash(f, []) == f && OnCell(m, []) == m
  {
  }

  lemma FirstOnCell(m: Metadata, acts: seq<Action>)
    requires acts != []
    ensures OnCell(m, acts[..1]) == if acts[0].Persist? && Landed(acts[0].fate) then Seal(acts[0].m) else m
  {
    hide Seal, Landed;
    var m1 := if acts[0].Persist? && Landed(acts[0].fate) then Seal(acts[0].m) else m;
    var one := acts[..1];
    assert one[1..] == [] && one[0] == acts[0];
    assert OnCell(m, one) == OnCell(m1, []) == m1;
  }

  lemma FirstAction(f: Flash, m: Metadata, acts: seq<Action>)
    requires acts != [] && Ordered(m, acts)
    ensures var m1 := if acts[0].Persist? && Landed(acts[0].fate) then Seal(acts[0].m) else m;
            var f1 := if acts[0].Persist? then Write(f, acts[0].m, acts[0].fate).1 else f;
            && OnFlash(f, acts) == OnFlash(f1, acts[1..]) && OnCell(m, acts) == OnCell(m1, acts[1..])
            && Ordered(m1, acts[1..])
    ensures acts[0].Persist? ==>
              && acts[0].m.magic == MAGIC && acts[0].m.version == VERSION
              && (Seal(acts[0].m) == m || acts[0].m.generation > m.generation)
  {
    FirstOnCell(m, acts);
    hide Write, Seal, Landed;
  }

  function Growth(s: Session): nat {
    match s
    case Update(edits, _) => |edits|
    case BootUp(_, _) => 2
  }

  predicate Room(m: Metadata, s: Session) {
    m.generation + Growth(s) <= MAX_U32
  }

  lemma EditGrows(m: Metadata, e: Edit)
    ensures ApplyEdit(m, e) == m || ApplyEdit(m, e).generation == Next(m.generation)
  {
    hide BundleMetadata.Checksum, Validate, VerifyUnder;
  }

  lemma {:induction false} EditsGrow(m: Metadata, es: seq<Edit>)
    requires m.generation + |es| <= MAX_U32
    ensures var m' := ApplyEdits(m, es);
            (m' == m || m'.generation > m.generation) && m'.generation <= m.generation + |es|
    decreases |es|
  {
    if es != [] {
      EditGrows(m, es[0]);
      hide ApplyEdit;
      EditsGrow(ApplyEdit(m, es[0]), es[1..]);
    }
  }

  /** Only the last action writes, and what it writes is the same block or a younger one. */
  predicate WritesLast(m: Metadata, acts: seq<Action>) {
    forall i | 0 <= i < |acts| && acts[i].Persist? ::
      i == |acts| - 1 && Valid(acts[i].m) && (acts[i].m == m || acts[i].m.generation > m.generation)
  }

  lemma {:induction false} WritesLastOrdered(m: Metadata, acts: seq<Action>)
    requires Valid(m) && WritesLast(m, acts)
    ensures Ordered(m, acts)
    decreases |acts|
  {
    if acts != [] {
      FirstOnCell(m, acts);
      SealIdempotent(m);
      hide Seal, Landed, OnCell;
      if acts[0].Persist? {
        assert acts[1..] == [];
      } else {
        assert forall i :: 0 <= i < |acts[1..]| ==> acts[1..][i] == acts[i + 1];
        hide Valid;
        WritesLastOrdered(m, acts[1..]);
      }
    }
  }

  lemma FollowsOrdered(m: Metadata, d: Decision, acts: seq<Action>)
    requires Valid(m) && Follows(m, d, acts) && m.generation < MAX_U32
    ensures Ordered(m, acts)
  {
    forall i | 0 <= i < |acts| && acts[i].Persist?
      ensures Valid(acts[i].m)
    {
      ValidOfMoves(m, acts[i].m);
    }
    hide Moves, Validate, Ordered;
    WritesLastOrdered(m, acts);
  }

  lemma OrderedPersistFirst(m: Metadata, m1: Metadata, rest: seq<Action>)
    requires Valid(m1) && m1.generation > m.generation && Ordered(m1, rest)
    ensures Ordered(m, [Persist(m1, Complete)] + rest)
  {
    var acts := [Persist(m1, Complete)] + rest;
    assert acts[1..] == rest;
    SealIdempotent(m1);
    FirstOnCell(m, acts);
    hide Seal, OnCell;
  }

  lemma BootOrdered(m: Metadata, p: Policy, env: BootEnv)
    requires Valid(m) && m.generation + 2 <= MAX_U32
    ensures Ordered(m, BootActions(m, p, env))
  {
    var (_, m1, d) := OnBoot(m, p);
    BootDecides(m, p);
    BootActionsAre(m, p, env);
    hide OnBoot, BootActions, RunSlot, Moves, Validate, Ordered;
    ValidOfMoves(m, m1);
    RunFollows(m1, d, p, env);
    FollowsOrdered(m1, d, RunSlot(m1, d, p, env));
    if d.changed {
      OrderedPersistFirst(m, m1, RunSlot(m1, d, p, env));
      WritesLastOrdered(m, [Persist(m1, env.decisionWrite)]);
    }
  }

  lemma SessionOrdered(m: Metadata, s: Session)
    requires Valid(m) && Room(m, s)
    ensures Ordered(m, SessionActions(m, s))
  {
    match s
    case BootUp(policy, env) => BootOrdered(m, policy, env);
    case Update(edits, fate) =>
      EditsGrow(m, edits);
      EditsValid(m, edits);
      WritesLastOrdered(m, [Persist(ApplyEdits(m, edits), fate)]);
  }

  /** A session with room in the counter acts on flash as on a cell, whatever flash holds and wherever power is lost. */
  lemma SessionRefinesCell(f: Flash, s: Session)
    requires Room(Read(f), s)
    ensures Read(AfterSession(f, s)) == OnCell(Read(f), SessionActions(Read(f), s))
  {
    hide Read, SessionActions, OnFlash, OnCell, Ordered, Validate;
    ReadValid(f);
    SessionOrdered(Read(f), s);
    FlashRefinesCell(f, SessionActions(Read(f), s));
  }
}
