/** What boots start in the end: the chosen slot is verified under the stored block before its guest runs. */
module BootOutcome {
  import opened Words
  import opened Status
  import opened BundleMetadata
  import opened Activation
  import opened SlotInvariant
  import opened Journal
  import opened BootProtocol
  import opened BootSafety

  // ---- verification of the chosen slot, with the floor taken from the block just read

  /** The slot partition holds this bundle, and loading it ends as its verification does. */
  predicate Verifies(m: Metadata, b: Bundle, env: BootEnv) {
    env.load == VerifyUnder(m, b).status && env.payloadSha == b.sha && env.extract == OK
  }

  /** Nothing but loading can keep the guest from starting. */
  predicate Undisturbed(env: BootEnv) {
    env.decisionWrite.Complete? && !env.powerLossBeforeGuest && env.authorize == OK
  }

  /** No other filled slot, even a failed one, has a larger counter. */
  predicate NotBehind(m: Metadata, slot: u32)
    requires IsSlot(slot)
  {
    var other := Record(m, if slot == SLOT_A then SLOT_B else SLOT_A);
    other.state == EMPTY || other.counter <= Record(m, slot).counter
  }

  /** The bundle passes every other check, and has the counter and the payload that its slot has on record. */
  predicate Holds(m: Metadata, slot: u32, b: Bundle)
    requires IsSlot(slot)
  {
    b.checks == OK && b.counter == Record(m, slot).counter && b.sha == Record(m, slot).sha
  }

  /** The counter check admits a slot's own bundle exactly when no other filled slot, even a failed one, is ahead. */
  lemma SlotReadmitted(m: Metadata, slot: u32, b: Bundle)
    requires IsSlot(slot) && Holds(m, slot, b) && Record(m, slot).state != EMPTY
    ensures VerifyUnder(m, b).status == OK <==> NotBehind(m, slot)
  {
  }

  predicate NoStart(acts: seq<Action>) {
    forall i | 0 <= i < |acts| :: !acts[i].GuestStart?
  }

  lemma ChosenIsFilled(m: Metadata, p: Policy)
    requires Valid(m) && OnBoot(m, p).2.slotToRun != SLOT_NONE
    ensures var d := OnBoot(m, p).2;
            !d.kind.NoBundle? && IsSlot(d.slotToRun) && Record(m, d.slotToRun).state != EMPTY
  {
    hide Bump, Validate, Budget;
  }

  lemma SameLoad(m: Metadata, m1: Metadata, slot: u32, env: BootEnv)
    requires Moves(m, m1)
    ensures LoadStatus(m1, slot, env) == LoadStatus(m, slot, env)
    ensures Valid(m1)
  {
  }

  lemma UnloadedStartsNothing(m: Metadata, p: Policy, env: BootEnv)
    requires Valid(m) && LoadStatus(m, OnBoot(m, p).2.slotToRun, env) != OK
    ensures NoStart(BootActions(m, p, env))
  {
    hide OnBoot, BootActions, FailRuntime, RunGuest, LoadStatus, Validate, Moves, RunsRecorded;
    var (_, m1, d) := OnBoot(m, p);
    BootActionsAre(m, p, env);
    BootDecides(m, p);
    ValidOfMoves(m, m1);
    SameLoad(m, m1, d.slotToRun, env);
    FailFollows(m1, d, LoadStatus(m1, d.slotToRun, env), env.outcomeWrite);
  }

  lemma LoadedStarts(m: Metadata, p: Policy, env: BootEnv)
    requires Valid(m) && OnBoot(m, p).2.slotToRun != SLOT_NONE && Undisturbed(env)
    requires LoadStatus(m, OnBoot(m, p).2.slotToRun, env) == OK
    ensures var (d, acts) := (OnBoot(m, p).2, BootActions(m, p, env));
            StartIndex(d) < |acts| && acts[StartIndex(d)] == GuestStart(d.slotToRun, d.probation)
  {
    var (_, m1, d) := OnBoot(m, p);
    ChosenIsFilled(m, p);
    BootActionsAre(m, p, env);
    BootDecides(m, p);
    SameLoad(m, m1, d.slotToRun, env);
    hide OnBoot, BootActions, AfterStart, FailRuntime, LoadStatus, Validate, Moves;
  }

  /** A slot whose bundle has another payload than the one on record is not started, whatever else happens. */
  lemma OtherPayloadRefused(m: Metadata, p: Policy, env: BootEnv)
    requires Valid(m) && !Matches(m, OnBoot(m, p).2.slotToRun, env)
    ensures NoStart(BootActions(m, p, env))
  {
    UnloadedStartsNothing(m, p, env);
    hide OnBoot, BootActions, Validate;
  }

  /** On any valid block and under any policy: the slot that a boot chose is started exactly when it is not behind. */
  lemma ChosenSlotStarts(m: Metadata, p: Policy, env: BootEnv, b: Bundle)
    requires Valid(m) && OnBoot(m, p).2.slotToRun != SLOT_NONE && Undisturbed(env) && Verifies(m, b, env)
    requires IsSlot(OnBoot(m, p).2.slotToRun) ==> Holds(m, OnBoot(m, p).2.slotToRun, b)
    ensures IsSlot(OnBoot(m, p).2.slotToRun)
    ensures var (d, acts) := (OnBoot(m, p).2, BootActions(m, p, env));
            if NotBehind(m, d.slotToRun)
            then StartIndex(d) < |acts| && acts[StartIndex(d)] == GuestStart(d.slotToRun, d.probation)
            else NoStart(acts)
  {
    ChosenIsFilled(m, p);
    SlotReadmitted(m, OnBoot(m, p).2.slotToRun, b);
    hide OnBoot, BootActions, Validate, VerifyUnder;
    if env.load == OK {
      LoadedStarts(m, p, env);
    } else {
      UnloadedStartsNothing(m, p, env);
    }
  }

  /** After an abandoned candidate, the last good slot is started exactly when the candidate's counter is not larger. */
  lemma FallbackStarts(m: Metadata, p: Policy, env: BootEnv, b: Bundle)
    requires Sound(m) && InState(m, m.active, RUNNING_PENDING) && p.failRunning && m.lastGood != SLOT_NONE
    requires Undisturbed(env) && Verifies(m, b, env) && Holds(m, m.lastGood, b)
    ensures var acts := BootActions(m, p, env);
            (exists i :: 0 <= i < |acts| && acts[i] == GuestStart(m.lastGood, false))
            <==> Record(m, m.active).counter <= Record(m, m.lastGood).counter
  {
    RollbackFields(m, m.active, ERR_NOT_SYNCHRONIZED);
    hide Rollback, Validate;
    assert OnBoot(m, p).2.slotToRun == m.lastGood && !OnBoot(m, p).2.probation;
    hide OnBoot, BootActions, VerifyUnder;
    ChosenSlotStarts(m, p, env, b);
  }

  /** Over every run that installs aside: the next boot selects a slot, and starts it exactly when it is not behind. */
  lemma GoodSlotRuns(d: Device, ss: seq<Session>, p: Policy, env: BootEnv, b: Bundle)
    requires Sound(Read(d.flash)) && InstallsAside(d, ss) && Read(d.flash).lastGood != SLOT_NONE
    requires var m := Read(RunDevice(d, ss).flash);
             var slot := OnBoot(m, p).2.slotToRun;
             Undisturbed(env) && Verifies(m, b, env) && (IsSlot(slot) ==> Holds(m, slot, b))
    ensures var m := Read(RunDevice(d, ss).flash);
            var (decision, acts) := (OnBoot(m, p).2, BootActions(m, p, env));
            && IsSlot(decision.slotToRun)
            && if NotBehind(m, decision.slotToRun)
               then StartIndex(decision) < |acts|
                    && acts[StartIndex(decision)] == GuestStart(decision.slotToRun, decision.probation)
               else NoStart(acts)
  {
    hide Read, RunDevice, InstallsAside, OnBoot, BootActions, Verifies, Undisturbed, NotBehind, Validate, SlotInv;
    GoodSlotKept(d, ss, p);
    ReadValid(RunDevice(d, ss).flash);
    ChosenSlotStarts(Read(RunDevice(d, ss).flash), p, env, b);
  }

  // ---- a bundle below the floor, over whole runs

  /** Every boot of the run finds this bundle in the slot that it verifies. */
  predicate BootsVerify(d: Device, b: Bundle, ss: seq<Session>)
    decreases |ss|
  {
    ss == [] ||
    ((ss[0].BootUp? ==> Verifies(Read(d.flash), b, ss[0].env)) && BootsVerify(NextDevice(d, ss[0]), b, ss[1..]))
  }

  predicate NothingStarts(d: Device, ss: seq<Session>)
    decreases |ss|
  {
    ss == [] || (NoStart(SessionActions(Read(d.flash), ss[0])) && NothingStarts(NextDevice(d, ss[0]), ss[1..]))
  }

  lemma BelowFloor(m: Metadata, b: Bundle)
    requires b.counter < SecurityFloor(m)
    ensures VerifyUnder(m, b).status != OK
  {
  }

  lemma RefusedOnce(f: Flash, b: Bundle, s: Session)
    requires b.counter < SecurityFloor(Read(f)) && (s.BootUp? ==> Verifies(Read(f), b, s.env))
    ensures NoStart(SessionActions(Read(f), s))
    ensures b.counter < SecurityFloor(Read(AfterSession(f, s)))
  {
    hide Read, AfterSession, BootActions, ApplyEdits, SecurityFloor, VerifyUnder, Validate;
    SessionRaisesFloor(f, s);
    if s.BootUp? {
      ReadValid(f);
      BelowFloor(Read(f), b);
      UnloadedStartsNothing(Read(f), s.policy, s.env);
    }
  }

  /** A bundle that once fell below the floor is never started again, in whatever sessions follow. */
  lemma {:induction false} RefusedForever(d: Device, b: Bundle, ss: seq<Session>)
    requires b.counter < SecurityFloor(Read(d.flash)) && BootsVerify(d, b, ss)
    ensures NothingStarts(d, ss)
    decreases |ss|
  {
    if ss != [] {
      hide Read, AfterSession, SessionActions, SecurityFloor, Counted, Verifies, NoStart;
      RefusedOnce(d.flash, b, ss[0]);
      RefusedForever(NextDevice(d, ss[0]), b, ss[1..]);
    }
  }

  // ---- after the trial: confirmed slots or nothing

  predicate FailingBoots(ss: seq<Session>) {
    forall s <- ss :: s.BootUp? && s.policy.failRunning
  }

  lemma StaysNotFresh(d: Device, ss: seq<Session>)
    requires ss != [] && FailingBoots(ss) && !IsPending(Read(d.flash), Read(d.flash).active)
    ensures var m' := Read(NextDevice(d, ss[0]).flash);
            !IsPending(m', m'.active)
    ensures FailingBoots(ss[1..])
  {
    hide Read, AfterSession, IsPending, Moves, Counted;
    assert ss[0] in ss;
    SessionSteps(d.flash, ss[0]);
    NotPendingAgain(Read(d.flash), Read(AfterSession(d.flash, ss[0])), SLOT_A);
  }

  lemma {:induction false} NoneBecomesFresh(d: Device, ss: seq<Session>)
    requires FailingBoots(ss) && !IsPending(Read(d.flash), Read(d.flash).active)
    ensures var m' := Read(RunDevice(d, ss).flash);
            !IsPending(m', m'.active)
    decreases |ss|
  {
    hide Read, NextDevice, IsPending, FailingBoots;
    if ss != [] {
      StaysNotFresh(d, ss);
      NoneBecomesFresh(NextDevice(d, ss[0]), ss[1..]);
    }
  }

  lemma ConfirmedStart(f: Flash, p: Policy, env: BootEnv, i: nat)
    requires !IsPending(Read(f), Read(f).active) && p.failRunning
    requires i < |BootActions(Read(f), p, env)| && BootActions(Read(f), p, env)[i].GuestStart?
    ensures var acts := BootActions(Read(f), p, env);
            !acts[i].probation && InState(Read(OnFlash(f, acts[..i])), acts[i].slot, CONFIRMED)
  {
    ReadValid(f);
    BootDecides(Read(f), p);
    BootStarts(Read(f), p, env);
    hide Read, OnBoot, BootActions, OnFlash, Moves, Validate;
    DurableBeforeGuest(f, p, env, i);
  }

  /** Once a boot has started a candidate on probation, every later boot starts a confirmed slot or nothing. */
  lemma ConfirmedAfterTrial(
      d: Device, slot: u32, p: Policy, env: BootEnv, later: seq<Session>, p': Policy, env': BootEnv, i: nat)
    requires Careful(Read(d.flash), BootUp(p, env)) && IsSlot(slot)
    requires CountStarts(BootActions(Read(d.flash), p, env), slot) > 0
    requires FailingBoots(later) && p'.failRunning
    ensures var f := RunDevice(d, [BootUp(p, env)] + later).flash;
            var acts := BootActions(Read(f), p', env');
            i < |acts| && acts[i].GuestStart? ==>
              !acts[i].probation && InState(Read(OnFlash(f, acts[..i])), acts[i].slot, CONFIRMED)
  {
    hide Read, BootActions, OnFlash, CountStarts, Careful, IsPending, Counted, FailingBoots;
    TrialSpends(d.flash, p, env, slot);
    var ss := [BootUp(p, env)] + later;
    assert ss[1..] == later;
    assert RunDevice(d, ss) == RunDevice(NextDevice(d, BootUp(p, env)), later);
    NoneBecomesFresh(NextDevice(d, BootUp(p, env)), later);
    var f := RunDevice(d, ss).flash;
    if i < |BootActions(Read(f), p', env')| && BootActions(Read(f), p', env')[i].GuestStart? {
      ConfirmedStart(f, p', env', i);
    }
  }
}
