/** Runs from the factory state: bounds that are reached, and what happens where a condition is left out. */
module BootRuns {
  import opened Words
  import opened Status
  import opened BundleMetadata
  import opened Activation
  import opened SlotInvariant
  import opened Journal
  import opened BootProtocol
  import opened BootSafety
  import opened BootOutcome

  // ---- one candidate: the bound on trials is reached, and broken at the last generation

  /** The same bundle installed some number of times. */
  function Installs(b: Bundle, n: nat): seq<Edit> {
    if n == 0 then [] else [InstallBundle(SLOT_A, b)] + Installs(b, n - 1)
  }

  /** Installing, any number of times, and then preparing. */
  function FirstUpdate(b: Bundle, n: nat): Session {
    Update(Installs(b, n) + [PrepareSlot(SLOT_A)], Complete)
  }

  /** The slot holds this bundle, and its first run loses power. */
  predicate CutRun(env: BootEnv, b: Bundle) {
    CutInGuest(env) && env.payloadSha == b.sha
  }

  predicate Accepted(b: Bundle) {
    b.checks == OK && b.payloadHashOk
  }

  /** The slot record says that the slot holds this bundle. */
  predicate InSlot(r: SlotRecord, b: Bundle) {
    r.counter == b.counter && r.sha == b.sha && r.version == b.version
  }

  /** No slot is active yet, and the given bundle may go into the first slot. */
  predicate Fresh(m: Metadata, b: Bundle) {
    && Valid(m) && m.active == SLOT_NONE && m.lastGood == SLOT_NONE && m.b.state == EMPTY
    && (m.a.state == EMPTY || InSlot(m.a, b))
  }

  lemma InstallAgain(m: Metadata, b: Bundle)
    requires Fresh(m, b) && Accepted(b) && m.generation < MAX_U32
    ensures var m' := ApplyEdit(m, InstallBundle(SLOT_A, b));
            Fresh(m', b) && m'.a.state == VERIFIED && m'.generation == m.generation + 1
  {
    EditValid(m, InstallBundle(SLOT_A, b));
    hide BundleMetadata.Checksum, Validate;
  }

  lemma {:induction false} EditsAppend(m: Metadata, x: seq<Edit>, y: seq<Edit>)
    ensures ApplyEdits(m, x + y) == ApplyEdits(ApplyEdits(m, x), y)
    decreases |x|
  {
    if x == [] {
      assert x + y == y;
    } else {
      assert (x + y)[1..] == x[1..] + y;
      hide ApplyEdit;
      EditsAppend(ApplyEdit(m, x[0]), x[1..], y);
    }
  }

  lemma FirstOfInstalls(m: Metadata, b: Bundle, n: nat)
    requires n > 0
    ensures ApplyEdits(m, Installs(b, n)) == ApplyEdits(ApplyEdit(m, InstallBundle(SLOT_A, b)), Installs(b, n - 1))
  {
    assert Installs(b, n)[1..] == Installs(b, n - 1);
    hide ApplyEdit;
  }

  lemma {:induction false} ManyInstalls(m: Metadata, b: Bundle, n: nat)
    requires Fresh(m, b) && Accepted(b) && m.generation + n <= MAX_U32 && (n == 0 ==> m.a.state == VERIFIED)
    ensures var m' := ApplyEdits(m, Installs(b, n));
            Fresh(m', b) && m'.a.state == VERIFIED && m'.generation == m.generation + n
    decreases n
  {
    hide ApplyEdit, Fresh;
    if n > 0 {
      hide ApplyEdits, Installs;
      FirstOfInstalls(m, b, n);
      InstallAgain(m, b);
      ManyInstalls(ApplyEdit(m, InstallBundle(SLOT_A, b)), b, n - 1);
    }
  }

  /** The first slot holds the bundle as a fresh candidate, and nothing else is there. */
  predicate FirstCandidate(m: Metadata, b: Bundle) {
    && Valid(m) && m.active == SLOT_A && m.lastGood == SLOT_NONE && m.boots == 0
    && m.a.state == PENDING && InSlot(m.a, b) && m.b.state == EMPTY
  }

  lemma PrepareFresh(m: Metadata, b: Bundle)
    requires Fresh(m, b) && m.a.state == VERIFIED && m.generation < MAX_U32
    ensures var m' := ApplyEdit(m, PrepareSlot(SLOT_A));
            FirstCandidate(m', b) && m'.generation == m.generation + 1
  {
    EditValid(m, PrepareSlot(SLOT_A));
    hide BundleMetadata.Checksum, Validate;
  }

  lemma InitFresh(b: Bundle)
    ensures Fresh(Init(), b) && Init().generation == 0
  {
    InitSound();
    hide BundleMetadata.Checksum, Validate, SlotInv;
  }

  lemma FirstEdits(b: Bundle, n: nat)
    requires Accepted(b) && 0 < n < MAX_U32
    ensures var m := ApplyEdits(Init(), FirstUpdate(b, n).edits);
            FirstCandidate(m, b) && m.generation == n + 1
  {
    hide Init, ApplyEdit, Fresh, Installs, Validate;
    var rest := [PrepareSlot(SLOT_A)];
    InitFresh(b);
    ManyInstalls(Init(), b, n);
    EditsAppend(Init(), Installs(b, n), rest);
    var m := ApplyEdits(Init(), Installs(b, n));
    PrepareFresh(m, b);
    assert rest[1..] == [];
    assert ApplyEdits(m, rest) == ApplyEdit(m, PrepareSlot(SLOT_A));
  }

  lemma AfterFirstUpdate(d: Device, b: Bundle, n: nat)
    requires Factory(d) && Accepted(b) && 0 < n < MAX_U32
    ensures var d1 := NextDevice(d, FirstUpdate(b, n));
            var m := Read(d1.flash);
            FirstCandidate(m, b) && m.generation == n + 1 && d1.trials == Trials(0, 0)
  {
    hide Read, Init, HasRecord, ApplyEdits, Sound, Validate, Installs, Write, Seal, Rearms;
    var s := FirstUpdate(b, n);
    var m := ApplyEdits(Init(), s.edits);
    FactoryBlock(d);
    FirstEdits(b, n);
    var acts := [Persist(m, Complete)];
    OneStart(acts, -1, SLOT_A);
    OneStart(acts, -1, SLOT_B);
    BeforeStart(d.flash, m, []);
    assert acts + [] == acts;
    PersistOnBlank(d.flash, m);
  }

  lemma PersistOnBlank(f: Flash, m: Metadata)
    requires !HasRecord(f) && Valid(m)
    ensures Read(Write(f, m, Complete).1) == m
  {
    SealIdempotent(m);
    Atomic(f, m, Complete);
    hide Read, Write, Seal, HasRecord;
  }

  /** The effect of a boot that is cut in the candidate's first run. */
  lemma CutBoot(d: Device, p: Policy, env: BootEnv)
    requires Read(d.flash).active == SLOT_A && IsPending(Read(d.flash), SLOT_A) && Read(d.flash).boots < Budget(p)
    requires CutInGuest(env) && Matches(Read(d.flash), SLOT_A, env)
    ensures NextDevice(d, BootUp(p, env)).trials.a == d.trials.a + 1
    ensures Read(NextDevice(d, BootUp(p, env)).flash) == Read(d.flash) <==> Read(d.flash).generation == MAX_U32
  {
    hide Read, BootActions, OnFlash, CountStarts, CutInGuest, Matches, Budget;
    WrapRepeatsTrial(d.flash, p, env);
  }

  /** A device whose first candidate loses power in its first run has used up the one trial. */
  lemma TrialHappens(d: Device, b: Bundle, p: Policy, env: BootEnv)
    requires Factory(d) && Accepted(b) && p.failRunning && CutRun(env, b)
    ensures var ss := [FirstUpdate(b, 1), BootUp(p, env)];
            CarefulRun(d, ss) && RunDevice(d, ss).trials.a == 1
  {
    hide Read, Factory, NextDevice, FirstUpdate;
    AfterFirstUpdate(d, b, 1);
    var s, t := FirstUpdate(b, 1), BootUp(p, env);
    assert [s, t][1..] == [t] && [t][1..] == [];
    CutBoot(NextDevice(d, s), p, env);
    UpdateIsCareful(d, b, 1);
    assert CarefulRun(NextDevice(NextDevice(d, s), t), []);
    assert CarefulRun(NextDevice(d, s), [t]);
    assert RunDevice(NextDevice(d, s), [t]) == NextDevice(NextDevice(d, s), t);
  }

  lemma UpdateIsCareful(d: Device, b: Bundle, n: nat)
    ensures Careful(Read(d.flash), FirstUpdate(b, n))
  {
  }

  /** From the factory state: at the last generation the same candidate is started in two boots, whatever the policy. */
  lemma TwoTrialsAtWrap(d: Device, b: Bundle, p: Policy, env: BootEnv)
    requires Factory(d) && Accepted(b) && CutRun(env, b)
    ensures RunDevice(d, [FirstUpdate(b, MAX_U32 - 1), BootUp(p, env), BootUp(p, env)]).trials.a == 2
  {
    hide Read, Factory, NextDevice, FirstUpdate;
    var s, t := FirstUpdate(b, MAX_U32 - 1), BootUp(p, env);
    AfterFirstUpdate(d, b, MAX_U32 - 1);
    CutBoot(NextDevice(d, s), p, env);
    CutBoot(NextDevice(NextDevice(d, s), t), p, env);
    ThreeSessions(d, s, t, t);
  }

  /** From the factory state: when boots do not fail running candidates, the same candidate is started in two boots. */
  lemma TwoTrialsWithoutFail(d: Device, b: Bundle, p: Policy, env: BootEnv)
    requires Factory(d) && Accepted(b) && CutRun(env, b) && !p.failRunning
    ensures RunDevice(d, [FirstUpdate(b, 1), BootUp(p, env), BootUp(p, env)]).trials.a == 2
  {
    hide Read, Factory, NextDevice, FirstUpdate;
    var s, t := FirstUpdate(b, 1), BootUp(p, env);
    AfterFirstUpdate(d, b, 1);
    CutBoot(NextDevice(d, s), p, env);
    CutBlock(NextDevice(d, s), b, p, env);
    StartedAgain(NextDevice(NextDevice(d, s), t), p, env);
    ThreeSessions(d, s, t, t);
  }

  lemma ThreeSessions(d: Device, s: Session, t: Session, u: Session)
    ensures RunDevice(d, [s, t, u]) == NextDevice(NextDevice(NextDevice(d, s), t), u)
  {
    hide NextDevice;
    assert [s, t, u][1..] == [t, u] && [t, u][1..] == [u] && [u][1..] == [];
    assert RunDevice(NextDevice(NextDevice(d, s), t), [u]) == NextDevice(NextDevice(NextDevice(d, s), t), u);
    assert RunDevice(NextDevice(d, s), [t, u]) == RunDevice(NextDevice(NextDevice(d, s), t), [u]);
  }

  lemma TrialFields(m: Metadata, b: Bundle, p: Policy)
    requires FirstCandidate(m, b)
    ensures var m1 := OnBoot(m, p).1;
            && Valid(m1) && m1.active == SLOT_A && InState(m1, SLOT_A, RUNNING_PENDING)
            && m1.generation == Next(m.generation)
            && m1.a == m.a.(state := RUNNING_PENDING) && m1.b == m.b && m1.lastGood == m.lastGood
            && OnBoot(m, p).2 == Decision(RunCandidate, SLOT_A, SLOT_A, m.lastGood, true, true, false, OK, 1)
  {
    BumpFields(WithState(m, SLOT_A, RUNNING_PENDING).(boots := 1));
    hide Bump, Validate;
  }

  /** The block that a candidate leaves whose first run was cut. */
  lemma CutBlock(d: Device, b: Bundle, p: Policy, env: BootEnv)
    requires FirstCandidate(Read(d.flash), b) && Read(d.flash).generation < MAX_U32 && CutRun(env, b)
    ensures var m' := Read(NextDevice(d, BootUp(p, env)).flash);
            m'.active == SLOT_A && InState(m', SLOT_A, RUNNING_PENDING) && Matches(m', SLOT_A, env)
  {
    var m := Read(d.flash);
    hide Read, OnBoot, BootActions, OnFlash, Validate;
    TrialFields(m, b, p);
    TrialActions(m, p, env);
    TrialEffect(d.flash, OnBoot(m, p).1, SLOT_A);
    WriteValid(d.flash, OnBoot(m, p).1);
  }

  lemma StartedAgain(d: Device, p: Policy, env: BootEnv)
    requires Read(d.flash).active == SLOT_A && InState(Read(d.flash), SLOT_A, RUNNING_PENDING)
    requires CutInGuest(env) && Matches(Read(d.flash), SLOT_A, env) && !p.failRunning
    ensures NextDevice(d, BootUp(p, env)).trials.a == d.trials.a + 1
  {
    var m := Read(d.flash);
    ReadValid(d.flash);
    BootStarts(m, p, env);
    OneStart(BootActions(m, p, env), StartIndex(OnBoot(m, p).2), SLOT_A);
    hide Read, OnBoot, BootActions, OnFlash, CountStarts, Validate;
    WithoutFailRunning(m, p, env);
  }

  // ---- two slots: a confirmed one, and what becomes of it

  /** A boot that runs its candidate to the end, and stores the confirmation. */
  predicate Healthy(env: BootEnv, b: Bundle) {
    && Undisturbed(env) && env.load == OK && env.payloadSha == b.sha && env.extract == OK
    && env.guest == Returned(OK) && env.outcomeWrite.Complete?
  }

  /** The first slot is confirmed, active and last good; the second is empty. */
  predicate OneGood(m: Metadata, b: Bundle) {
    && Valid(m) && m.active == SLOT_A && m.lastGood == SLOT_A && m.boots == 0
    && m.a.state == CONFIRMED && InSlot(m.a, b) && m.b.state == EMPTY
  }

  lemma ConfirmedFields(m: Metadata, b: Bundle, p: Policy, checks: u32)
    requires FirstCandidate(m, b) && m.generation + 2 <= MAX_U32 && checks != 0
    ensures var (status, m2) := Confirm(OnBoot(m, p).1, SLOT_A, checks);
            status == OK && OneGood(m2, b) && m2.generation == m.generation + 2
  {
    var m1 := OnBoot(m, p).1;
    TrialFields(m, b, p);
    BumpFields(WithState(m1, SLOT_A, CONFIRMED)
               .(active := SLOT_A, lastGood := SLOT_A, boots := 0, faults := 0, reason := OK));
    hide OnBoot, Bump, Validate;
  }

  lemma HealthyActions(m: Metadata, b: Bundle, p: Policy, env: BootEnv)
    requires FirstCandidate(m, b) && m.generation + 2 <= MAX_U32 && Healthy(env, b)
    ensures var m1 := OnBoot(m, p).1;
            BootActions(m, p, env) ==
            [Persist(m1, Complete), GuestStart(SLOT_A, true), Persist(Confirm(m1, SLOT_A, Checks(p)).1, Complete)]
  {
    ConfirmedFields(m, b, p, Checks(p));
    TrialFields(m, b, p);
    BootActionsAre(m, p, env);
    hide OnBoot, BootActions, Confirm, Validate, FailRuntime;
  }

  lemma ThreeOnCell(m: Metadata, m1: Metadata, slot: u32, m2: Metadata)
    requires Valid(m2)
    ensures OnCell(m, [Persist(m1, Complete), GuestStart(slot, true), Persist(m2, Complete)]) == m2
  {
    hide Seal, Validate;
    var acts := [Persist(m1, Complete), GuestStart(slot, true), Persist(m2, Complete)];
    assert acts[1..] == [GuestStart(slot, true), Persist(m2, Complete)];
    assert acts[1..][1..] == [Persist(m2, Complete)];
    OneOnCell(Seal(m1), m2);
    assert OnCell(Seal(m1), acts[1..]) == OnCell(Seal(m1), acts[1..][1..]);
  }

  lemma OneOnCell(m: Metadata, m1: Metadata)
    requires Valid(m1)
    ensures OnCell(m, [Persist(m1, Complete)]) == m1
  {
    SealIdempotent(m1);
    hide Seal, Validate;
    assert [Persist(m1, Complete)][1..] == [];
  }

  lemma HealthyBlock(d: Device, b: Bundle, p: Policy, env: BootEnv)
    requires FirstCandidate(Read(d.flash), b) && Read(d.flash).generation + 2 <= MAX_U32 && Healthy(env, b)
    ensures var m' := Read(NextDevice(d, BootUp(p, env)).flash);
            OneGood(m', b) && m'.generation == Read(d.flash).generation + 2
  {
    var m := Read(d.flash);
    ConfirmedFields(m, b, p, Checks(p));
    HealthyActions(m, b, p, env);
    hide Read, OnBoot, BootActions, OnFlash, OnCell, Confirm, FirstCandidate, OneGood;
    var m2 := Confirm(OnBoot(m, p).1, SLOT_A, Checks(p)).1;
    ValidGood(m2, b);
    ThreeOnCell(m, OnBoot(m, p).1, SLOT_A, m2);
    SessionRefinesCell(d.flash, BootUp(p, env));
  }

  lemma ValidGood(m: Metadata, b: Bundle)
    requires OneGood(m, b)
    ensures Valid(m)
  {
  }

  /** The device after its first candidate was installed, prepared, run and confirmed. */
  function Confirmed(d: Device, b: Bundle, p: Policy, env: BootEnv): Device {
    RunDevice(d, [FirstUpdate(b, 1), BootUp(p, env)])
  }

  lemma ConfirmedDevice(d: Device, b: Bundle, p: Policy, env: BootEnv)
    requires Factory(d) && Accepted(b) && Healthy(env, b)
    ensures OneGood(Read(Confirmed(d, b, p, env).flash), b) && Read(Confirmed(d, b, p, env).flash).generation == 4
  {
    hide Read, Factory, NextDevice, FirstUpdate, FirstCandidate, OneGood, Healthy;
    AfterFirstUpdate(d, b, 1);
    var s, t := FirstUpdate(b, 1), BootUp(p, env);
    assert [s, t][1..] == [t] && [t][1..] == [];
    HealthyBlock(NextDevice(d, s), b, p, env);
    assert RunDevice(NextDevice(d, s), [t]) == NextDevice(NextDevice(d, s), t);
  }

  function Overwritten(b: Bundle): Session {
    Update([InstallBundle(SLOT_A, b)], Complete)
  }

  lemma OverwrittenFields(m: Metadata, b: Bundle, p: Policy)
    requires OneGood(m, b) && Accepted(b)
    ensures Sound(m)
    ensures var m' := ApplyEdit(m, InstallBundle(SLOT_A, b));
            && Valid(m') && !Sound(m') && m'.active == SLOT_A && m'.lastGood == SLOT_A && m'.a.state == VERIFIED
            && m'.generation == Next(m.generation)
  {
    var v := VerifyUnder(m, b);
    InstallSound(m, SLOT_A, v);
    SealFields(WithRecord(m, SLOT_A, SlotRecord(VERIFIED, v.version, v.counter, v.sha))
               .(generation := Next(m.generation)));
    hide Seal, Validate;
  }

  lemma NothingLeft(m: Metadata, p: Policy)
    requires Valid(m) && m.active == SLOT_A && m.lastGood == SLOT_A && m.a.state == VERIFIED
    ensures OnBoot(m, p).2.kind == FaultNoFallback && OnBoot(m, p).2.slotToRun == SLOT_NONE
  {
    RollbackFields(m, SLOT_A, ERR_INVALID_STATE);
    hide Rollback, Validate;
  }

  lemma UpdateBlock(d: Device, es: seq<Edit>)
    requires Read(d.flash).generation + |es| <= MAX_U32
    ensures Read(NextDevice(d, Update(es, Complete)).flash) == ApplyEdits(Read(d.flash), es)
  {
    hide Read, OnFlash, OnCell, ApplyEdits, Validate;
    ReadValid(d.flash);
    EditsValid(Read(d.flash), es);
    OneOnCell(Read(d.flash), ApplyEdits(Read(d.flash), es));
    SessionRefinesCell(d.flash, Update(es, Complete));
  }

  /** From the factory state: installing over the confirmed slot leaves the next boot with nothing to run. */
  lemma GoodSlotLost(d: Device, b: Bundle, p: Policy, env: BootEnv)
    requires Factory(d) && Accepted(b) && Healthy(env, b)
    ensures var d2 := Confirmed(d, b, p, env);
            var m := Read(NextDevice(d2, Overwritten(b)).flash);
            && Sound(Read(d2.flash)) && Read(d2.flash).lastGood == SLOT_A && !Sound(m)
            && OnBoot(m, p).2.kind == FaultNoFallback && OnBoot(m, p).2.slotToRun == SLOT_NONE
  {
    hide Read, Factory, Confirmed, NextDevice, ApplyEdit, OnBoot, Validate, SlotInv;
    ConfirmedDevice(d, b, p, env);
    var d2 := Confirmed(d, b, p, env);
    var m, es := Read(d2.flash), [InstallBundle(SLOT_A, b)];
    OverwrittenFields(m, b, p);
    UpdateBlock(d2, es);
    assert es[1..] == [];
    assert ApplyEdits(m, es) == ApplyEdit(m, es[0]);
    NothingLeft(ApplyEdit(m, es[0]), p);
  }

  /** The first slot is confirmed and last good, the second holds a bundle with another counter and is active. */
  predicate TwoSlots(m: Metadata, b: Bundle, c: Bundle, state: u32) {
    && Valid(m) && m.active == SLOT_B && m.lastGood == SLOT_A && m.boots <= 1
    && m.a.state == CONFIRMED && InSlot(m.a, b) && m.b.state == state && InSlot(m.b, c)
    && (state == PENDING ==> m.boots == 0)
  }

  function SecondUpdate(c: Bundle): Session {
    Update([InstallBundle(SLOT_B, c), PrepareSlot(SLOT_B)], Complete)
  }

  /** The first slot is good, and the second holds a verified bundle that is not prepared yet. */
  predicate SecondVerified(m: Metadata, b: Bundle, c: Bundle) {
    && Valid(m) && m.active == SLOT_A && m.lastGood == SLOT_A && m.boots == 0
    && m.a.state == CONFIRMED && InSlot(m.a, b) && m.b.state == VERIFIED && InSlot(m.b, c)
  }

  lemma InstallSecond(m: Metadata, b: Bundle, c: Bundle)
    requires OneGood(m, b) && Accepted(c) && b.counter <= c.counter && m.generation < MAX_U32
    ensures var m' := ApplyEdit(m, InstallBundle(SLOT_B, c));
            SecondVerified(m', b, c) && m'.generation == m.generation + 1
    ensures EditDisciplined(m, InstallBundle(SLOT_B, c))
  {
    EditValid(m, InstallBundle(SLOT_B, c));
    hide BundleMetadata.Checksum, Validate;
  }

  lemma PrepareSecond(m: Metadata, b: Bundle, c: Bundle)
    requires SecondVerified(m, b, c) && m.generation < MAX_U32
    ensures var m' := ApplyEdit(m, PrepareSlot(SLOT_B));
            TwoSlots(m', b, c, PENDING) && m'.generation == m.generation + 1
  {
    EditValid(m, PrepareSlot(SLOT_B));
    hide BundleMetadata.Checksum, Validate;
  }

  lemma SecondBlock(d: Device, b: Bundle, c: Bundle)
    requires OneGood(Read(d.flash), b) && Accepted(c) && b.counter <= c.counter
    requires Read(d.flash).generation + 2 <= MAX_U32
    ensures var m' := Read(NextDevice(d, SecondUpdate(c)).flash);
            TwoSlots(m', b, c, PENDING) && m'.generation == Read(d.flash).generation + 2
    ensures EditsDisciplined(Read(d.flash), SecondUpdate(c).edits)
  {
    hide Read, NextDevice, ApplyEdit, OneGood, SecondVerified, TwoSlots, EditDisciplined;
    var m, es := Read(d.flash), SecondUpdate(c).edits;
    var m1 := ApplyEdit(m, es[0]);
    InstallSecond(m, b, c);
    PrepareSecond(m1, b, c);
    UpdateBlock(d, es);
    assert es[1..] == [PrepareSlot(SLOT_B)] && es[1..][1..] == [];
    assert ApplyEdits(m, es) == ApplyEdits(m1, es[1..]) == ApplyEdit(m1, es[1]);
    assert EditDisciplined(m1, es[1]) by { PrepareIsDisciplined(m1, SLOT_B); }
    assert EditsDisciplined(ApplyEdit(m1, es[1]), []);
    assert EditsDisciplined(m1, es[1..]);
  }

  lemma PrepareIsDisciplined(m: Metadata, slot: u32)
    ensures EditDisciplined(m, PrepareSlot(slot))
  {
  }

  lemma SecondTrialFields(m: Metadata, b: Bundle, c: Bundle, p: Policy)
    requires TwoSlots(m, b, c, PENDING) && m.generation < MAX_U32
    ensures var m1 := OnBoot(m, p).1;
            TwoSlots(m1, b, c, RUNNING_PENDING) && m1.generation == m.generation + 1
  {
    BumpFields(WithState(m, SLOT_B, RUNNING_PENDING).(boots := 1));
    hide Bump, Validate;
  }

  lemma SecondCut(d: Device, b: Bundle, c: Bundle, p: Policy, env: BootEnv)
    requires TwoSlots(Read(d.flash), b, c, PENDING) && Read(d.flash).generation < MAX_U32 && CutRun(env, c)
    ensures var m' := Read(NextDevice(d, BootUp(p, env)).flash);
            TwoSlots(m', b, c, RUNNING_PENDING) && m'.generation == Read(d.flash).generation + 1
  {
    var m := Read(d.flash);
    hide Read, OnBoot, BootActions, OnFlash, Validate;
    SecondTrialFields(m, b, c, p);
    TrialActions(m, p, env);
    TrialEffect(d.flash, OnBoot(m, p).1, SLOT_B);
    WriteValid(d.flash, OnBoot(m, p).1);
  }

  /** The second candidate failed, and its larger counter stays on record. */
  predicate Overtaken(m: Metadata, b: Bundle) {
    && Sound(m) && m.active == SLOT_A && m.lastGood == SLOT_A && InState(m, SLOT_A, CONFIRMED)
    && InSlot(m.a, b) && m.b.state == FAILED && b.counter < m.b.counter
  }

  lemma AbandonedFields(m: Metadata, b: Bundle, c: Bundle, p: Policy)
    requires TwoSlots(m, b, c, RUNNING_PENDING) && b.counter < c.counter && p.failRunning
    ensures var m1 := OnBoot(m, p).1;
            Overtaken(m1, b) && m1.generation == Next(m.generation) && b.counter < SecurityFloor(m1)
    ensures b.counter < SecurityFloor(m)
  {
    RollbackFields(m, SLOT_B, ERR_NOT_SYNCHRONIZED);
    hide Rollback, Validate;
  }

  lemma RefusedActions(m: Metadata, b: Bundle, c: Bundle, p: Policy, env: BootEnv)
    requires TwoSlots(m, b, c, RUNNING_PENDING) && b.counter < c.counter && p.failRunning
    requires env.decisionWrite.Complete? && Verifies(m, b, env)
    ensures BootActions(m, p, env) == [Persist(OnBoot(m, p).1, Complete)]
    ensures OnBoot(m, p).2.slotToRun == SLOT_A
  {
    AbandonedFields(m, b, c, p);
    BelowFloor(m, b);
    BootActionsAre(m, p, env);
    RollbackFields(m, SLOT_B, ERR_NOT_SYNCHRONIZED);
    hide Rollback, BootActions, Validate, SlotInv, VerifyUnder, SecurityFloor;
    var (_, m1, d) := OnBoot(m, p);
    assert d.changed && !d.probation;
    hide OnBoot;
    assert RunSlot(m1, d, p, env) == [];
    assert [Persist(m1, Complete)] + [] == [Persist(m1, Complete)];
  }

  /** A boot that is refused leaves its decision on flash and nothing else. */
  lemma RefusedBlock(d: Device, b: Bundle, c: Bundle, p: Policy, env: BootEnv)
    requires TwoSlots(Read(d.flash), b, c, RUNNING_PENDING) && b.counter < c.counter && p.failRunning
    requires Read(d.flash).generation < MAX_U32 && env.decisionWrite.Complete? && Verifies(Read(d.flash), b, env)
    ensures Overtaken(Read(NextDevice(d, BootUp(p, env)).flash), b)
  {
    var m := Read(d.flash);
    hide Read, OnFlash, OnBoot, BootActions, Validate, SlotInv, Verifies, SecurityFloor;
    AbandonedFields(m, b, c, p);
    RefusedActions(m, b, c, p, env);
    var m1 := OnBoot(m, p).1;
    assert [Persist(m1, Complete)] + [] == [Persist(m1, Complete)];
    BeforeStart(d.flash, m1, []);
    WriteValid(d.flash, m1);
  }

  /** Confirmed in the first slot, updated in the second, and cut in the second candidate's first run. */
  function FourSessions(b: Bundle, c: Bundle, p: Policy, healthy: BootEnv, cut: BootEnv): seq<Session> {
    [FirstUpdate(b, 1), BootUp(p, healthy), SecondUpdate(c), BootUp(p, cut)]
  }

  lemma FirstIsAside(d: Device, b: Bundle)
    requires Factory(d)
    ensures EditsDisciplined(Read(d.flash), FirstUpdate(b, 1).edits)
  {
    hide Read, HasRecord, Init, Sound, ApplyEdit;
    FactoryBlock(d);
    var es := FirstUpdate(b, 1).edits;
    assert Installs(b, 0) == [] && es == [InstallBundle(SLOT_A, b), PrepareSlot(SLOT_A)];
    assert es[1..][1..] == [];
    assert EditsDisciplined(ApplyEdit(ApplyEdit(Init(), es[0]), es[1]), []);
    assert EditsDisciplined(ApplyEdit(Init(), es[0]), es[1..]);
    assert EditDisciplined(Init(), es[0]);
  }

  lemma FourInTurn(d: Device, s: Session, t: Session, u: Session, v: Session)
    ensures RunDevice(d, [s, t, u, v]) == NextDevice(NextDevice(NextDevice(NextDevice(d, s), t), u), v)
    ensures s.Update? && t.BootUp? && u.Update? && v.BootUp? && EditsDisciplined(Read(d.flash), s.edits)
            && EditsDisciplined(Read(NextDevice(NextDevice(d, s), t).flash), u.edits)
            ==> InstallsAside(d, [s, t, u, v])
  {
    hide Read, NextDevice, EditsDisciplined;
    assert [s, t, u, v][1..] == [t, u, v] && [t, u, v][1..] == [u, v] && [u, v][1..] == [v] && [v][1..] == [];
    ThreeSessions(NextDevice(d, s), t, u, v);
    var d2 := NextDevice(NextDevice(d, s), t);
    assert InstallsAside(NextDevice(NextDevice(d2, u), v), []);
    if s.Update? && t.BootUp? && u.Update? && v.BootUp? && EditsDisciplined(Read(d2.flash), u.edits) {
      assert InstallsAside(NextDevice(d2, u), [v]);
      assert InstallsAside(d2, [u, v]);
      assert InstallsAside(NextDevice(d, s), [t, u, v]);
    }
  }

  lemma AfterFour(d: Device, b: Bundle, c: Bundle, p: Policy, healthy: BootEnv, cut: BootEnv)
    requires Factory(d) && Accepted(b) && Accepted(c) && b.counter <= c.counter && Healthy(healthy, b) && CutRun(cut, c)
    ensures var m := Read(RunDevice(d, FourSessions(b, c, p, healthy, cut)).flash);
            TwoSlots(m, b, c, RUNNING_PENDING) && m.generation == 7
    ensures InstallsAside(d, FourSessions(b, c, p, healthy, cut))
  {
    hide Read, Factory, NextDevice, FirstUpdate, SecondUpdate, FirstCandidate, OneGood, TwoSlots, Healthy, CutRun,
         EditsDisciplined, RunDevice, InstallsAside;
    var s, t, u, v := FirstUpdate(b, 1), BootUp(p, healthy), SecondUpdate(c), BootUp(p, cut);
    FirstIsAside(d, b);
    AfterFirstUpdate(d, b, 1);
    HealthyBlock(NextDevice(d, s), b, p, healthy);
    SecondBlock(NextDevice(NextDevice(d, s), t), b, c);
    SecondCut(NextDevice(NextDevice(NextDevice(d, s), t), u), b, c, p, cut);
    UpdatesFirst(b, c);
    FourInTurn(d, s, t, u, v);
  }

  lemma UpdatesFirst(b: Bundle, c: Bundle)
    ensures FirstUpdate(b, 1).Update? && SecondUpdate(c).Update?
  {
  }

  lemma OvertakenIsChosen(m: Metadata, b: Bundle, p: Policy)
    requires Overtaken(m, b)
    ensures OnBoot(m, p).2.slotToRun == SLOT_A && b.counter < SecurityFloor(m) && VerifyUnder(m, b).status != OK
  {
    BelowFloor(m, b);
    hide Bump, Validate;
  }

  /** From the factory state, over a run that installs aside: the confirmed slot is selected, but refused at every boot,
    * because the failed candidate's counter is larger. */
  lemma FallbackRefused(d: Device, b: Bundle, c: Bundle, p: Policy,
                        healthy: BootEnv, cut: BootEnv, refused: BootEnv, later: seq<Session>)
    requires Factory(d) && Accepted(b) && Accepted(c) && b.counter < c.counter && p.failRunning
    requires Healthy(healthy, b) && CutRun(cut, c) && refused.decisionWrite.Complete?
    requires Verifies(Read(RunDevice(d, FourSessions(b, c, p, healthy, cut)).flash), b, refused)
    ensures InstallsAside(d, FourSessions(b, c, p, healthy, cut))
    ensures var d4 := RunDevice(d, FourSessions(b, c, p, healthy, cut));
            var m := Read(NextDevice(d4, BootUp(p, refused)).flash);
            && OnBoot(Read(d4.flash), p).2.slotToRun == SLOT_A && NoStart(BootActions(Read(d4.flash), p, refused))
            && Overtaken(m, b) && OnBoot(m, p).2.slotToRun == SLOT_A && VerifyUnder(m, b).status != OK
    ensures var d5 := NextDevice(RunDevice(d, FourSessions(b, c, p, healthy, cut)), BootUp(p, refused));
            BootsVerify(d5, b, later) ==> NothingStarts(d5, later)
  {
    hide Read, Factory, NextDevice, FourSessions, RunDevice, InstallsAside, TwoSlots, Healthy, CutRun, Verifies,
         OnBoot, BootActions, SecurityFloor, Overtaken, VerifyUnder;
    AfterFour(d, b, c, p, healthy, cut);
    var d4 := RunDevice(d, FourSessions(b, c, p, healthy, cut));
    var d5 := NextDevice(d4, BootUp(p, refused));
    RefusedActions(Read(d4.flash), b, c, p, refused);
    RefusedBlock(d4, b, c, p, refused);
    OvertakenIsChosen(Read(d5.flash), b, p);
    if BootsVerify(d5, b, later) {
      RefusedForever(d5, b, later);
    }
  }
}
