/** What the slots hold over whole runs: the bundles that were installed, and nothing else is ever started. */
module Installed {
  import opened Words
  import opened Status
  import opened BundleMetadata
  import opened Activation
  import opened SlotInvariant
  import opened Journal
  import opened BootProtocol
  import opened BootSafety
  import opened BootOutcome
  import opened BootEnds

  // ---- the log of installs, kept beside the device

  /** The bundle last installed into a slot, if any. */
  datatype Last = Nothing | Holding(bundle: Bundle)

  /** The bundle passes every check under this block, the counter check included. */
  predicate Admitted(m: Metadata, b: Bundle) {
    b.checks == OK && b.payloadHashOk && b.counter >= SecurityFloor(m)
  }

  function LogEdits(m: Metadata, es: seq<Edit>, slot: u32, last: Last): Last
    decreases |es|
  {
    if es == [] then last
    else
      var next := if es[0].InstallBundle? && es[0].slot == slot && Admitted(m, es[0].bundle)
                  then Holding(es[0].bundle) else last;
      LogEdits(ApplyEdit(m, es[0]), es[1..], slot, next)
  }

  /** The installs of an update count when its write landed and replaced the block that was read. */
  function LogSession(f: Flash, s: Session, slot: u32, last: Last): Last {
    if s.Update? && Visible(f, ApplyEdits(Read(f), s.edits), s.fate) then LogEdits(Read(f), s.edits, slot, last)
    else last
  }

  function LogRun(d: Device, ss: seq<Session>, slot: u32, last: Last): Last
    decreases |ss|
  {
    if ss == [] then last else LogRun(NextDevice(d, ss[0]), ss[1..], slot, LogSession(d.flash, ss[0], slot, last))
  }

  function LastInstalled(d: Device, ss: seq<Session>, slot: u32): Last {
    LogRun(d, ss, slot, Nothing)
  }

  // ---- the block agrees with the log

  /** The slot's record is that of the bundle, or the slot is empty. */
  predicate Recorded(m: Metadata, slot: u32, last: Last)
    requires IsSlot(slot)
  {
    var r := Record(m, slot);
    match last
    case Nothing => r.state == EMPTY
    case Holding(b) =>
      && r.state != EMPTY && r.version == b.version && r.counter == b.counter && r.sha == b.sha
      && b.checks == OK && b.payloadHashOk
  }

  lemma EditRecords(m: Metadata, e: Edit, slot: u32, last: Last)
    requires ActiveFilled(m) && IsSlot(slot) && Recorded(m, slot, last)
    ensures var next := if e.InstallBundle? && e.slot == slot && Admitted(m, e.bundle) then Holding(e.bundle) else last;
            ActiveFilled(ApplyEdit(m, e)) && Recorded(ApplyEdit(m, e), slot, next)
  {
    hide BundleMetadata.Checksum, Validate, SecurityFloor;
  }

  lemma {:induction false} EditsRecord(m: Metadata, es: seq<Edit>, slot: u32, last: Last)
    requires ActiveFilled(m) && IsSlot(slot) && Recorded(m, slot, last)
    ensures ActiveFilled(ApplyEdits(m, es)) && Recorded(ApplyEdits(m, es), slot, LogEdits(m, es, slot, last))
    decreases |es|
  {
    if es != [] {
      hide ApplyEdit, ActiveFilled, Recorded, Admitted;
      EditRecords(m, es[0], slot, last);
      var next := if es[0].InstallBundle? && es[0].slot == slot && Admitted(m, es[0].bundle)
                  then Holding(es[0].bundle) else last;
      EditsRecord(ApplyEdit(m, es[0]), es[1..], slot, next);
    }
  }

  lemma StepRecords(m: Metadata, m': Metadata, slot: u32, last: Last)
    requires ActiveFilled(m) && IsSlot(slot) && Recorded(m, slot, last) && Moves(m, m')
    ensures ActiveFilled(m') && Recorded(m', slot, last)
  {
  }

  lemma UpdateOnFlash(f: Flash, es: seq<Edit>, fate: Fate)
    ensures var m' := ApplyEdits(Read(f), es);
            Read(AfterSession(f, Update(es, fate))) == if Visible(f, m', fate) then m' else Read(f)
  {
    var m' := ApplyEdits(Read(f), es);
    hide Read, Write, ApplyEdits, Visible, Seal, Validate;
    ReadValid(f);
    EditsValid(Read(f), es);
    SealIdempotent(m');
    Atomic(f, m', fate);
    assert [Persist(m', fate)][1..] == [];
    assert OnFlash(f, [Persist(m', fate)]) == OnFlash(Write(f, m', fate).1, []);
  }

  lemma SessionRecords(f: Flash, s: Session, slot: u32, last: Last)
    requires ActiveFilled(Read(f)) && IsSlot(slot) && Recorded(Read(f), slot, last)
    ensures var m' := Read(AfterSession(f, s));
            ActiveFilled(m') && Recorded(m', slot, LogSession(f, s, slot, last))
  {
    hide Read, AfterSession, ApplyEdits, LogEdits, Visible, ActiveFilled, Recorded, Moves;
    match s
    case Update(edits, fate) =>
      UpdateOnFlash(f, edits, fate);
      EditsRecord(Read(f), edits, slot, last);
    case BootUp(_, _) =>
      SessionSteps(f, s);
      StepRecords(Read(f), Read(AfterSession(f, s)), slot, last);
  }

  lemma {:induction false} RunRecords(d: Device, ss: seq<Session>, slot: u32, last: Last)
    requires ActiveFilled(Read(d.flash)) && IsSlot(slot) && Recorded(Read(d.flash), slot, last)
    ensures Recorded(Read(RunDevice(d, ss).flash), slot, LogRun(d, ss, slot, last))
    decreases |ss|
  {
    if ss != [] {
      hide Read, AfterSession, LogSession, ActiveFilled, Recorded, Counted;
      SessionRecords(d.flash, ss[0], slot, last);
      RunRecords(NextDevice(d, ss[0]), ss[1..], slot, LogSession(d.flash, ss[0], slot, last));
    }
  }

  /** Over every run from the factory state, with power cuts anywhere: a slot on flash has version, counter and payload
    * hash of the last admitted bundle that was installed into it and landed, and is empty if there is none. */
  lemma SlotsHoldInstalled(d: Device, ss: seq<Session>, slot: u32)
    requires Factory(d) && IsSlot(slot)
    ensures Recorded(Read(RunDevice(d, ss).flash), slot, LastInstalled(d, ss, slot))
  {
    hide Read, RunDevice, Init, HasRecord, Sound, LogRun;
    FactoryBlock(d);
    RunRecords(d, ss, slot, Nothing);
  }

  // ---- and only that is started

  /** After any run from the factory state, only a payload with the hash of the last one installed is started. */
  lemma OnlyInstalledStart(d: Device, ss: seq<Session>, p: Policy, env: BootEnv, i: nat)
    requires Factory(d)
    requires var acts := BootActions(Read(RunDevice(d, ss).flash), p, env);
             i < |acts| && acts[i].GuestStart?
    ensures var slot := BootActions(Read(RunDevice(d, ss).flash), p, env)[i].slot;
            var last := LastInstalled(d, ss, slot);
            IsSlot(slot) && last.Holding? && last.bundle.sha == env.payloadSha
  {
    var f := RunDevice(d, ss).flash;
    var m := Read(f);
    var (_, m1, decision) := OnBoot(m, p);
    hide Read, RunDevice, OnBoot, BootActions, Validate, Moves, LogRun, Factory;
    ReadValid(f);
    BootStarts(m, p, env);
    BootDecides(m, p);
    StartedLoads(m, p, env, i);
    ChosenIsFilled(m, p);
    SameLoad(m, m1, decision.slotToRun, env);
    SameHash(m, m1, decision.slotToRun);
    SlotsHoldInstalled(d, ss, decision.slotToRun);
  }

  lemma SameHash(m: Metadata, m1: Metadata, slot: u32)
    requires Moves(m, m1) && IsSlot(slot)
    ensures Record(m1, slot).sha == Record(m, slot).sha
  {
  }

  /** And that bundle is started: the slot that a boot chose passes the comparison with the bundle last installed. */
  lemma InstalledStarts(d: Device, ss: seq<Session>, p: Policy, env: BootEnv)
    requires Factory(d) && OnBoot(Read(RunDevice(d, ss).flash), p).2.slotToRun != SLOT_NONE
    requires var last := LastInstalled(d, ss, OnBoot(Read(RunDevice(d, ss).flash), p).2.slotToRun);
             last.Holding? ==> env.payloadSha == last.bundle.sha
    requires Undisturbed(env) && env.load == OK && env.extract == OK
    ensures var m := Read(RunDevice(d, ss).flash);
            var (decision, acts) := (OnBoot(m, p).2, BootActions(m, p, env));
            StartIndex(decision) < |acts|
            && acts[StartIndex(decision)] == GuestStart(decision.slotToRun, decision.probation)
  {
    var f := RunDevice(d, ss).flash;
    hide Read, RunDevice, OnBoot, BootActions, Validate, LogRun, Factory, LastInstalled;
    ReadValid(f);
    ChosenIsFilled(Read(f), p);
    SlotsHoldInstalled(d, ss, OnBoot(Read(f), p).2.slotToRun);
    LoadedStarts(Read(f), p, env);
  }
}
