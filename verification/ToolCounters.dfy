/** The books that the host tool and the firmware keep beside the slots: attempts, faults, reason and generation. */
module ToolCounters {
  import opened Words
  import opened Status
  import opened BundleMetadata
  import opened Activation
  import opened SlotInvariant
  import opened Decisions
  import opened HostTool

  const WRAP := 0x1_0000_0000

  /** Same generation, faults and reason, and same attempts of an active candidate; the firmware's are 32-bit words.
    * With no active candidate the tool counts no attempts. */
  predicate SameBooks(m: Metadata, t: Meta) {
    && t.generation % WRAP == m.generation && t.faults % WRAP == m.faults && t.reason == Signed(m.reason)
    && (if Candidate(m, m.active) then t.boots % WRAP == m.boots else t.boots == 0)
  }

  /** Shared calls, apart from those that the tool carries out on a slot where the firmware refuses. */
  predicate SharedBooks(m: Metadata, op: Op) {
    && Shared(m, op)
    && (op.Prepare? ==> !InState(m, op.slot, CONFIRMED))
    && (op.ConfirmSlot? ==> !(m.active == op.slot && InState(m, op.slot, CONFIRMED)))
    && (op.Fault? && IsSlot(op.slot) ==> Candidate(m, op.slot))
  }

  predicate Together(m: Metadata, t: Meta) {
    Agree(m, t) && SameBooks(m, t)
  }

  lemma OneMore(n: int, w: u32)
    requires n % WRAP == w
    ensures (n + 1) % WRAP == Next(w) && Next(w) != w
  {
  }

  lemma InstallBooks(m: Metadata, t: Meta, slot: u32, v: VerifyResult)
    requires Agree(m, t) && SameBooks(m, t) && slot != m.active
    ensures Together(Apply(m, Install(slot, v)), ApplyTool(t, Install(slot, v)))
  {
    InstallAgrees(m, t, slot, v);
    OneMore(t.generation, m.generation);
    hide BundleMetadata.Checksum;
  }

  lemma RefusedPrepare(m: Metadata, t: Meta, slot: u32)
    requires Valid(m) && Agree(m, t) && SameBooks(m, t) && !InState(m, slot, VERIFIED)
    ensures SameBooks(PreparePending(m, slot).1, Activated(t, slot)) <==> !InState(m, slot, CONFIRMED)
  {
    OneMore(t.generation, m.generation);
    hide Bump, Validate, ChooseFallback;
  }

  lemma PrepareBooks(m: Metadata, t: Meta, slot: u32)
    requires Sound(m) && Agree(m, t) && SameBooks(m, t)
    ensures Together(Apply(m, Prepare(slot)), ApplyTool(t, Prepare(slot))) <==> SharedBooks(m, Prepare(slot))
  {
    PrepareAgrees(m, t, slot);
    if InState(m, slot, VERIFIED) {
      Prepared(m, slot);
      OneMore(t.generation, m.generation);
      assert PreparePending(m, slot).1.generation == Next(m.generation) by { hide Checksum; }
      hide PreparePending, Validate, ChooseFallback, Agree;
    } else {
      RefusedPrepare(m, t, slot);
      hide PreparePending, Activated, Validate, Agree, SameBooks;
    }
  }

  lemma ConfirmBooks(m: Metadata, t: Meta, slot: u32, checks: u32)
    requires Sound(m) && Agree(m, t) && SameBooks(m, t)
    ensures Together(Apply(m, ConfirmSlot(slot, checks)), ApplyTool(t, ConfirmSlot(slot, checks)))
            <==> SharedBooks(m, ConfirmSlot(slot, checks))
  {
    hide Bump, Validate, ChooseFallback;
    if IsSlot(slot) {
      BumpFields(WithState(m, slot, CONFIRMED)
                 .(active := slot, lastGood := slot, boots := 0, faults := 0, reason := OK));
    }
    ConfirmAgrees(m, t, slot, checks);
    OneMore(t.generation, m.generation);
  }

  lemma GivenUpBooks(m: Metadata, t: Meta, slot: u32, reason: u32)
    requires Sound(m) && Agree(m, t) && SameBooks(m, t) && Candidate(m, slot)
    ensures Together(Rollback(m, slot, reason).0, GivenUp(t, slot, Signed(reason)))
  {
    GivenUpAgrees(m, t, slot, reason, Signed(reason));
    RollbackFields(m, slot, reason);
    RollbackDecision(m, slot, reason);
    RollbackSound(m, slot, reason);
    OneMore(t.generation, m.generation);
    OneMore(t.faults, m.faults);
    hide Rollback, Validate, Agree, ChooseFallback;
  }

  lemma FaultBooks(m: Metadata, t: Meta, slot: u32, reason: u32)
    requires Sound(m) && Agree(m, t) && SameBooks(m, t)
    ensures Together(Apply(m, Fault(slot, reason)), ApplyTool(t, Fault(slot, reason)))
            <==> SharedBooks(m, Fault(slot, reason))
  {
    FaultAgrees(m, t, slot, reason);
    if Candidate(m, slot) {
      GivenUpBooks(m, t, slot, reason);
    } else if IsSlot(slot) {
      assert RecordFault(m, slot, reason, Plain(NoBundle, OK)).1 == m;
      OneMore(t.generation, m.generation);
    }
    hide Rollback, Validate, Agree, ChooseFallback;
  }

  lemma SettledBooks(m: Metadata, t: Meta, p: Policy)
    requires Sound(m) && Together(m, t) && (m.active == SLOT_NONE || InState(m, m.active, CONFIRMED))
    ensures OnBoot(m, p).1 == m && Booted(t, p.maxBoots, false).0 == t
  {
    BootSettled(m, p);
    if m.active == SLOT_NONE {
      FallbackAgrees(m, t, SLOT_NONE);
    }
    hide OnBoot, Validate, ChooseFallback;
  }

  lemma PendingBooks(m: Metadata, t: Meta, p: Policy)
    requires Sound(m) && Fresh(t) && Together(m, t) && InState(m, m.active, PENDING) && p.maxBoots != 0
    ensures SameBooks(OnBoot(m, p).1, Booted(t, p.maxBoots, false).0)
  {
    SlotInvariant.BootPending(m, p);
    BumpFields(WithState(m, m.active, RUNNING_PENDING).(boots := 1));
    OneMore(t.generation, m.generation);
    hide OnBoot, Bump, Validate, ChooseFallback;
  }

  lemma RunningBooks(m: Metadata, t: Meta, p: Policy)
    requires Sound(m) && Together(m, t) && InState(m, m.active, RUNNING_PENDING) && p.failRunning
    ensures Together(OnBoot(m, p).1, Booted(t, p.maxBoots, false).0)
  {
    GivenUpBooks(m, t, m.active, ERR_NOT_SYNCHRONIZED);
    hide Rollback, GivenUp, Validate;
  }

  lemma BootBooks(m: Metadata, t: Meta, p: Policy)
    requires Sound(m) && Fresh(t) && Together(m, t)
    ensures Together(Apply(m, Boot(p)), ApplyTool(t, Boot(p))) <==> SharedBooks(m, Boot(p))
  {
    BootAgrees(m, t, p);
    if m.active == SLOT_NONE || InState(m, m.active, CONFIRMED) {
      SettledBooks(m, t, p);
    } else if InState(m, m.active, PENDING) {
      if p.maxBoots != 0 {
        PendingBooks(m, t, p);
      }
    } else if p.failRunning {
      RunningBooks(m, t, p);
    }
    hide OnBoot, Booted, Validate, Agree, SameBooks;
  }

  /** With installs aside, slots and books stay together exactly on these calls. */
  lemma StepBooks(m: Metadata, t: Meta, op: Op)
    requires Sound(m) && Fresh(t) && Together(m, t) && Disciplined(m, op)
    ensures Together(Apply(m, op), ApplyTool(t, op)) <==> SharedBooks(m, op)
  {
    match op
    case Install(slot, v) => InstallBooks(m, t, slot, v);
    case Prepare(slot) => PrepareBooks(m, t, slot);
    case Boot(p) => BootBooks(m, t, p);
    case ConfirmSlot(slot, checks) => ConfirmBooks(m, t, slot, checks);
    case Fault(slot, reason) => FaultBooks(m, t, slot, reason);
  }

  predicate SharedBooksRun(m: Metadata, ops: seq<Op>)
    decreases |ops|
  {
    ops == [] || (SharedBooks(m, ops[0]) && SharedBooksRun(Apply(m, ops[0]), ops[1..]))
  }

  lemma {:induction false} RunBooks(m: Metadata, t: Meta, ops: seq<Op>)
    requires Sound(m) && Together(m, t) && Fresh(t) && DisciplinedRun(m, ops) && SharedBooksRun(m, ops)
    ensures Together(Run(m, ops), RunTool(t, ops))
    decreases |ops|
  {
    if ops != [] {
      StepBooks(m, t, ops[0]);
      FreshKept(t, ops[0]);
      ApplySound(m, ops[0]);
      hide Sound, Apply, ApplyTool, SharedBooks, Disciplined, Together, Fresh;
      RunBooks(Apply(m, ops[0]), ApplyTool(t, ops[0]), ops[1..]);
    }
  }

  /** From the factory state, after any such run, firmware and tool have the same slots and the same books. */
  lemma BooksAgree(ops: seq<Op>)
    requires DisciplinedRun(Init(), ops) && SharedBooksRun(Init(), ops)
    ensures Together(Run(Init(), ops), RunTool(DEFAULT_META, ops))
  {
    InitSound();
    InitAgrees();
    assert SameBooks(Init(), DEFAULT_META) by { hide BundleMetadata.Checksum; }
    hide Init, Sound, Run, RunTool, DisciplinedRun, SharedBooksRun, Agree, Fresh;
    RunBooks(Init(), DEFAULT_META, ops);
  }
}
