/** The boot orchestration as the firmware runs it: a metadata struct in RAM and the partition in flash. */
module BootApp {
  import opened Words
  import opened Status
  import opened BundleMetadata
  import opened Activation
  import opened SlotInvariant
  import opened Journal
  import opened BootProtocol

  /** The block in RAM after a failed run. */
  function FailedBlock(m: Metadata, slot: u32, probation: bool, status: u32): Metadata {
    if probation && slot != SLOT_NONE then RecordFault(m, slot, status, Plain(NoBundle, OK)).1 else m
  }

  function ConfirmResult(m: Metadata, slot: u32, checks: u32, fate: Fate): (u32, Metadata) {
    var (st, m') := Confirm(m, slot, checks);
    (if st != OK then st else if fate.Complete? then OK else ERR_IO, m')
  }

  /** Status and RAM block when the chosen slot has been run. */
  function SlotResult(m: Metadata, d: Decision, p: Policy, env: BootEnv): (u32, Metadata) {
    if d.kind.NoBundle? || d.slotToRun == SLOT_NONE then (ERR_NOT_AVAILABLE, m)
    else if env.powerLossBeforeGuest then (ERR_IO, m)
    else if LoadStatus(m, d.slotToRun, env) != OK then
      (LoadStatus(m, d.slotToRun, env), FailedBlock(m, d.slotToRun, d.probation, LoadStatus(m, d.slotToRun, env)))
    else if env.authorize != OK then (env.authorize, m)
    else if env.guest.PowerLoss? then (ERR_IO, m)
    else if env.guest.status != OK then
      (env.guest.status, FailedBlock(m, d.slotToRun, d.probation, env.guest.status))
    else if d.probation then ConfirmResult(m, d.slotToRun, Checks(p), env.outcomeWrite)
    else (OK, m)
  }

  predicate Authorized(m: Metadata, d: Decision, env: BootEnv) {
    && !d.kind.NoBundle? && d.slotToRun != SLOT_NONE
    && !env.powerLossBeforeGuest && LoadStatus(m, d.slotToRun, env) == OK && env.authorize == OK
  }

  function BootResult(m: Metadata, p: Policy, env: BootEnv): (u32, Metadata) {
    var (status, m1, d) := OnBoot(m, p);
    if status != OK then (status, m1)
    else if d.changed && !env.decisionWrite.Complete? then (ERR_IO, m1)
    else SlotResult(m1, d, p, env)
  }

  /** From `t` and `f`, the actions lead to `t'` and `f'`. */
  predicate Happened(t: seq<Action>, f: Flash, acts: seq<Action>, t': seq<Action>, f': Flash) {
    t' == t + acts && f' == OnFlash(f, acts)
  }

  lemma NothingHappens(t: seq<Action>, f: Flash)
    ensures Happened(t, f, [], t, f)
  {
  }

  lemma StartHappens(t: seq<Action>, f: Flash, slot: u32, probation: bool)
    ensures Happened(t, f, [GuestStart(slot, probation)], t + [GuestStart(slot, probation)], f)
  {
    var acts := [GuestStart(slot, probation)];
    assert acts[1..] == [];
    assert OnFlash(f, acts) == OnFlash(f, acts[1..]) == f;
    hide Write;
  }

  lemma StoreHappens(t: seq<Action>, f: Flash, m: Metadata, fate: Fate)
    ensures Happened(t, f, [Persist(m, fate)], t + [Persist(m, fate)], Write(f, m, fate).1)
  {
    StoreOne(f, m, fate);
    hide Write, OnFlash;
  }

  lemma WhatHappened(t: seq<Action>, f: Flash, acts: seq<Action>, t': seq<Action>, f': Flash)
    requires Happened(t, f, acts, t', f')
    ensures f' == OnFlash(f, acts)
  {
    hide OnFlash;
  }

  lemma HappensThen(t: seq<Action>, f: Flash, x: seq<Action>, t1: seq<Action>, f1: Flash, y: seq<Action>,
                    t2: seq<Action>, f2: Flash)
    requires Happened(t, f, x, t1, f1) && Happened(t1, f1, y, t2, f2)
    ensures Happened(t, f, x + y, t2, f2)
  {
    FlashAppend(f, x, y);
    hide OnFlash;
    assert t + x + y == t + (x + y);
  }

  class App {
    const partition: MetadataPartition
    /** Writes and guest starts, in the order in which they happened. */
    ghost var trace: seq<Action>

    constructor (partition: MetadataPartition)
      ensures this.partition == partition && trace == []
    {
      this.partition := partition;
      trace := [];
    }

    method Store(block: MetadataBlock, fate: Fate) returns (status: u32)
      requires partition.Sized()
      requires Read(partition.Value()).generation != block.Value().generation
      modifies this, partition.cells
      ensures status == if fate.Complete? then OK else ERR_IO
      ensures Happened(old(trace), old(partition.Value()), [Persist(block.Value(), fate)],
                       trace, partition.Value())
    {
      SealGeneration(block.Value());
      StoreOne(partition.Value(), block.Value(), fate);
      StoreHappens(trace, partition.Value(), block.Value(), fate);
      hide Read, Seal, Write, OnFlash, Happened, MetadataBlock.Value, MetadataPartition.Value;
      status := partition.WriteMetadata(block.Value(), fate);
      trace := trace + [Persist(block.Value(), fate)];
    }

    method FailRun(block: MetadataBlock, slot: u32, probation: bool, status: u32, fate: Fate)
      requires partition.Sized()
      requires Read(partition.Value()).generation != Next(block.Value().generation)
      modifies block, this, partition.cells
      ensures block.Value() == FailedBlock(old(block.Value()), slot, probation, status)
      ensures Happened(old(trace), old(partition.Value()),
                       FailRuntime(old(block.Value()), slot, probation, status, fate),
                       trace, partition.Value())
    {
      NewGeneration(block.Value(), slot, status, 0);
      FaultSplit(block.Value(), slot, probation, status, fate);
      NothingHappens(trace, partition.Value());
      hide Read, Seal, RecordFault, FailRuntime, FailedBlock, Write, OnFlash, Happened,
           MetadataBlock.Value, MetadataPartition.Value;
      if probation && slot != SLOT_NONE {
        var st, d := DoRecordFault(block, slot, status, Plain(NoBundle, OK));
        if st == OK {
          var ignored := Store(block, fate);
        }
      }
    }

    method RunChosen(block: MetadataBlock, d: Decision, p: Policy, env: BootEnv) returns (status: u32)
      requires partition.Sized()
      requires Read(partition.Value()).generation != Next(block.Value().generation)
      modifies block, this, partition.cells
      ensures (status, block.Value()) == SlotResult(old(block.Value()), d, p, env)
      ensures Happened(old(trace), old(partition.Value()), RunSlot(old(block.Value()), d, p, env),
                       trace, partition.Value())
    {
      ghost var m := block.Value();
      SlotSplit(m, d, p, env);
      NothingHappens(trace, partition.Value());
      LoadSplit(m, d.slotToRun, env);
      hide Read, Seal, Write, OnFlash, Happened, FailedBlock, FailRuntime, RunGuest, RunSlot, SlotResult, LoadStatus,
           RecordFault, Confirm, MetadataBlock.Value, MetadataPartition.Value;
      if d.kind.NoBundle? || d.slotToRun == SLOT_NONE { return ERR_NOT_AVAILABLE; }
      if env.powerLossBeforeGuest { return ERR_IO; }
      if env.load != OK {
        FailRun(block, d.slotToRun, d.probation, env.load, env.outcomeWrite);
        return env.load;
      }
      if !IsSlot(d.slotToRun) || Record(block.Value(), d.slotToRun).sha != env.payloadSha {
        FailRun(block, d.slotToRun, d.probation, ERR_CONTRACT_VIOLATION, env.outcomeWrite);
        return ERR_CONTRACT_VIOLATION;
      }
      if env.extract != OK {
        FailRun(block, d.slotToRun, d.probation, env.extract, env.outcomeWrite);
        return env.extract;
      }
      if env.authorize != OK { return env.authorize; }
      status := RunAuthorized(block, d, p, env);
    }

    method ConfirmRun(block: MetadataBlock, slot: u32, checks: u32, fate: Fate) returns (status: u32)
      requires partition.Sized()
      requires Read(partition.Value()).generation != Next(block.Value().generation)
      modifies block, this, partition.cells
      ensures (status, block.Value()) == ConfirmResult(old(block.Value()), slot, checks, fate)
      ensures Happened(old(trace), old(partition.Value()), ConfirmActions(old(block.Value()), slot, checks, fate),
                       trace, partition.Value())
    {
      NewGeneration(block.Value(), slot, OK, checks);
      NothingHappens(trace, partition.Value());
      hide Read, Seal, Write, OnFlash, Happened, Confirm, MetadataBlock.Value, MetadataPartition.Value;
      status := DoConfirm(block, slot, checks);
      if status == OK {
        status := Store(block, fate);
      }
    }

    method RunAuthorized(block: MetadataBlock, d: Decision, p: Policy, env: BootEnv) returns (status: u32)
      requires partition.Sized()
      requires Read(partition.Value()).generation != Next(block.Value().generation)
      requires Authorized(block.Value(), d, env)
      modifies block, this, partition.cells
      ensures (status, block.Value()) == SlotResult(old(block.Value()), d, p, env)
      ensures Happened(old(trace), old(partition.Value()), RunGuest(old(block.Value()), d, p, env),
                       trace, partition.Value())
    {
      ghost var m := block.Value();
      NewGeneration(m, d.slotToRun, OK, Checks(p));
      GuestSplit(m, d, p, env);
      ghost var t, f := trace, partition.Value();
      ghost var start := [GuestStart(d.slotToRun, d.probation)];
      StartHappens(t, f, d.slotToRun, d.probation);
      NothingHappens(t + start, f);
      hide Read, Seal, Write, OnFlash, Happened, FailedBlock, FailRuntime, ConfirmResult, ConfirmActions,
           RunGuest, AfterStart, SlotResult, MetadataBlock.Value, MetadataPartition.Value;
      trace := trace + start;
      if env.guest.PowerLoss? {
        status := ERR_IO;
      } else if env.guest.status != OK {
        FailRun(block, d.slotToRun, d.probation, env.guest.status, env.outcomeWrite);
        status := env.guest.status;
      } else if d.probation {
        status := ConfirmRun(block, d.slotToRun, Checks(p), env.outcomeWrite);
      } else {
        status := OK;
      }
      HappensThen(t, f, start, t + start, f, AfterStart(m, d, p, env), trace, partition.Value());
    }

    /** The boot decision, and its one write. */
    method Decide(block: MetadataBlock, p: Policy, env: BootEnv) returns (status: u32, d: Decision)
      requires partition.Sized()
      requires Read(partition.Value()) == block.Value()
      modifies block, this, partition.cells
      ensures (block.Value(), d) == (OnBoot(old(block.Value()), p).1, OnBoot(old(block.Value()), p).2)
      ensures status == DecisionStatus(old(block.Value()), p, env)
      ensures Happened(old(trace), old(partition.Value()), DecisionActions(old(block.Value()), p, env),
                       trace, partition.Value())
    {
      hide Read, Seal, Write, OnBoot, OnFlash, Happened, DecisionStatus, DecisionActions,
           MetadataBlock.Value, MetadataPartition.Value, MetadataPartition.Sized;
      DecisionSplit(block.Value(), p, env);
      NothingHappens(trace, partition.Value());
      status, d := DoOnBoot(block, p);
      if status == OK && d.changed {
        status := Store(block, env.decisionWrite);
      }
    }

    /** The decision is stored before anything runs; the block must be the one just read from the partition. */
    method BootActiveSlot(block: MetadataBlock, p: Policy, env: BootEnv) returns (status: u32)
      requires partition.Sized()
      requires Read(partition.Value()) == block.Value()
      modifies block, this, partition.cells
      ensures (status, block.Value()) == BootResult(old(block.Value()), p, env)
      ensures Happened(old(trace), old(partition.Value()), BootActions(old(block.Value()), p, env),
                       trace, partition.Value())
    {
      ghost var m, t, f := block.Value(), trace, partition.Value();
      BootSplit(f, m, p, env);
      hide Read, Seal, Write, OnBoot, RunSlot, SlotResult, BootResult, BootActions, OnFlash, Happened,
           DecisionStatus, DecisionActions, MetadataBlock.Value, MetadataPartition.Value;
      var d;
      status, d := Decide(block, p, env);
      if status == OK {
        ghost var m1, t1, f1 := block.Value(), trace, partition.Value();
        WhatHappened(t, f, DecisionActions(m, p, env), t1, f1);
        status := RunChosen(block, d, p, env);
        HappensThen(t, f, DecisionActions(m, p, env), t1, f1, RunSlot(m1, d, p, env), trace, partition.Value());
      }
    }
  }

  function DecisionStatus(m: Metadata, p: Policy, env: BootEnv): u32 {
    var (status, m1, d) := OnBoot(m, p);
    if status == OK && d.changed && !env.decisionWrite.Complete? then ERR_IO else status
  }

  function DecisionActions(m: Metadata, p: Policy, env: BootEnv): seq<Action> {
    var (status, m1, d) := OnBoot(m, p);
    if status == OK && d.changed then [Persist(m1, env.decisionWrite)] else []
  }

  lemma DecisionSplit(m: Metadata, p: Policy, env: BootEnv)
    ensures var (status, m1, d) := OnBoot(m, p);
            if status == OK && d.changed then
              && m.generation != m1.generation
              && DecisionActions(m, p, env) == [Persist(m1, env.decisionWrite)]
              && DecisionStatus(m, p, env) == if env.decisionWrite.Complete? then OK else ERR_IO
            else DecisionActions(m, p, env) == [] && DecisionStatus(m, p, env) == status
  {
    BootReportsChange(m, p);
    hide Read, Write, OnBoot;
  }

  /** A boot is its decision and, when that is stored, the run of the chosen slot. */
  lemma BootSplit(f: Flash, m: Metadata, p: Policy, env: BootEnv)
    requires Read(f) == m
    ensures var (status, m1, d) := OnBoot(m, p);
            var first, run := DecisionActions(m, p, env), RunSlot(m1, d, p, env);
            if DecisionStatus(m, p, env) != OK then
              BootActions(m, p, env) == first && BootResult(m, p, env) == (DecisionStatus(m, p, env), m1)
            else
              && Read(OnFlash(f, first)).generation != Next(m1.generation)
              && BootActions(m, p, env) == first + run
              && BootResult(m, p, env) == SlotResult(m1, d, p, env)
  {
    BootReportsChange(m, p);
    NothingOnFlash(f);
    var (status, m1, d) := OnBoot(m, p);
    hide Read, Seal, Write, OnBoot, RunSlot, SlotResult, OnFlash;
    if DecisionStatus(m, p, env) == OK && d.changed {
      AfterDecision(f, m, m1);
    }
  }

  lemma NothingOnFlash(f: Flash)
    ensures OnFlash(f, []) == f
  {
  }

  lemma FaultSplit(m: Metadata, slot: u32, probation: bool, status: u32, fate: Fate)
    ensures var (st, m', _) := RecordFault(m, slot, status, Plain(NoBundle, OK));
            var acts, block := FailRuntime(m, slot, probation, status, fate), FailedBlock(m, slot, probation, status);
            if probation && slot != SLOT_NONE then
              block == m' && acts == if st == OK then [Persist(m', fate)] else []
            else acts == [] && block == m
  {
    hide RecordFault;
  }

  /** Where running the chosen slot can stop early. */
  lemma SlotSplit(m: Metadata, d: Decision, p: Policy, env: BootEnv)
    ensures var acts, result := RunSlot(m, d, p, env), SlotResult(m, d, p, env);
            if d.kind.NoBundle? || d.slotToRun == SLOT_NONE then acts == [] && result == (ERR_NOT_AVAILABLE, m)
            else if env.powerLossBeforeGuest then acts == [] && result == (ERR_IO, m)
            else if LoadStatus(m, d.slotToRun, env) != OK then
              var load := LoadStatus(m, d.slotToRun, env);
              && acts == FailRuntime(m, d.slotToRun, d.probation, load, env.outcomeWrite)
              && result == (load, FailedBlock(m, d.slotToRun, d.probation, load))
            else if env.authorize != OK then acts == [] && result == (env.authorize, m)
            else acts == RunGuest(m, d, p, env)
  {
    hide FailRuntime, FailedBlock, RunGuest, Confirm, RecordFault;
  }

  lemma LoadSplit(m: Metadata, slot: u32, env: BootEnv)
    ensures LoadStatus(m, slot, env) ==
            if env.load != OK then env.load
            else if !IsSlot(slot) || Record(m, slot).sha != env.payloadSha then ERR_CONTRACT_VIOLATION
            else env.extract
  {
  }

  lemma StoreOne(f: Flash, m: Metadata, fate: Fate)
    ensures OnFlash(f, [Persist(m, fate)]) == Write(f, m, fate).1
    ensures Read(f).generation != m.generation ==> Write(f, m, fate).0 == if fate.Complete? then OK else ERR_IO
  {
    SealGeneration(m);
    assert [Persist(m, fate)][1..] == [];
    hide Read, Seal, SetSector, UpdateSector;
  }

  lemma GuestSplit(m: Metadata, d: Decision, p: Policy, env: BootEnv)
    ensures var rest := AfterStart(m, d, p, env);
            RunGuest(m, d, p, env) == [GuestStart(d.slotToRun, d.probation)] + rest
    ensures Authorized(m, d, env) ==>
              SlotResult(m, d, p, env) ==
              if env.guest.PowerLoss? then (ERR_IO, m)
              else if env.guest.status != OK then
                (env.guest.status, FailedBlock(m, d.slotToRun, d.probation, env.guest.status))
              else if d.probation then ConfirmResult(m, d.slotToRun, Checks(p), env.outcomeWrite)
              else (OK, m)
  {
    hide Write, FailRuntime, ConfirmActions;
    assert ([GuestStart(d.slotToRun, d.probation)] + AfterStart(m, d, p, env))[1..] == AfterStart(m, d, p, env);
  }

  lemma SealGeneration(m: Metadata)
    ensures Seal(m).generation == m.generation
  {
  }

  lemma NewGeneration(m: Metadata, slot: u32, status: u32, checks: u32)
    ensures RecordFault(m, slot, status, Plain(NoBundle, OK)).0 == OK ==>
              RecordFault(m, slot, status, Plain(NoBundle, OK)).1.generation == Next(m.generation)
    ensures Confirm(m, slot, checks).0 == OK ==> Confirm(m, slot, checks).1.generation == Next(m.generation)
  {
    hide Checksum, Validate;
  }

  /** Once the decision is stored, the journal holds the old or the new block, and the next one is newer than both. */
  lemma AfterDecision(f: Flash, m: Metadata, m1: Metadata)
    requires Read(f) == m && m1.generation == Next(m.generation)
    ensures Read(OnFlash(f, [Persist(m1, Complete)])).generation != Next(m1.generation)
  {
    Atomic(f, m1, Complete);
    SealGeneration(m1);
    hide Read, Seal, Write, Visible;
    assert [Persist(m1, Complete)][1..] == [];
  }

  lemma {:induction false} FlashAppend(f: Flash, x: seq<Action>, y: seq<Action>)
    ensures OnFlash(f, x + y) == OnFlash(OnFlash(f, x), y)
    decreases |x|
  {
    hide Write;
    if x == [] {
      assert x + y == y;
    } else {
      assert (x + y)[1..] == x[1..] + y;
      FlashAppend(if x[0].Persist? then Write(f, x[0].m, x[0].fate).1 else f, x[1..], y);
    }
  }
}
