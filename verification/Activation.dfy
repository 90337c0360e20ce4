/** The A/B slot state machine: what each activation call does to the metadata block. */
module Activation {
  import opened Words
  import opened Status
  import opened BundleMetadata

  const DEFAULT_MAX_CANDIDATE_BOOTS: u32 := 1

  datatype Kind = NoBundle | RunConfirmed | RunCandidate | RollbackToLastGood | FaultNoFallback

  datatype Decision = Decision(
    kind: Kind, slotToRun: u32, candidate: u32, fallback: u32,
    probation: bool, changed: bool, rollback: bool, reason: u32, boots: u32)

  datatype Policy = Policy(maxBoots: u32, healthChecks: u32, failRunning: bool)

  /** The boot budget after zero is replaced by the default. */
  function Budget(p: Policy): u32 {
    if p.maxBoots == 0 then DEFAULT_MAX_CANDIDATE_BOOTS else p.maxBoots
  }

  function Plain(kind: Kind, reason: u32): Decision {
    Decision(kind, SLOT_NONE, SLOT_NONE, SLOT_NONE, false, false, false, reason, 0)
  }

  predicate FallbackValid(m: Metadata) {
    m.lastGood != SLOT_NONE && InState(m, m.lastGood, CONFIRMED)
  }

  predicate Runnable(m: Metadata, slot: u32) {
    IsSlot(slot) && Record(m, slot).state in {CONFIRMED, PENDING, RUNNING_PENDING}
  }

  function Bump(m: Metadata): Metadata {
    Seal(m.(generation := Next(m.generation)))
  }

  function Rollback(m: Metadata, failed: u32, reason: u32): (Metadata, Decision) {
    var m1 := if IsSlot(failed) then WithState(m, failed, FAILED) else m;
    var m2 := m1.(faults := Next(m1.faults), reason := reason);
    if FallbackValid(m2) then
      var m3 := Bump(m2.(active := m2.lastGood));
      (m3, Decision(RollbackToLastGood, m2.lastGood, failed, m2.lastGood, false, true, true, reason, m2.boots))
    else
      var m3 := Bump(m2.(active := SLOT_NONE));
      (m3, Decision(FaultNoFallback, SLOT_NONE, failed, SLOT_NONE, false, true, true, reason, m2.boots))
  }

  function PreparePending(m: Metadata, slot: u32): (u32, Metadata) {
    if !Valid(m) then (Validate(m), m)
    else if !IsSlot(slot) then (ERR_INVALID_RESOURCE, m)
    else if Record(m, slot).state != VERIFIED then (ERR_INVALID_STATE, m)
    else
      var m1 := if m.active != SLOT_NONE && InState(m, m.active, CONFIRMED) then m.(lastGood := m.active) else m;
      (OK, Bump(WithState(m1, slot, PENDING).(active := slot, boots := 0, faults := 0, reason := OK)))
  }

  function OnBoot(m: Metadata, p: Policy): (u32, Metadata, Decision) {
    if !Valid(m) then
      (Validate(m), m, Plain(FaultNoFallback, Validate(m)))
    else if m.active == SLOT_NONE then
      if FallbackValid(m) then
        (OK, Bump(m.(active := m.lastGood)),
         Plain(RunConfirmed, OK).(slotToRun := m.lastGood, fallback := m.lastGood, changed := true))
      else
        (OK, m, Plain(NoBundle, ERR_NOT_AVAILABLE))
    else if !IsSlot(m.active) then
      var (m', d) := Rollback(m, m.active, ERR_INVALID_RESOURCE);
      (OK, m', d)
    else
      var state := Record(m, m.active).state;
      if state == CONFIRMED then
        var changed := m.lastGood != m.active;
        (OK, if changed then Bump(m.(lastGood := m.active)) else m,
         Plain(RunConfirmed, OK).(slotToRun := m.active, fallback := m.active, changed := changed))
      else if state == PENDING then
        if m.boots >= Budget(p) then
          var (m', d) := Rollback(m, m.active, ERR_TIMEOUT);
          (OK, m', d)
        else
          (OK, Bump(WithState(m, m.active, RUNNING_PENDING).(boots := Next(m.boots))),
           Decision(RunCandidate, m.active, m.active, m.lastGood, true, true, false, OK, Next(m.boots)))
      else if state == RUNNING_PENDING then
        if p.failRunning then
          var (m', d) := Rollback(m, m.active, ERR_NOT_SYNCHRONIZED);
          (OK, m', d)
        else
          (OK, m, Decision(RunCandidate, m.active, m.active, m.lastGood, true, false, false, OK, m.boots))
      else
        var (m', d) := Rollback(m, m.active, ERR_INVALID_STATE);
        (OK, m', d)
  }

  function Confirm(m: Metadata, slot: u32, healthChecks: u32): (u32, Metadata) {
    if healthChecks == 0 then (ERR_INVALID_STATE, m)
    else if !Valid(m) then (Validate(m), m)
    else if m.active != slot then (ERR_INVALID_STATE, m)
    else if !IsSlot(slot) then (ERR_INVALID_RESOURCE, m)
    else if Record(m, slot).state != RUNNING_PENDING && Record(m, slot).state != PENDING then (ERR_INVALID_STATE, m)
    else
      (OK, Bump(WithState(m, slot, CONFIRMED)
                .(active := slot, lastGood := slot, boots := 0, faults := 0, reason := OK)))
  }

  /** On refusal the caller's decision is left as it was. */
  function RecordFault(m: Metadata, slot: u32, reason: u32, before: Decision): (u32, Metadata, Decision) {
    if !Valid(m) then (Validate(m), m, before)
    else if !IsSlot(slot) then (ERR_INVALID_RESOURCE, m, before)
    else if Record(m, slot).state != PENDING && Record(m, slot).state != RUNNING_PENDING then
      (ERR_INVALID_STATE, m, before)
    else
      var (m', d) := Rollback(m, slot, reason);
      (OK, m', d)
  }

  // ---- the same calls on the struct, field by field

  method DoRollback(block: MetadataBlock, failed: u32, reason: u32) returns (d: Decision)
    modifies block
    ensures (block.Value(), d) == Rollback(old(block.Value()), failed, reason)
  {
    hide Seal, Validate;
    if IsSlot(failed) {
      block.SetState(failed, FAILED);
    }
    block.faults := Next(block.faults);
    block.reason := reason;
    if FallbackValid(block.Value()) {
      block.active := block.lastGood;
      block.generation := Next(block.generation);
      block.DoSeal();
      d := Plain(RollbackToLastGood, reason);
      d := d.(fallback := block.lastGood, slotToRun := block.lastGood);
    } else {
      block.active := SLOT_NONE;
      block.generation := Next(block.generation);
      block.DoSeal();
      d := Plain(FaultNoFallback, reason);
    }
    d := d.(candidate := failed, rollback := true, changed := true, boots := block.boots);
  }

  method DoPreparePending(block: MetadataBlock, slot: u32) returns (status: u32)
    modifies block
    ensures (status, block.Value()) == PreparePending(old(block.Value()), slot)
  {
    hide Seal, Validate;
    status := Validate(block.Value());
    if status != OK { return; }
    if !IsSlot(slot) { return ERR_INVALID_RESOURCE; }
    if Record(block.Value(), slot).state != VERIFIED { return ERR_INVALID_STATE; }
    if block.active != SLOT_NONE && InState(block.Value(), block.active, CONFIRMED) {
      block.lastGood := block.active;
    }
    block.SetState(slot, PENDING);
    block.active := slot;
    block.boots := 0;
    block.faults := 0;
    block.reason := OK;
    block.generation := Next(block.generation);
    block.DoSeal();
  }

  method DoOnBoot(block: MetadataBlock, p: Policy) returns (status: u32, d: Decision)
    modifies block
    ensures (status, block.Value(), d) == OnBoot(old(block.Value()), p)
  {
    hide Seal, Validate;
    status := Validate(block.Value());
    if status != OK {
      d := Plain(FaultNoFallback, status);
      return;
    }
    if block.active == SLOT_NONE {
      if FallbackValid(block.Value()) {
        block.active := block.lastGood;
        block.generation := Next(block.generation);
        block.DoSeal();
        d := Plain(RunConfirmed, OK);
        d := d.(slotToRun := block.active, fallback := block.lastGood, changed := true);
      } else {
        d := Plain(NoBundle, ERR_NOT_AVAILABLE);
      }
      return;
    }
    if !IsSlot(block.active) {
      d := DoRollback(block, block.active, ERR_INVALID_RESOURCE);
      return;
    }
    var record := Record(block.Value(), block.active);
    if record.state == CONFIRMED {
      var changed := block.lastGood != block.active;
      if changed {
        block.lastGood := block.active;
        block.generation := Next(block.generation);
        block.DoSeal();
      }
      d := Plain(RunConfirmed, OK);
      d := d.(slotToRun := block.active, fallback := block.lastGood, changed := changed);
    } else if record.state == PENDING {
      if block.boots >= Budget(p) {
        d := DoRollback(block, block.active, ERR_TIMEOUT);
        return;
      }
      block.boots := Next(block.boots);
      block.SetState(block.active, RUNNING_PENDING);
      block.generation := Next(block.generation);
      block.DoSeal();
      d := Plain(RunCandidate, OK);
      d := d.(slotToRun := block.active, candidate := block.active, fallback := block.lastGood,
              probation := true, changed := true, boots := block.boots);
    } else if record.state == RUNNING_PENDING {
      if p.failRunning {
        d := DoRollback(block, block.active, ERR_NOT_SYNCHRONIZED);
        return;
      }
      d := Plain(RunCandidate, OK);
      d := d.(slotToRun := block.active, candidate := block.active, fallback := block.lastGood,
              probation := true, boots := block.boots);
    } else {
      d := DoRollback(block, block.active, ERR_INVALID_STATE);
    }
  }

  method DoConfirm(block: MetadataBlock, slot: u32, healthChecks: u32) returns (status: u32)
    modifies block
    ensures (status, block.Value()) == Confirm(old(block.Value()), slot, healthChecks)
  {
    hide Seal, Validate;
    if healthChecks == 0 { return ERR_INVALID_STATE; }
    status := Validate(block.Value());
    if status != OK { return; }
    if block.active != slot { return ERR_INVALID_STATE; }
    if !IsSlot(slot) { return ERR_INVALID_RESOURCE; }
    var record := Record(block.Value(), slot);
    if record.state != RUNNING_PENDING && record.state != PENDING { return ERR_INVALID_STATE; }
    block.SetState(slot, CONFIRMED);
    block.active := slot;
    block.lastGood := slot;
    block.boots := 0;
    block.faults := 0;
    block.reason := OK;
    block.generation := Next(block.generation);
    block.DoSeal();
  }

  method DoRecordFault(block: MetadataBlock, slot: u32, reason: u32, before: Decision)
    returns (status: u32, d: Decision)
    modifies block
    ensures (status, block.Value(), d) == RecordFault(old(block.Value()), slot, reason, before)
  {
    hide Seal, Validate;
    d := before;
    status := Validate(block.Value());
    if status != OK { return; }
    if !IsSlot(slot) { status := ERR_INVALID_RESOURCE; return; }
    var record := Record(block.Value(), slot);
    if record.state != PENDING && record.state != RUNNING_PENDING { status := ERR_INVALID_STATE; return; }
    d := DoRollback(block, slot, reason);
  }
}
