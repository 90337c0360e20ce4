/** The host tool's commands on every dictionary, sound or not: how a trial starts, and how it is undone. */
module ToolTrials {
  import opened Words
  import opened BundleMetadata
  import opened HostTool

  /** The slot a failed trial of this one goes back to. */
  function Back(t: Meta, slot: u32): u32 {
    ChooseFallback(t, slot)
  }

  /** The candidate in its trial, with the slot to go back to kept as last good. */
  predicate OnTrial(t: Meta, slot: u32, state: u32, t': Meta)
    requires IsSlot(slot)
  {
    && t'.active == slot && t'.lastGood == (if IsSlot(Back(t, slot)) then Back(t, slot) else t.lastGood)
    && Keys(t', slot) == Keys(t, slot).(state := state) && Keys(t', Other(slot)) == Keys(t, Other(slot))
    && t'.boots == (if state == PENDING then 0 else 1) && t'.faults == 0 && t'.reason == 0
    && t'.generation == t.generation + (if state == PENDING then 1 else 2)
  }

  /** The trial undone: back on that slot if there is one, with the candidate failed for this reason. */
  predicate Undone(t: Meta, slot: u32, reason: int, t': Meta)
    requires IsSlot(slot)
  {
    && t'.active == Back(t, slot)
    && t'.lastGood == (if IsSlot(Back(t, slot)) then Back(t, slot) else t.lastGood)
    && Keys(t', slot) == Keys(t, slot).(state := FAILED) && Keys(t', Other(slot)) == Keys(t, Other(slot))
    && t'.boots == 0 && t'.faults == 1 && t'.reason == reason
  }

  /** From every dictionary: activating a verified slot is undone by the fail command before or after its first boot,
    * and by a second boot. */
  lemma FailedTrialReturns(t: Meta, slot: u32, boots: int, again: int, write: bool, reason: int)
    requires IsSlot(slot) && Keys(t, slot).state == VERIFIED && boots > 0
    ensures var t1 := Activated(t, slot);
            var t2 := Booted(t1, boots, write).0;
            && OnTrial(t, slot, PENDING, t1) && OnTrial(t, slot, RUNNING_PENDING, t2)
            && Undone(t, slot, reason, Rejected(t1, slot, reason))
            && Undone(t, slot, reason, Rejected(t2, slot, reason))
            && Undone(t, slot, -18, Booted(t2, again, write).0)
  {
  }

  /** With no attempts allowed, a candidate is given up at once. */
  lemma NoAttempts(t: Meta, slot: u32, boots: int, write: bool)
    requires IsSlot(slot) && Keys(t, slot).state == VERIFIED && boots <= 0
    ensures Undone(t, slot, -11, Booted(Activated(t, slot), boots, write).0)
  {
  }

  /** A boot with no slot to run chooses a confirmed one, if there is one, and changes nothing else. */
  lemma IdleBoot(t: Meta, boots: int, write: bool)
    requires IsSlot(t.active) ==> Keys(t, t.active).state !in {CONFIRMED, PENDING, RUNNING_PENDING}
    ensures var (t', report) := Booted(t, boots, write);
            var slot := ChooseFallback(t, SLOT_NONE);
            && report == BootReport(if slot == SLOT_NONE then NoBundleFound else RolledBack, slot, SLOT_NONE, false)
            && t' == if slot != SLOT_NONE then Saved(t.(active := slot, lastGood := slot))
                     else if write then Saved(t.(active := SLOT_NONE)) else t
  {
  }

  /** Failing a slot, whatever its state and whichever is active, leaves the other slot active and last good if that is
    * confirmed, and nothing active otherwise. */
  lemma FailCommand(t: Meta, slot: u32, reason: int)
    requires IsSlot(slot)
    ensures var (t', other) := (Rejected(t, slot, reason), Other(slot));
            && t'.active == (if IsConfirmed(t, other) then other else SLOT_NONE)
            && t'.lastGood == (if IsConfirmed(t, other) then other else t.lastGood)
            && Keys(t', slot) == Keys(t, slot).(state := FAILED) && Keys(t', other) == Keys(t, other)
            && t'.boots == 0 && t'.faults == t.faults + 1 && t'.reason == reason && t'.generation == t.generation + 1
  {
  }

  /** Booting a confirmed slot makes it last good, and is recorded only if that is new. */
  lemma ConfirmedBoot(t: Meta, boots: int, write: bool)
    requires IsConfirmed(t, t.active)
    ensures var (t', report) := Booted(t, boots, write);
            && report == BootReport(RunActive, t.active, SLOT_NONE, false)
            && t' == t.(lastGood := t.active, generation := t.generation + if t.lastGood != t.active then 1 else 0)
  {
  }
}
