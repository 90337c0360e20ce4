/** The HAL's table of output levels, and the safe defaults that a profile asks for. */
module GpioTable {
  import opened Words
  import opened Status

  const SLOTS := 8

  datatype Mode = Disabled | Input | InputPullup | Output

  datatype Gpio = Gpio(
    id: u32, named: bool, pin: int, mode: Mode, activeLevel: int, safeLevel: int, applySafe: bool)

  /** A device profile: its GPIO lines, the ids of its resources, and the verdicts on the tables checked around them. */
  datatype Profile = Profile(gpio: seq<Gpio>, resources: set<u32>, before: u32, after: u32)

  predicate PinOk(pin: int) {
    0 <= pin <= 48
  }

  /** The verdict on one line, check after check. */
  function LineStatus(g: Gpio, resources: set<u32>): u32 {
    if g.id == 0 || !g.named then ERR_BAD_ENCODING
    else if g.id !in resources then ERR_INVALID_RESOURCE
    else if !PinOk(g.pin) then ERR_INVALID_RESOURCE
    else if g.safeLevel != 0 && g.safeLevel != 1 then ERR_BAD_ENCODING
    else if g.activeLevel != 0 && g.activeLevel != 1 then ERR_BAD_ENCODING
    else OK
  }

  function LinesStatus(gs: seq<Gpio>, resources: set<u32>, i: nat): (status: u32)
    requires i <= |gs|
    ensures status == OK <==> forall k :: i <= k < |gs| ==> LineStatus(gs[k], resources) == OK
    decreases |gs| - i
  {
    if i == |gs| then OK
    else if LineStatus(gs[i], resources) != OK then LineStatus(gs[i], resources)
    else LinesStatus(gs, resources, i + 1)
  }

  /** `wdc_profile_validate_basic`. */
  function ValidationStatus(p: Profile): u32 {
    if p.gpio == [] then ERR_BAD_POINTER
    else if p.before != OK then p.before
    else if LinesStatus(p.gpio, p.resources, 0) != OK then LinesStatus(p.gpio, p.resources, 0)
    else p.after
  }

  predicate ValidProfile(p: Profile) {
    ValidationStatus(p) == OK
  }

  /** The first bad line decides. */
  lemma {:induction false} FirstBadLine(gs: seq<Gpio>, resources: set<u32>, i: nat, k: nat)
    requires i <= k < |gs| && LineStatus(gs[k], resources) != OK
    requires forall j :: i <= j < k ==> LineStatus(gs[j], resources) == OK
    ensures LinesStatus(gs, resources, i) == LineStatus(gs[k], resources)
    decreases k - i
  {
    hide LineStatus;
    if i < k {
      FirstBadLine(gs, resources, i + 1, k);
    }
  }

  predicate Bit01(level: int) { level == 0 || level == 1 }

  /** A good line has an id, a name, a resource, a pin from 0 to 48 and two levels that are bits; a missing resource and
    * a wrong pin give one status, everything else another. */
  lemma LineExactly(g: Gpio, resources: set<u32>)
    ensures LineStatus(g, resources) == OK <==>
              && g.id != 0 && g.named && g.id in resources && 0 <= g.pin <= 48
              && Bit01(g.safeLevel) && Bit01(g.activeLevel)
    ensures LineStatus(g, resources) == ERR_INVALID_RESOURCE <==>
              g.id != 0 && g.named && (g.id !in resources || g.pin < 0 || g.pin > 48)
    ensures LineStatus(g, resources) in {OK, ERR_INVALID_RESOURCE, ERR_BAD_ENCODING}
  {
  }

  /** A profile is valid exactly when it has lines, all of them good, and the tables around them pass. */
  lemma ValidProfileExactly(p: Profile)
    ensures ValidProfile(p) <==>
              && p.gpio != [] && p.before == OK && p.after == OK
              && forall g <- p.gpio ::
                   && g.id != 0 && g.named && g.id in p.resources && 0 <= g.pin <= 48
                   && Bit01(g.safeLevel) && Bit01(g.activeLevel)
  {
    forall k | 0 <= k < |p.gpio|
      ensures p.gpio[k] in p.gpio
    {
      LineExactly(p.gpio[k], p.resources);
    }
    forall g | g in p.gpio
      ensures LineStatus(g, p.resources) == OK <==>
                g.id != 0 && g.named && g.id in p.resources && 0 <= g.pin <= 48
                && Bit01(g.safeLevel) && Bit01(g.activeLevel)
    {
      LineExactly(g, p.resources);
    }
    hide LineStatus;
  }

  datatype Slot = Slot(used: bool, id: u32, level: u32)

  const UNUSED := Slot(false, 0, 0)

  predicate Occupies(s: Slot, id: u32) {
    s.used && s.id == id
  }

  /** The first slot from `i` on that holds the id, or the number of slots. */
  function Find(t: seq<Slot>, id: u32, i: nat): (k: nat)
    requires i <= |t|
    ensures i <= k <= |t| && (k < |t| ==> Occupies(t[k], id))
    ensures forall j :: i <= j < k ==> !Occupies(t[j], id)
    decreases |t| - i
  {
    if i == |t| then i else if Occupies(t[i], id) then i else Find(t, id, i + 1)
  }

  /** The first unused slot from `i` on, or the number of slots. */
  function Free(t: seq<Slot>, i: nat): (k: nat)
    requires i <= |t|
    ensures i <= k <= |t| && (k < |t| ==> !t[k].used)
    ensures forall j :: i <= j < k ==> t[j].used
    decreases |t| - i
  {
    if i == |t| then i else if !t[i].used then i else Free(t, i + 1)
  }

  function Bit(level: int): u32 { if level != 0 then 1 else 0 }

  function Level(t: seq<Slot>, id: u32): Result<u32> {
    var k := Find(t, id, 0);
    if k < |t| then Ok(t[k].level) else Err(ERR_NOT_AVAILABLE)
  }

  function Set(t: seq<Slot>, id: u32, level: int): (r: (u32, seq<Slot>))
    ensures |r.1| == |t|
  {
    var k := if Find(t, id, 0) < |t| then Find(t, id, 0) else Free(t, 0);
    if k == |t| then (ERR_NO_MEMORY, t) else (OK, t[k := Slot(true, id, Bit(level))])
  }

  predicate SafeOutput(g: Gpio) {
    g.mode == Output && g.applySafe
  }

  /** `wdc_hal_configure_gpio` on the host build. */
  function Configure(t: seq<Slot>, g: Gpio): (u32, seq<Slot>) {
    if !PinOk(g.pin) then (ERR_INVALID_RESOURCE, t)
    else if SafeOutput(g) then Set(t, g.id, g.safeLevel)
    else if g.mode == InputPullup then Set(t, g.id, 1)
    else if g.mode == Input then Set(t, g.id, 0)
    else (OK, t)
  }

  function ConfigureFrom(t: seq<Slot>, gs: seq<Gpio>, i: nat): (u32, seq<Slot>)
    requires i <= |gs|
    decreases |gs| - i
  {
    if i == |gs| then (OK, t)
    else
      var (status, t') := Configure(t, gs[i]);
      if status != OK then (status, t') else ConfigureFrom(t', gs, i + 1)
  }

  function ApplyDefaults(t: seq<Slot>, p: Profile): (u32, seq<Slot>) {
    if ValidationStatus(p) != OK then (ValidationStatus(p), t) else ConfigureFrom(t, p.gpio, 0)
  }

  /** The first line with the id, or the number of lines. */
  function LineOf(gs: seq<Gpio>, id: u32, i: nat): (k: nat)
    requires i <= |gs|
    ensures i <= k <= |gs| && (k < |gs| ==> gs[k].id == id)
    ensures forall j :: i <= j < k ==> gs[j].id != id
    decreases |gs| - i
  {
    if i == |gs| then i else if gs[i].id == id then i else LineOf(gs, id, i + 1)
  }

  /** `wdc_hal_gpio_get_level_by_resource` on the host build. */
  function GetByResource(t: seq<Slot>, p: Profile, id: u32): Result<u32> {
    if id == 0 || LineOf(p.gpio, id, 0) == |p.gpio| then Err(ERR_INVALID_RESOURCE) else Level(t, id)
  }

  function SetByResource(t: seq<Slot>, p: Profile, id: u32, value: u32): (u32, seq<Slot>) {
    var k := LineOf(p.gpio, id, 0);
    if id == 0 || k == |p.gpio| || p.gpio[k].mode != Output then (ERR_INVALID_RESOURCE, t)
    else if value > 1 then (ERR_BAD_ENCODING, t)
    else Set(t, id, value)
  }

  // ---- what the table says after a write

  /** The slots in use hold different ids. */
  predicate Proper(t: seq<Slot>) {
    |t| == SLOTS && forall j, k :: 0 <= j < k < SLOTS && t[j].used && t[k].used ==> t[j].id != t[k].id
  }

  function UsedUpTo(t: seq<Slot>, n: nat): set<u32>
    requires n <= |t|
  {
    set k | 0 <= k < n && t[k].used :: t[k].id
  }

  /** The ids that have a slot. */
  function Used(t: seq<Slot>): set<u32> {
    UsedUpTo(t, |t|)
  }

  function CountUsed(t: seq<Slot>, n: nat): (c: nat)
    requires n <= |t|
    ensures c <= n && (c == n <==> forall k :: 0 <= k < n ==> t[k].used)
    decreases n
  {
    if n == 0 then 0 else CountUsed(t, n - 1) + if t[n - 1].used then 1 else 0
  }

  lemma {:induction false} UsedSize(t: seq<Slot>, n: nat)
    requires Proper(t) && n <= SLOTS
    ensures |UsedUpTo(t, n)| == CountUsed(t, n)
    decreases n
  {
    if n == 0 {
      assert UsedUpTo(t, 0) == {};
    } else {
      UsedSize(t, n - 1);
      OneMoreSlot(t, n - 1);
      hide UsedUpTo;
    }
  }

  lemma OneMoreSlot(t: seq<Slot>, n: nat)
    requires Proper(t) && n < SLOTS
    ensures UsedUpTo(t, n + 1) == UsedUpTo(t, n) + if t[n].used then {t[n].id} else {}
    ensures t[n].used ==> t[n].id !in UsedUpTo(t, n)
  {
  }

  lemma Smaller<T>(a: set<T>, b: set<T>)
    requires a <= b
    ensures |a| <= |b|
  {
    assert b == a + (b - a);
  }

  /** There is a slot for an id exactly when the ids in use and this one are at most eight. */
  lemma SlotForId(t: seq<Slot>, id: u32)
    requires Proper(t)
    ensures Find(t, id, 0) < SLOTS <==> id in Used(t)
    ensures Find(t, id, 0) < SLOTS || Free(t, 0) < SLOTS <==> |Used(t) + {id}| <= SLOTS
    ensures |Used(t)| <= SLOTS
  {
    UsedSize(t, SLOTS);
    var k := Find(t, id, 0);
    if k < SLOTS {
      assert t[k].used && t[k].id in Used(t);
      assert Used(t) + {id} == Used(t);
    } else {
      assert id !in Used(t);
      assert Free(t, 0) < SLOTS <==> CountUsed(t, SLOTS) < SLOTS;
    }
    hide UsedUpTo;
  }

  lemma FindIs(t: seq<Slot>, id: u32, k: nat)
    requires k <= |t| && (k < |t| ==> Occupies(t[k], id))
    requires forall j :: 0 <= j < k ==> !Occupies(t[j], id)
    ensures Find(t, id, 0) == k
  {
  }

  lemma SlotTaken(t: seq<Slot>, k: nat, id: u32, level: u32)
    requires Proper(t) && k < SLOTS
    requires Occupies(t[k], id) || (!t[k].used && id !in Used(t))
    ensures Proper(t[k := Slot(true, id, level)]) && Used(t[k := Slot(true, id, level)]) == Used(t) + {id}
  {
    var t' := t[k := Slot(true, id, level)];
    assert t'[k].id in Used(t');
    forall x | x in Used(t)
      ensures x in Used(t')
    {
      var j :| 0 <= j < |t| && t[j].used && t[j].id == x;
      assert t'[j].used && t'[j].id == x;
    }
    forall j | 0 <= j < SLOTS && t[j].used
      ensures t[j].id in Used(t)
    {
    }
  }

  /** A write finds a slot while there is room for its id; it is then read back, and changes no other level. */
  lemma SetWorks(t: seq<Slot>, id: u32, level: int)
    requires Proper(t)
    ensures var (status, t') := Set(t, id, level);
            && status == (if |Used(t) + {id}| <= SLOTS then OK else ERR_NO_MEMORY)
            && Proper(t') && (status != OK ==> t' == t)
            && (status == OK ==> Used(t') == Used(t) + {id} && Level(t', id) == Ok(Bit(level)))
            && forall other :: other != id ==> Level(t', other) == Level(t, other)
  {
    assert |t| == SLOTS;
    hide Used, Proper;
    SlotForId(t, id);
    var (status, t') := Set(t, id, level);
    if status == OK {
      var k := if Find(t, id, 0) < |t| then Find(t, id, 0) else Free(t, 0);
      SlotTaken(t, k, id, Bit(level));
      FindIs(t', id, k);
      forall other | other != id
        ensures Level(t', other) == Level(t, other)
      {
        FindIs(t', other, Find(t, other, 0));
      }
    }
  }

  /** A level that was set through the profile is read back through it; an id without a line has none. */
  lemma ReadBack(t: seq<Slot>, p: Profile, id: u32, value: u32)
    requires Proper(t)
    ensures var (status, t') := SetByResource(t, p, id, value);
            status == OK ==> GetByResource(t', p, id) == Ok(value)
    ensures id == 0 || (forall g <- p.gpio :: g.id != id) ==> GetByResource(t, p, id) == Err(ERR_INVALID_RESOURCE)
  {
    SetWorks(t, id, value);
    hide Set, Level, Proper, Used;
    if LineOf(p.gpio, id, 0) < |p.gpio| {
      assert p.gpio[LineOf(p.gpio, id, 0)] in p.gpio;
    }
  }

  predicate SafeUpTo(t: seq<Slot>, gs: seq<Gpio>, n: nat)
    requires n <= |gs|
  {
    forall i :: 0 <= i < n && SafeOutput(gs[i]) ==> Level(t, gs[i].id) == Ok(Bit(gs[i].safeLevel))
  }

  /** Every output that has a safe level holds it. */
  predicate OutputsSafe(t: seq<Slot>, p: Profile) {
    SafeUpTo(t, p.gpio, |p.gpio|)
  }

  /** The level that configuring a line records, if any. */
  function Writes(g: Gpio): Result<u32> {
    if SafeOutput(g) then Ok(Bit(g.safeLevel))
    else if g.mode == InputPullup then Ok(1)
    else if g.mode == Input then Ok(0)
    else Err(ERR_NOT_AVAILABLE)
  }

  /** The last level that the first `n` lines record for an id. */
  function LastWrite(gs: seq<Gpio>, id: u32, n: nat): Result<u32>
    requires n <= |gs|
    decreases n
  {
    if n == 0 then Err(ERR_NOT_AVAILABLE)
    else if gs[n - 1].id == id && Writes(gs[n - 1]).Ok? then Writes(gs[n - 1])
    else LastWrite(gs, id, n - 1)
  }

  predicate Reflects(t: seq<Slot>, gs: seq<Gpio>, n: nat)
    requires n <= |gs|
  {
    forall id :: LastWrite(gs, id, n).Ok? ==> Level(t, id) == LastWrite(gs, id, n)
  }

  /** The id for which configuring a line takes a slot, if any. */
  function LineIds(g: Gpio): set<u32> {
    if Writes(g).Ok? then {g.id} else {}
  }

  /** The ids that the lines from `i` up to `n` take slots for. */
  function Between(gs: seq<Gpio>, i: nat, n: nat): set<u32>
    requires n <= |gs|
    decreases n - i
  {
    if i >= n then {} else LineIds(gs[i]) + Between(gs, i + 1, n)
  }

  /** The ids that forcing the defaults takes slots for. */
  function WrittenIds(p: Profile): set<u32> {
    Between(p.gpio, 0, |p.gpio|)
  }

  /** The first line from `i` on for which no slot is left when these ids are in use, or the number of lines. */
  function Reach(used: set<u32>, gs: seq<Gpio>, i: nat): (n: nat)
    requires i <= |gs|
    ensures i <= n <= |gs|
    decreases |gs| - i
  {
    if i == |gs| || |used + LineIds(gs[i])| > SLOTS then i else Reach(used + LineIds(gs[i]), gs, i + 1)
  }

  /** All lines are reached exactly when the ids in use and those still written are at most eight. */
  lemma {:induction false} ReachesEnd(used: set<u32>, gs: seq<Gpio>, i: nat)
    requires i <= |gs| && |used| <= SLOTS
    ensures Reach(used, gs, i) == |gs| <==> |used + Between(gs, i, |gs|)| <= SLOTS
    decreases |gs| - i
  {
    hide LineIds;
    if i == |gs| {
      assert used + {} == used;
    } else {
      var ids, more := used + LineIds(gs[i]), Between(gs, i + 1, |gs|);
      assert used + (LineIds(gs[i]) + more) == ids + more;
      Smaller(ids, ids + more);
      if |ids| <= SLOTS {
        ReachesEnd(ids, gs, i + 1);
      }
    }
  }

  lemma ConfigureStep(t: seq<Slot>, gs: seq<Gpio>, i: nat)
    requires Proper(t) && i < |gs| && PinOk(gs[i].pin) && Reflects(t, gs, i)
    ensures var (status, t') := Configure(t, gs[i]);
            && status == (if |Used(t) + LineIds(gs[i])| <= SLOTS then OK else ERR_NO_MEMORY)
            && (status == OK ==>
                  Proper(t') && Used(t') == Used(t) + LineIds(gs[i]) && Reflects(t', gs, i + 1))
            && (status != OK ==> t' == t)
  {
    hide Proper, Used, Level, Set;
    SlotForId(t, gs[i].id);
    SetWorks(t, gs[i].id, gs[i].safeLevel);
    SetWorks(t, gs[i].id, 1);
    SetWorks(t, gs[i].id, 0);
    assert Used(t) + {} == Used(t);
  }

  /** Configuring stops at the first line for which no slot is left, and records all lines before it. */
  lemma {:induction false} ConfigureAll(t: seq<Slot>, gs: seq<Gpio>, i: nat)
    requires Proper(t) && i <= |gs| && (forall g <- gs :: PinOk(g.pin)) && Reflects(t, gs, i)
    ensures var (status, t') := ConfigureFrom(t, gs, i);
            var n := Reach(Used(t), gs, i);
            && status == (if n == |gs| then OK else ERR_NO_MEMORY)
            && Proper(t') && Used(t') == Used(t) + Between(gs, i, n) && Reflects(t', gs, n)
    decreases |gs| - i
  {
    hide Proper, Used, Reflects, Configure, LineIds, PinOk;
    assert Used(t) + {} == Used(t);
    if i < |gs| {
      ConfigureStep(t, gs, i);
      var (status, t') := Configure(t, gs[i]);
      if status == OK {
        ConfigureAll(t', gs, i + 1);
        var n := Reach(Used(t'), gs, i + 1);
        assert Used(t) + LineIds(gs[i]) + Between(gs, i + 1, n) == Used(t) + (LineIds(gs[i]) + Between(gs, i + 1, n));
      }
    }
  }

  /** What the first `n` lines record is the safe level of every output that has one, of later lines as well. */
  predicate ConsistentUpTo(p: Profile, n: nat)
    requires n <= |p.gpio|
  {
    forall i :: 0 <= i < |p.gpio| && SafeOutput(p.gpio[i]) ==>
      LastWrite(p.gpio, p.gpio[i].id, n) == Ok(Bit(p.gpio[i].safeLevel))
  }

  /** No later line overrides the safe level of an output with another one. */
  predicate Consistent(p: Profile) {
    ConsistentUpTo(p, |p.gpio|)
  }

  lemma {:induction false} WritesLast(gs: seq<Gpio>, i: nat, n: nat)
    requires i < n <= |gs| && Writes(gs[i]).Ok?
    ensures LastWrite(gs, gs[i].id, n).Ok?
    decreases n
  {
    if i < n - 1 {
      WritesLast(gs, i, n - 1);
    }
  }

  /** How many lines of a profile an empty table has slots for. */
  function Reached(p: Profile): (n: nat)
    ensures n <= |p.gpio|
  {
    Reach({}, p.gpio, 0)
  }

  /** The ids that forcing the defaults gives slots to, starting from an empty table. */
  function Reserved(p: Profile): set<u32> {
    Between(p.gpio, 0, Reached(p))
  }

  lemma {:induction false} ReachStops(used: set<u32>, gs: seq<Gpio>, i: nat)
    requires i <= |gs| && |used| <= SLOTS
    ensures var n := Reach(used, gs, i);
            var ids := used + Between(gs, i, n);
            |ids| <= SLOTS && (n < |gs| ==> |ids + LineIds(gs[n])| > SLOTS)
    decreases |gs| - i
  {
    hide LineIds;
    assert used + {} == used;
    if i < |gs| && |used + LineIds(gs[i])| <= SLOTS {
      ReachStops(used + LineIds(gs[i]), gs, i + 1);
      var n := Reach(used, gs, i);
      assert used + LineIds(gs[i]) + Between(gs, i + 1, n) == used + (LineIds(gs[i]) + Between(gs, i + 1, n));
    }
  }

  /** With more ids in use, as long as these lines' are among them, configuring ends at the same line. */
  lemma {:induction false} ReachAgain(ids: set<u32>, gs: seq<Gpio>, i: nat, n: nat)
    requires i <= n <= |gs| && |ids| <= SLOTS && Between(gs, i, n) <= ids
    requires n < |gs| ==> |ids + LineIds(gs[n])| > SLOTS
    ensures Reach(ids, gs, i) == n
    decreases n - i
  {
    hide LineIds;
    if i < n {
      assert ids + LineIds(gs[i]) == ids;
      ReachAgain(ids, gs, i + 1, n);
    }
  }

  lemma ReservedReach(ids: set<u32>, p: Profile)
    requires |ids| <= SLOTS && Reserved(p) <= ids
    ensures Reach(ids, p.gpio, 0) == Reached(p)
  {
    var gs, n := p.gpio, Reached(p);
    ReachStops({}, gs, 0);
    assert {} + Between(gs, 0, n) == Between(gs, 0, n);
    if n < |gs| {
      Smaller(Between(gs, 0, n) + LineIds(gs[n]), ids + LineIds(gs[n]));
    }
    hide Reach, LineIds;
    ReachAgain(ids, gs, 0, n);
  }

  lemma {:induction false} WrittenIsLast(gs: seq<Gpio>, i: nat, n: nat, id: u32)
    requires n <= |gs| && id in Between(gs, i, n)
    ensures LastWrite(gs, id, n).Ok?
    decreases n - i
  {
    if id in LineIds(gs[i]) {
      WritesLast(gs, i, n);
    } else {
      hide LineIds;
      WrittenIsLast(gs, i + 1, n, id);
    }
  }

  lemma ReflectedIsSafe(t: seq<Slot>, p: Profile, n: nat)
    requires n <= |p.gpio| && Reflects(t, p.gpio, n) && ConsistentUpTo(p, n)
    ensures OutputsSafe(t, p)
  {
    hide Level, LastWrite;
  }

  lemma SafeIsReflected(t: seq<Slot>, p: Profile, n: nat)
    requires Proper(t) && n <= |p.gpio| && Reflects(t, p.gpio, n) && Used(t) == Between(p.gpio, 0, n)
    requires OutputsSafe(t, p)
    ensures ConsistentUpTo(p, n)
  {
    assert |t| == SLOTS;
    hide Proper, Used, LastWrite, Between;
    forall i | 0 <= i < |p.gpio| && SafeOutput(p.gpio[i])
      ensures LastWrite(p.gpio, p.gpio[i].id, n) == Ok(Bit(p.gpio[i].safeLevel))
    {
      SlotForId(t, p.gpio[i].id);
      WrittenIsLast(p.gpio, 0, n, p.gpio[i].id);
    }
  }

  /** Forcing the defaults of a valid profile stops at the first line without a slot, after recording those before. */
  lemma DefaultsWork(t: seq<Slot>, p: Profile)
    requires ValidProfile(p) && Proper(t)
    ensures var (status, t') := ApplyDefaults(t, p);
            var n := Reach(Used(t), p.gpio, 0);
            && status == (if |Used(t) + WrittenIds(p)| <= SLOTS then OK else ERR_NO_MEMORY)
            && (status == OK <==> n == |p.gpio|)
            && Proper(t') && Used(t') == Used(t) + Between(p.gpio, 0, n) && Reflects(t', p.gpio, n)
  {
    assert Reflects(t, p.gpio, 0);
    SlotForId(t, 0);
    hide Proper, Used, Reflects, ConfigureFrom, Between, Reach;
    ReachesEnd(Used(t), p.gpio, 0);
    ConfigureAll(t, p.gpio, 0);
  }

  /** A table with nothing in use, or in which the defaults have their slots. */
  predicate Ready(t: seq<Slot>, p: Profile) {
    Proper(t) && (Used(t) == {} || Reserved(p) <= Used(t))
  }

  /** On such a table, outputs are safe after forcing, failed or not, whenever the recorded lines are consistent. */
  lemma DefaultsSafe(t: seq<Slot>, p: Profile)
    requires ValidProfile(p) && Ready(t, p)
    ensures var (status, t') := ApplyDefaults(t, p);
            && status == (if |WrittenIds(p)| <= SLOTS then OK else ERR_NO_MEMORY)
            && Proper(t') && Reserved(p) <= Used(t') && Used(t) <= Used(t')
            && (ConsistentUpTo(p, Reached(p)) ==> OutputsSafe(t', p))
            && (Used(t) == {} && OutputsSafe(t', p) ==> ConsistentUpTo(p, Reached(p)))
  {
    hide Proper, Used, Reflects, ApplyDefaults, ConsistentUpTo, OutputsSafe, Between, Reach, ValidationStatus;
    SlotForId(t, 0);
    DefaultsWork(t, p);
    ReachesEnd({}, p.gpio, 0);
    assert {} + WrittenIds(p) == WrittenIds(p);
    var (status, t') := ApplyDefaults(t, p);
    if Reserved(p) <= Used(t) {
      ReservedReach(Used(t), p);
    }
    assert {} + Reserved(p) == Reserved(p);
    if ConsistentUpTo(p, Reached(p)) {
      ReflectedIsSafe(t', p, Reached(p));
    }
    if Used(t) == {} && OutputsSafe(t', p) {
      SafeIsReflected(t', p, Reached(p));
    }
  }

  predicate Distinct(gs: seq<Gpio>) {
    forall i, j :: 0 <= i < j < |gs| ==> gs[i].id != gs[j].id
  }

  lemma {:induction false} OwnWrite(gs: seq<Gpio>, i: nat, n: nat)
    requires i < n <= |gs| && Distinct(gs) && SafeOutput(gs[i])
    ensures LastWrite(gs, gs[i].id, n) == Ok(Bit(gs[i].safeLevel))
    decreases n
  {
    if i < n - 1 {
      OwnWrite(gs, i, n - 1);
    }
  }

  lemma {:induction false} WrittenSize(gs: seq<Gpio>, i: nat)
    requires i <= |gs|
    ensures |Between(gs, i, |gs|)| <= |gs| - i
    decreases |gs| - i
  {
    if i < |gs| {
      WrittenSize(gs, i + 1);
    }
  }

  /** The valid profiles whose lines, as far as there are slots, leave every output that has a safe level at it. */
  predicate Fitting(p: Profile) {
    ValidProfile(p) && ConsistentUpTo(p, Reached(p))
  }

  /** At most eight lines with different ids, as in the built-in profile, always fit. */
  lemma DistinctFits(p: Profile)
    requires ValidProfile(p) && Distinct(p.gpio) && |p.gpio| <= SLOTS
    ensures Fitting(p) && |WrittenIds(p)| <= SLOTS
  {
    WrittenSize(p.gpio, 0);
    ReachesEnd({}, p.gpio, 0);
    assert {} + WrittenIds(p) == WrittenIds(p);
    forall i | 0 <= i < |p.gpio| && SafeOutput(p.gpio[i])
      ensures LastWrite(p.gpio, p.gpio[i].id, |p.gpio|) == Ok(Bit(p.gpio[i].safeLevel))
    {
      OwnWrite(p.gpio, i, |p.gpio|);
    }
    hide Between, Reach;
  }

  /** One relay that is to be off, and a second line for the same resource, as an input with pull-up. */
  const TWICE := Profile(
    [Gpio(1, true, 4, Output, 1, 0, true), Gpio(1, true, 5, InputPullup, 0, 0, false)], {1}, OK, OK)

  /** That profile passes validation, there are slots enough, and its lines contradict each other. */
  lemma TwiceContradicts()
    ensures ValidProfile(TWICE) && |WrittenIds(TWICE)| <= SLOTS && !Consistent(TWICE) && !Fitting(TWICE)
  {
    WrittenSize(TWICE.gpio, 0);
    ReachesEnd({}, TWICE.gpio, 0);
    assert {} + WrittenIds(TWICE) == WrittenIds(TWICE);
    assert LastWrite(TWICE.gpio, 1, 2) == Ok(1);
    hide Between, Reach;
  }

  /** Nine lines with different ids: an output with a safe level at one place, inputs elsewhere. */
  function NineLines(k: nat): (gs: seq<Gpio>)
    ensures |gs| == 9
  {
    seq(9, (i: nat) requires i < 9 => Gpio(i + 1, true, i, if i == k then Output else Input, 0, 0, i == k))
  }

  function Nine(k: nat): Profile {
    Profile(NineLines(k), set g | g in NineLines(k) :: g.id, OK, OK)
  }

  lemma NineLine(k: nat, i: nat)
    requires i < 9
    ensures var g := NineLines(k)[i];
            g.id == i + 1 && Writes(g) == Ok(0) && LineStatus(g, Nine(k).resources) == OK
            && (SafeOutput(g) <==> i == k) && g.safeLevel == 0
  {
    assert NineLines(k)[i] in NineLines(k);
  }

  lemma {:induction false} DistinctReach(used: set<u32>, gs: seq<Gpio>, i: nat)
    requires i <= SLOTS <= |gs| && Distinct(gs) && (forall g <- gs :: Writes(g).Ok?)
    requires |used| == i && forall k :: i <= k < |gs| ==> gs[k].id !in used
    ensures Reach(used, gs, i) == SLOTS
    decreases SLOTS - i
  {
    if i < SLOTS {
      DistinctReach(used + LineIds(gs[i]), gs, i + 1);
    }
  }

  lemma {:induction false} NineWrites(k: nat, id: u32, n: nat)
    requires n <= 9
    ensures LastWrite(NineLines(k), id, n) == if 1 <= id <= n then Ok(0) else Err(ERR_NOT_AVAILABLE)
    decreases n
  {
    if n > 0 {
      NineLine(k, n - 1);
      hide NineLines, Writes;
      NineWrites(k, id, n - 1);
    }
  }

  lemma NineReach(k: nat)
    ensures Reached(Nine(k)) == 8 && |WrittenIds(Nine(k))| > SLOTS
  {
    var gs := NineLines(k);
    assert Nine(k).gpio == gs;
    forall i | 0 <= i < 9
      ensures gs[i].id == i + 1 && Writes(gs[i]).Ok?
    {
      NineLine(k, i);
    }
    hide NineLines, Nine, Writes, Between, Reach;
    DistinctReach({}, gs, 0);
    ReachesEnd({}, gs, 0);
    assert {} + Between(gs, 0, 9) == Between(gs, 0, 9);
  }

  lemma NineValid(k: nat)
    ensures ValidProfile(Nine(k))
  {
    var gs := NineLines(k);
    forall i | 0 <= i < 9
      ensures LineStatus(gs[i], Nine(k).resources) == OK
    {
      NineLine(k, i);
    }
    assert Nine(k).gpio == gs && Nine(k).before == Nine(k).after == OK;
    hide NineLines, Nine, LineStatus;
  }

  lemma NineConsistent(k: nat)
    requires k < 9
    ensures ConsistentUpTo(Nine(k), 8) <==> k < 8
  {
    var gs := NineLines(k);
    assert Nine(k).gpio == gs;
    forall i | 0 <= i < 9
      ensures (SafeOutput(gs[i]) <==> i == k) && gs[i].safeLevel == 0
      ensures LastWrite(gs, gs[i].id, 8) == if i < 8 then Ok(0) else Err(ERR_NOT_AVAILABLE)
    {
      NineLine(k, i);
      NineWrites(k, gs[i].id, 8);
    }
    hide NineLines, Nine, LastWrite, SafeOutput;
    assert SafeOutput(gs[k]);
  }

  /** There is no slot for the ninth line; the profile fits unless just that line is the output. */
  lemma NineOverflow(k: nat)
    requires k < 9
    ensures ValidProfile(Nine(k)) && |WrittenIds(Nine(k))| > SLOTS
    ensures Fitting(Nine(k)) <==> k < 8
  {
    hide Nine, ValidProfile, ConsistentUpTo, Reached, WrittenIds;
    NineValid(k);
    NineReach(k);
    NineConsistent(k);
  }

  // ---- the table itself

  /** The loop over the lines in `wdc_profile_validate_basic`, between the checks of the other tables. */
  method ValidateBasic(p: Profile) returns (status: u32)
    ensures status == ValidationStatus(p)
  {
    if p.gpio == [] { return ERR_BAD_POINTER; }
    if p.before != OK { return p.before; }
    hide PinOk;
    for i := 0 to |p.gpio|
      invariant LinesStatus(p.gpio, p.resources, 0) == LinesStatus(p.gpio, p.resources, i)
    {
      var g := p.gpio[i];
      if g.id == 0 || !g.named { return ERR_BAD_ENCODING; }
      if g.id !in p.resources { return ERR_INVALID_RESOURCE; }
      if !PinOk(g.pin) { return ERR_INVALID_RESOURCE; }
      if g.safeLevel != 0 && g.safeLevel != 1 { return ERR_BAD_ENCODING; }
      if g.activeLevel != 0 && g.activeLevel != 1 { return ERR_BAD_ENCODING; }
    }
    status := p.after;
  }

  class Table {
    const slots: array<Slot>

    predicate Valid()
      reads this
    {
      slots.Length == SLOTS
    }

    function Value(): seq<Slot>
      reads this, slots
    {
      slots[..]
    }

    constructor ()
      ensures Valid() && fresh(slots) && Value() == seq(SLOTS, _ => UNUSED)
    {
      slots := new Slot[SLOTS](_ => UNUSED);
    }

    /** `wdc_hal_find_state`, with the number of slots for -1. */
    method FindState(id: u32) returns (k: nat)
      requires Valid()
      ensures k == Find(Value(), id, 0)
    {
      k := 0;
      while k < SLOTS
        invariant k <= SLOTS
        invariant Find(Value(), id, 0) == Find(Value(), id, k)
      {
        if slots[k].used && slots[k].id == id { return; }
        k := k + 1;
      }
    }

    method FindFree() returns (k: nat)
      requires Valid()
      ensures k == Free(Value(), 0)
    {
      k := 0;
      while k < SLOTS
        invariant k <= SLOTS
        invariant Free(Value(), 0) == Free(Value(), k)
      {
        if !slots[k].used { return; }
        k := k + 1;
      }
    }

    /** `wdc_hal_set_state`. */
    method SetState(id: u32, level: int) returns (status: u32)
      requires Valid()
      modifies slots
      ensures (status, Value()) == Set(old(Value()), id, level)
    {
      hide Find, Free;
      var k := FindState(id);
      if k == SLOTS {
        k := FindFree();
      }
      if k == SLOTS { return ERR_NO_MEMORY; }
      slots[k] := Slot(true, id, Bit(level));
      status := OK;
    }

    method ConfigureGpio(g: Gpio) returns (status: u32)
      requires Valid()
      modifies slots
      ensures (status, Value()) == Configure(old(Value()), g)
    {
      hide Set, Find, Free;
      if !PinOk(g.pin) { return ERR_INVALID_RESOURCE; }
      status := OK;
      if g.mode == Output && g.applySafe {
        status := SetState(g.id, g.safeLevel);
      } else if g.mode == InputPullup {
        status := SetState(g.id, 1);
      } else if g.mode == Input {
        status := SetState(g.id, 0);
      }
    }

    /** `wdc_hal_apply_safe_gpio_defaults`. */
    method ApplySafeDefaults(p: Profile) returns (status: u32)
      requires Valid()
      modifies slots
      ensures (status, Value()) == ApplyDefaults(old(Value()), p)
    {
      hide Configure, Value, ValidationStatus;
      status := ValidateBasic(p);
      if status != OK { return; }
      for i := 0 to |p.gpio|
        invariant ConfigureFrom(old(Value()), p.gpio, 0) == ConfigureFrom(Value(), p.gpio, i)
      {
        status := ConfigureGpio(p.gpio[i]);
        if status != OK { return; }
      }
      status := OK;
    }

    /** `wdc_hal_gpio_get_level_by_resource` on the host build. */
    method GetLevel(p: Profile, id: u32) returns (r: Result<u32>)
      requires Valid()
      ensures r == GetByResource(Value(), p, id)
    {
      hide LineOf;
      if id == 0 || LineOf(p.gpio, id, 0) == |p.gpio| { return Err(ERR_INVALID_RESOURCE); }
      var k := FindState(id);
      r := if k == SLOTS then Err(ERR_NOT_AVAILABLE) else Ok(slots[k].level);
    }

    /** `wdc_hal_gpio_outputs_match_safe_levels`; a line with the id zero never matches. */
    method OutputsMatch(p: Profile) returns (safe: bool)
      requires Valid()
      ensures safe <==> OutputsSafe(Value(), p) && forall g <- p.gpio :: SafeOutput(g) ==> g.id != 0
    {
      hide Level;
      for i := 0 to |p.gpio|
        invariant SafeUpTo(Value(), p.gpio, i)
        invariant forall k :: 0 <= k < i && SafeOutput(p.gpio[k]) ==> p.gpio[k].id != 0
      {
        var g := p.gpio[i];
        if g.mode == Output && g.applySafe {
          var level := GetLevel(p, g.id);
          if level != Ok(Bit(g.safeLevel)) {
            assert SafeOutput(p.gpio[i]);
            return false;
          }
        }
      }
      safe := true;
    }
  }
}
