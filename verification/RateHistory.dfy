/** The limiter over the life of the authoriser: capability sets come and go, and clearing forgets what was spent. */
module RateHistory {
  import opened Words
  import opened Status
  import opened CborMap
  import opened Safety
  import opened RateLimit

  /** The authoriser; until a capability set is installed, no capability allows anything. */
  datatype Limiter = Limiter(installed: bool, caps: seq<Capability>, kinds: map<u32, u32>, budget: Budget)

  datatype Event =
    | Called(call: Call)
    | SetInstalled(caps: seq<Capability>, kinds: map<u32, u32>)
    | Forgotten

  function Empty(): (s: Limiter)
    ensures Sixteen(s.budget)
  {
    Limiter(false, [], map[], Unspent())
  }

  /** Installing keeps the two arrays; initialisation and clearing zero them and take the set away. */
  function AfterEvent(s: Limiter, e: Event): (r: Limiter)
    requires Sixteen(s.budget)
    ensures Sixteen(r.budget)
  {
    match e
    case Called(call) => if s.installed then s.(budget := Decide(s.caps, s.kinds, s.budget, call).1) else s
    case SetInstalled(caps, kinds) => Limiter(true, caps, kinds, s.budget)
    case Forgotten => Empty()
  }

  /** What a history says about one budget: calls allowed at a time, under an interval; and losses of memory. */
  datatype Mark = Allowed(time: u64, ms: nat) | Lost

  predicate Metered(caps: seq<Capability>, k: nat) {
    k < MAX_CAPABILITIES && k < |caps| && caps[k].maxRate > 0
  }

  function MarksOf(s: Limiter, e: Event, k: nat): seq<Mark>
    requires Sixteen(s.budget)
  {
    match e
    case Called(call) =>
      if s.installed && Metered(s.caps, k) && ChargedTo(s.caps, s.kinds, s.budget, call, k) then
        [Allowed(call.now, Interval(s.caps[k].maxRate))]
      else []
    case SetInstalled(_, _) => []
    case Forgotten => [Lost]
  }

  function History(s: Limiter, es: seq<Event>, k: nat): seq<Mark>
    requires Sixteen(s.budget)
    decreases |es|
  {
    if es == [] then [] else MarksOf(s, es[0], k) + History(AfterEvent(s, es[0]), es[1..], k)
  }

  /** The clock does not go back, whatever happens in between. */
  predicate ClockedEvents(from: nat, es: seq<Event>)
    decreases |es|
  {
    es == [] ||
    if es[0].Called? then from <= es[0].call.now < LAST_TIME && ClockedEvents(es[0].call.now, es[1..])
    else ClockedEvents(from, es[1..])
  }

  /** Each allowed call waits out its own interval after the one before, unless that was forgotten. */
  predicate Waits(marks: seq<Mark>, seen: bool, last: nat)
    decreases |marks|
  {
    marks == [] ||
    match marks[0]
    case Lost => Waits(marks[1..], false, 0)
    case Allowed(time, ms) => (seen ==> last + ms <= time) && Waits(marks[1..], true, time)
  }

  /** One event: what it marks has waited, and the budget remembers it. */
  lemma OneEvent(s: Limiter, e: Event, k: nat, from: nat)
    requires Sixteen(s.budget) && k < MAX_CAPABILITIES && (s.budget.seen[k] ==> s.budget.last[k] <= from)
    requires e.Called? ==> from <= e.call.now < LAST_TIME
    ensures var (marks, b, b') := (MarksOf(s, e, k), s.budget, AfterEvent(s, e).budget);
            match e
            case Called(call) =>
              if marks == [] then b'.seen[k] == b.seen[k] && b'.last[k] == b.last[k]
              else
                && |marks| == 1 && marks[0].Allowed? && marks[0].time == call.now
                && (b.seen[k] ==> b.last[k] + marks[0].ms <= call.now) && b'.seen[k] && b'.last[k] == call.now
            case SetInstalled(_, _) => marks == [] && b' == b
            case Forgotten => marks == [Lost] && !b'.seen[k]
  {
    if e.Called? && s.installed {
      if Metered(s.caps, k) {
        OneCall(s.caps, s.kinds, s.budget, e.call, k);
      } else {
        hide TargetOf, Permit, CheckPayload, BudgetIndex, Permission, Interval;
      }
      hide Decide, ChargedTo, Interval;
    }
  }

  lemma {:induction false} HistoryWaits(s: Limiter, es: seq<Event>, k: nat, from: nat)
    requires Sixteen(s.budget) && k < MAX_CAPABILITIES && ClockedEvents(from, es)
    requires s.budget.seen[k] ==> s.budget.last[k] <= from
    ensures Waits(History(s, es, k), s.budget.seen[k], if s.budget.seen[k] then s.budget.last[k] else 0)
    decreases |es|
  {
    if es != [] {
      hide MarksOf, AfterEvent;
      OneEvent(s, es[0], k, from);
      var s' := AfterEvent(s, es[0]);
      HistoryWaits(s', es[1..], k, if es[0].Called? then es[0].call.now else from);
      var (marks, rest) := (MarksOf(s, es[0], k), History(s', es[1..], k));
      assert History(s, es, k) == marks + rest;
      assert marks == [] ==> marks + rest == rest;
      assert |marks| == 1 ==> (marks + rest)[1..] == rest && (marks + rest)[0] == marks[0];
    }
  }

  /** No memory was lost between two marks. */
  predicate Kept(marks: seq<Mark>, i: nat, j: nat)
    requires j <= |marks|
  {
    forall m :: i < m < j ==> marks[m].Allowed?
  }

  lemma {:induction false} WaitsSince(marks: seq<Mark>, seen: bool, last: nat, j: nat)
    requires Waits(marks, seen, last) && seen && j < |marks| && marks[j].Allowed?
    requires forall m :: 0 <= m < j ==> marks[m].Allowed?
    ensures last + marks[j].ms <= marks[j].time
    decreases j
  {
    if j > 0 {
      assert forall m :: 0 <= m < j - 1 ==> marks[1..][m] == marks[m + 1];
      WaitsSince(marks[1..], true, marks[0].time, j - 1);
    }
  }

  lemma {:induction false} WaitsBetween(marks: seq<Mark>, seen: bool, last: nat, i: nat, j: nat)
    requires Waits(marks, seen, last) && i < j < |marks| && marks[i].Allowed? && marks[j].Allowed? && Kept(marks, i, j)
    ensures marks[i].time + marks[j].ms <= marks[j].time
    decreases i
  {
    assert forall m :: 0 <= m < |marks| - 1 ==> marks[1..][m] == marks[m + 1];
    if i == 0 {
      WaitsSince(marks[1..], true, marks[0].time, j - 1);
    } else if marks[0].Lost? {
      WaitsBetween(marks[1..], false, 0, i - 1, j - 1);
    } else {
      WaitsBetween(marks[1..], true, marks[0].time, i - 1, j - 1);
    }
  }

  /** Over every history from power-up: two calls allowed on one budget are at least the later one's interval apart,
    * even under different capability sets, unless the memory was lost in between. */
  lemma SpacedAcrossSets(es: seq<Event>, k: nat, i: nat, j: nat)
    requires k < MAX_CAPABILITIES && ClockedEvents(0, es)
    requires i < j < |History(Empty(), es, k)| && Kept(History(Empty(), es, k), i, j)
    requires History(Empty(), es, k)[i].Allowed? && History(Empty(), es, k)[j].Allowed?
    ensures var marks := History(Empty(), es, k);
            marks[i].time + marks[j].ms <= marks[j].time
  {
    HistoryWaits(Empty(), es, k, 0);
    hide History, Waits;
    WaitsBetween(History(Empty(), es, k), false, 0, i, j);
  }

  lemma FirstEvent(s: Limiter, es: seq<Event>, k: nat)
    requires Sixteen(s.budget) && es != []
    ensures History(s, es, k) == MarksOf(s, es[0], k) + History(AfterEvent(s, es[0]), es[1..], k)
  {
    hide MarksOf, AfterEvent;
  }

  lemma SevenAllowed(s: Limiter, hz: u32, now: u64)
    requires Sixteen(s.budget) && s.installed && s.caps == SevenAt(hz) && s.kinds == SEVEN_IS_GPIO && hz > 0
    requires !s.budget.seen[0] && now < LAST_TIME
    ensures MarksOf(s, Called(CallAt(OP_GPIO_SET, SetSeven(), now)), 0) == [Allowed(now, Interval(hz))]
  {
    SevenIsMetered(hz);
    hide OnlyMetered, Decide, ChargedTo, Interval, SetSeven;
    OneTick(s.caps, s.kinds, s.budget, CallAt(OP_GPIO_SET, SetSeven(), now), 0);
  }

  /** Installing a set with one capability at one call a second, and using it. */
  function UseAtOneHertz(): seq<Event> {
    [SetInstalled(SevenAt(1), SEVEN_IS_GPIO), Called(CallAt(OP_GPIO_SET, SetSeven(), 5))]
  }

  lemma UsedOnce(rest: seq<Event>) returns (s: Limiter)
    ensures Sixteen(s.budget)
    ensures History(Empty(), UseAtOneHertz() + rest, 0) == [Allowed(5, 1000)] + History(s, rest, 0)
  {
    var es := UseAtOneHertz() + rest;
    var s1 := AfterEvent(Empty(), es[0]);
    SevenAllowed(s1, 1, 5);
    assert Interval(1) == 1000;
    assert MarksOf(Empty(), es[0], 0) == [];
    assert es[1..][1..] == rest;
    hide History, MarksOf, AfterEvent, SetSeven, SevenAt, Sixteen;
    FirstEvent(Empty(), es, 0);
    FirstEvent(s1, es[1..], 0);
    s := AfterEvent(s1, es[1]);
  }

  lemma ForgottenFirst(s: Limiter, rest: seq<Event>)
    requires Sixteen(s.budget)
    ensures History(s, [Forgotten] + rest, 0) == [Lost] + History(Empty(), rest, 0)
  {
    FirstEvent(s, [Forgotten] + rest, 0);
    assert ([Forgotten] + rest)[1..] == rest;
    hide History;
  }

  lemma NoEvents(s: Limiter)
    requires Sixteen(s.budget)
    ensures History(s, [], 0) == []
  {
  }

  /** Losing the memory lets a second call through at the same millisecond, at one call a second. */
  lemma ForgettingAllowsAgain()
    ensures var es := UseAtOneHertz() + ([Forgotten] + UseAtOneHertz());
            History(Empty(), es, 0) == [Allowed(5, 1000), Lost, Allowed(5, 1000)]
  {
    hide History, UseAtOneHertz, Sixteen, Empty;
    var s := UsedOnce([Forgotten] + UseAtOneHertz());
    ForgottenFirst(s, UseAtOneHertz());
    assert UseAtOneHertz() + [] == UseAtOneHertz();
    var r := UsedOnce([]);
    NoEvents(r);
  }
}
