/** Over whole runs: when an app counts as running, and when an authoriser is in place. */
module GuardRuns {
  import Words
  import opened Status
  import opened CborMap
  import opened GpioTable
  import opened Safety

  /** The steps that end an app: stopping, a no-bundle state whose outputs could be forced, a new initialisation. */
  predicate Ends(g: Guard, p: Profile, s: Step) {
    || s.Stop?
    || (s.NoApp? && EnterNoBundle(g, p).0 == OK)
    || (ValidProfile(p) && (s.Init? || (s.Install? && !g.ready)))
  }

  lemma CallKeepsMode(g: Guard, p: Profile, op: Words.u32, req: seq<Words.byte>, v: Verdict)
    ensures var g' := HostCall(g, p, op, req, v).1;
            g' == g.(table := g'.table)
  {
    hide FindU32, RequestedLevel, SetByResource, IsEmptyOrMap, Authorize;
  }

  lemma ForceKeepsMode(g: Guard, p: Profile)
    ensures var (status, g') := Force(g, p);
            g' == g.(table := g'.table) && (!g.ready ==> status == ERR_INVALID_STATE)
  {
    hide ApplyDefaults;
  }

  /** An app runs after a step exactly if the step marks one as running, or one ran before and the step keeps it. */
  lemma StepRuns(g: Guard, p: Profile, s: Step)
    ensures Next(g, p, s).state == AppRunning <==>
              (s.Running? && g.ready) || (g.state == AppRunning && !Ends(g, p, s))
  {
    hide Force, HostCall, ValidationStatus;
    ForceKeepsMode(g, p);
    ForceKeepsMode(g.(ready := true, state := BootSafe, hooked := true), p);
    if s.Call? {
      CallKeepsMode(g, p, s.op, s.req, s.verdict);
    }
  }

  /** No step of the run ends an app. */
  predicate NoEnd(g: Guard, p: Profile, ss: seq<Step>)
    decreases |ss|
  {
    ss == [] || (!Ends(g, p, ss[0]) && NoEnd(Next(g, p, ss[0]), p, ss[1..]))
  }

  /** The run marks an app as running, on an initialised guard, and nothing ends it after that. */
  ghost predicate MarkedLast(g: Guard, p: Profile, ss: seq<Step>) {
    exists i :: 0 <= i < |ss| && ss[i] == Running && Run(g, p, ss[..i]).ready
                && NoEnd(Run(g, p, ss[..i + 1]), p, ss[i + 1..])
  }

  lemma {:induction false} RunningIs(g: Guard, p: Profile, ss: seq<Step>)
    ensures Run(g, p, ss).state == AppRunning <==> (g.state == AppRunning && NoEnd(g, p, ss)) || MarkedLast(g, p, ss)
    decreases |ss|
  {
    hide Next, Ends, Run, NoEnd;
    RunFirst(g, p, ss);
    if ss != [] {
      var g', rest := Next(g, p, ss[0]), ss[1..];
      StepRuns(g, p, ss[0]);
      RunningIs(g', p, rest);
      MarkedFirst(g, p, ss);
    }
  }

  lemma RunFirst(g: Guard, p: Profile, ss: seq<Step>)
    ensures Run(g, p, ss) == if ss == [] then g else Run(Next(g, p, ss[0]), p, ss[1..])
    ensures NoEnd(g, p, ss) <==> ss == [] || (!Ends(g, p, ss[0]) && NoEnd(Next(g, p, ss[0]), p, ss[1..]))
  {
    hide Next, Ends;
  }

  lemma MarkedFirst(g: Guard, p: Profile, ss: seq<Step>)
    requires ss != []
    ensures var (g', rest) := (Next(g, p, ss[0]), ss[1..]);
            MarkedLast(g, p, ss) <==> (ss[0] == Running && g.ready && NoEnd(g', p, rest)) || MarkedLast(g', p, rest)
  {
    hide Next, Ends, Run, NoEnd;
    var g', rest := Next(g, p, ss[0]), ss[1..];
    RunFirst(g, p, []);
    RunFirst(g', p, []);
    forall i | 0 <= i < |ss|
      ensures i == 0 ==> Run(g, p, ss[..i]) == g && Run(g, p, ss[..i + 1]) == g' && ss[i + 1..] == rest
      ensures i > 0 ==> Run(g, p, ss[..i]) == Run(g', p, rest[..i - 1])
                        && Run(g, p, ss[..i + 1]) == Run(g', p, rest[..i - 1 + 1]) && ss[i + 1..] == rest[i - 1 + 1..]
    {
      RunFirst(g, p, ss[..i]);
      RunFirst(g, p, ss[..i + 1]);
      assert ss[..i + 1][1..] == rest[..i];
      if i > 0 {
        assert ss[..i][1..] == rest[..i - 1];
      } else {
        assert ss[..0] == [] && rest[..0] == [];
      }
    }
    if j :| 0 <= j < |rest| && rest[j] == Running && Run(g', p, rest[..j]).ready
            && NoEnd(Run(g', p, rest[..j + 1]), p, rest[j + 1..]) {
      assert ss[j + 1] == Running;
    }
  }

  /** Over every run from power-up: an app counts as running exactly if it was marked so on an initialised guard and
    * nothing ended it since; guest calls neither start nor end it. */
  lemma RunningExactly(p: Profile, ss: seq<Step>)
    ensures Run(Start(), p, ss).state == AppRunning <==> MarkedLast(Start(), p, ss)
  {
    RunningIs(Start(), p, ss);
    hide Run, NoEnd;
  }

  // ---- initialisation and the authoriser

  lemma StepReady(g: Guard, p: Profile, s: Step)
    requires g.hooked == g.ready
    ensures var g' := Next(g, p, s);
            && (g'.ready <==> g.ready || (ValidProfile(p) && (s.Init? || s.Install?)))
            && g'.hooked == g'.ready
            && (g'.authorizer <==> (s.Install? && InstallAuthorizer(g, p).0 == OK) || (g.authorizer && !s.Clear?))
            && (s.Install? && InstallAuthorizer(g, p).0 == OK ==> g'.ready)
  {
    hide Force, HostCall, ValidationStatus;
    ForceKeepsMode(g, p);
    ForceKeepsMode(g.(ready := true, state := BootSafe, hooked := true), p);
    if s.Call? {
      CallKeepsMode(g, p, s.op, s.req, s.verdict);
    }
  }

  /** Over every run: the guard is initialised exactly if the profile is valid and some step asked for it, and from then
    * on; the dispatcher reaches the outputs exactly then. */
  lemma {:induction false} ReadyExactly(g: Guard, p: Profile, ss: seq<Step>)
    requires g.hooked == g.ready
    ensures var g' := Run(g, p, ss);
            && (g'.ready <==> g.ready || (ValidProfile(p) && exists s <- ss :: s.Init? || s.Install?))
            && g'.hooked == g'.ready
    decreases |ss|
  {
    hide Next, Run, ValidProfile;
    RunFirst(g, p, ss);
    if ss != [] {
      StepReady(g, p, ss[0]);
      ReadyExactly(Next(g, p, ss[0]), p, ss[1..]);
      assert forall s :: s in ss <==> s == ss[0] || s in ss[1..];
    }
  }

  /** The run installs an authoriser, with success, and does not clear it after that. */
  ghost predicate InstalledLast(g: Guard, p: Profile, ss: seq<Step>) {
    exists i :: 0 <= i < |ss| && ss[i] == Install && InstallAuthorizer(Run(g, p, ss[..i]), p).0 == OK
                && Clear !in ss[i + 1..]
  }

  lemma InstalledFirst(g: Guard, p: Profile, ss: seq<Step>)
    requires ss != []
    ensures var (g', rest) := (Next(g, p, ss[0]), ss[1..]);
            InstalledLast(g, p, ss) <==>
              (ss[0] == Install && InstallAuthorizer(g, p).0 == OK && Clear !in rest) || InstalledLast(g', p, rest)
  {
    hide Next, Run, InstallAuthorizer;
    var g', rest := Next(g, p, ss[0]), ss[1..];
    RunFirst(g, p, []);
    forall i | 0 <= i < |ss|
      ensures i == 0 ==> Run(g, p, ss[..i]) == g && ss[i + 1..] == rest
      ensures i > 0 ==> Run(g, p, ss[..i]) == Run(g', p, rest[..i - 1]) && ss[i + 1..] == rest[i - 1 + 1..]
    {
      RunFirst(g, p, ss[..i]);
      if i > 0 {
        assert ss[..i][1..] == rest[..i - 1];
      } else {
        assert ss[..0] == [];
      }
    }
    if j :| 0 <= j < |rest| && rest[j] == Install && InstallAuthorizer(Run(g', p, rest[..j]), p).0 == OK
            && Clear !in rest[j + 1..] {
      assert ss[j + 1] == Install;
    }
  }

  /** Over every run: an authoriser is in place exactly if one was installed with success and not cleared since. */
  lemma {:induction false} AuthorizerExactly(g: Guard, p: Profile, ss: seq<Step>)
    requires g.hooked == g.ready
    ensures Run(g, p, ss).authorizer <==> (g.authorizer && Clear !in ss) || InstalledLast(g, p, ss)
    decreases |ss|
  {
    hide Next, Run, InstallAuthorizer;
    RunFirst(g, p, ss);
    if ss != [] {
      StepReady(g, p, ss[0]);
      AuthorizerExactly(Next(g, p, ss[0]), p, ss[1..]);
      InstalledFirst(g, p, ss);
      assert forall s :: s in ss <==> s == ss[0] || s in ss[1..];
    }
  }
}
