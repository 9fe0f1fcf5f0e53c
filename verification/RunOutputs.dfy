/** Which setup outputs a run banks. */
module RunOutputs {
  import opened Options
  import opened Transactions
  import opened Executions
  import R = RunProperties

  /** Script by script from the first, each under its resolved name and with everything it wrote. */
  predicate BankedPrefix(plan: Plan, w: World, banked: seq<(string, string)>) {
    |banked| <= |plan.setup|
    && forall i :: 0 <= i < |banked| ==>
      ScriptName(plan, w, i).Some? && w.setup(i).Ran? && banked[i] == (ScriptName(plan, w, i).get, w.setup(i).stdout)
  }

  lemma {:induction false} SetupBanks(plan: Plan, w: World, p: Progress, i: nat)
    requires i <= |plan.setup| && |p.banked| == i && BankedPrefix(plan, w, p.banked)
    ensures
      var (q, end) := SetupSteps(plan, w, p, i);
      && BankedPrefix(plan, w, q.banked)
      && (R.SetupGood(plan, w) ==> end == None)
      && (end == None ==> |q.banked| == |plan.setup|)
    decreases |plan.setup| - i
  {
    hide ScriptName;
    if i < |plan.setup| {
      var (q, fault) := SetUp(plan, w, p, i);
      SetUpBanks(plan, w, p, i);
      hide SetUp, BankedPrefix, R.SetupFault;
      if fault == None {
        SetupBanks(plan, w, q, i + 1);
      }
    }
  }

  lemma SetUpBanks(plan: Plan, w: World, p: Progress, i: nat)
    requires i < |plan.setup| && |p.banked| == i && BankedPrefix(plan, w, p.banked)
    ensures
      var (q, fault) := SetUp(plan, w, p, i);
      && BankedPrefix(plan, w, q.banked) && fault == R.SetupFault(plan, w, i)
      && (fault == None ==> |q.banked| == i + 1)
  {
    hide ScriptName;
    var q := SetUp(plan, w, p, i).0;
    assert q.banked == p.banked || q.banked[..i] == p.banked;
  }

  // ----- everything else leaves them alone -----

  lemma CrossingKeeps(plan: Plan, w: World, base: Context, p: Progress, boundary: string)
    ensures Crossing(plan, w, base, p, boundary).0.banked == p.banked
  {
    hide Step, SameSession;
  }

  lemma SteppedKeeps(plan: Plan, w: World, base: Context, p: Progress, i: nat)
    requires i < |plan.gesture|
    ensures Stepped(plan, w, base, p, i).0.banked == p.banked
  {
    var step := plan.gesture[i];
    CrossingKeeps(plan, w, base, p, step.profileAction);
    var q := Admitted(plan, w, base, p, step).0;
    if step.primitive.CommitStep? {
      CrossingKeeps(plan, w, base, q, step.primitive.boundary);
    }
    hide Crossing;
  }

  lemma {:induction false} GesturedKeeps(plan: Plan, w: World, base: Context, p: Progress, i: nat)
    requires i <= |plan.gesture|
    ensures Gestured(plan, w, base, p, i).0.banked == p.banked
    decreases |plan.gesture| - i
  {
    hide Stepped;
    if i < |plan.gesture| {
      SteppedKeeps(plan, w, base, p, i);
      GesturedKeeps(plan, w, base, Stepped(plan, w, base, p, i).0, i + 1);
    }
  }

  lemma FinishedKeeps(plan: Plan, w: World, p: Progress, guid: Option<string>)
    ensures forall e :: Finished(Cleaned(plan, w, p, guid), e).0.banked == p.banked
  {
    R.CleanedActs(plan, w, p, guid);
    hide Cleaned, R.CleanupActs;
  }

  lemma AbortedOutKeeps(plan: Plan, w: World, p: Progress, reason: string, guid: Option<string>)
    ensures AbortedOut(plan, w, p, reason, guid).0.banked == p.banked
  {
    hide Cleaned, Finished, Step;
    FinishedKeeps(plan, w, Aborted(p, reason), guid);
  }

  lemma RecordedKeeps(p: Progress)
    ensures Recorded(p).banked == p.banked
  {
  }

  lemma ResolvedKeeps(p: Progress, plan: Plan, w: World)
    requires w.converge.Ok?
    ensures Recorded(Resolved(p, w.converge.value)).banked == p.banked
  {
    hide Recorded;
    RecordedKeeps(Resolved(p, w.converge.value));
    CalledKeeps(p);
    hide Called;
  }

  lemma CalledKeeps(p: Progress)
    ensures forall call :: Called(p, call).banked == p.banked
  {
    hide Step;
  }

  lemma GesturingKeeps(plan: Plan, w: World, p: Progress, base: Context)
    ensures Gesturing(plan, w, p, base).0.banked == p.banked
  {
    hide Gestured, AbortedOut, Cleaned, Finished, Resolved, Recorded;
    GesturedKeeps(plan, w, base, p, 0);
    var q := Gestured(plan, w, base, p, 0).0;
    AbortedOutKeeps(plan, w, q, "post-oracle observation failed", RunGuid(plan, w));
    AbortedOutKeeps(plan, w, q, "run-sheet aborted", RunGuid(plan, w));
    RecordedKeeps(q);
    FinishedKeeps(plan, w, Recorded(q), RunGuid(plan, w));
    if w.converge.Ok? {
      var r := Did(q, ConvergeEnded(w.converge.value.status));
      ResolvedKeeps(r, plan, w);
      FinishedKeeps(plan, w, Recorded(Resolved(r, w.converge.value)), RunGuid(plan, w));
    }
  }

  lemma ArmingKeeps(plan: Plan, w: World, p: Progress, base: Context)
    ensures Arming(plan, w, p, base).0.banked == p.banked
  {
    hide Gesturing, AbortedOut, Step, Recorded;
    var (m, prepared) := Step(p.machine, Prepare(true, p.held, true, true, "prepared"));
    AbortedOutKeeps(plan, w, p.(machine := m), "prepare refused", RunGuid(plan, w));
    RecordedKeeps(p.(machine := m));
    var q := Recorded(p.(machine := m));
    var n := Step(q.machine, Arm("invocation started")).0;
    AbortedOutKeeps(plan, w, q.(machine := n), "prepare refused", RunGuid(plan, w));
    RecordedKeeps(q.(machine := n));
    GesturingKeeps(plan, w, Recorded(q.(machine := n)), base);
  }

  lemma AfterSetupKeeps(plan: Plan, w: World, p: Progress)
    ensures AfterSetup(plan, w, p).0.banked == p.banked
  {
    hide Arming, AbortedOut;
    AbortedOutKeeps(plan, w, p, "pre-oracle failed", RunGuid(plan, w));
    AbortedOutKeeps(plan, w, Did(p, PreOracleRead), "interactive context unavailable", RunGuid(plan, w));
    if w.context.Ok? {
      ArmingKeeps(plan, w, Did(Did(p, PreOracleRead), PreparedContext(w.context.value)), w.context.value);
    }
  }

  lemma AfterGatesBanks(plan: Plan, w: World, p: Progress)
    requires p.banked == []
    ensures BankedPrefix(plan, w, AfterGates(plan, w, p).0.banked)
    ensures w.domain.Ok? && R.SetupGood(plan, w) ==> |AfterGates(plan, w, p).0.banked| == |plan.setup|
  {
    hide AfterSetup, AbortedOut, SetupSteps, R.SetupGood, ScriptName;
    if w.domain.Ok? {
      var start := Did(p, DomainRead).(attempted := true);
      SetupBanks(plan, w, start, 0);
      hide BankedPrefix;
      var q := SetupSteps(plan, w, start, 0).0;
      AfterSetupKeeps(plan, w, q);
      AbortedOutKeeps(plan, w, q, "setup failed before prepare", w.guid);
    }
  }

  lemma NothingBanked(plan: Plan, w: World)
    ensures BankedPrefix(plan, w, [])
  {
  }

  /** A run banks the outputs of a prefix of its setup scripts, and of all of them when a transition was resolved. */
  lemma RunBanks(plan: Plan, w: World)
    ensures
      var (p, exit) := Executed(plan, w);
      && BankedPrefix(plan, w, p.banked)
      && (R.HasState(exit, Verified) || R.HasState(exit, Disproven) ==> |p.banked| == |plan.setup|)
  {
    RunBanksPrefix(plan, w);
    hide Executed, BankedPrefix, R.SetupGood, R.GatesGood, R.GestureGood, R.PostOracleIs, R.Script, WellFormed;
    R.VerifiedMeans(plan, w);
    R.DisprovenMeans(plan, w);
  }

  lemma RunBanksPrefix(plan: Plan, w: World)
    ensures BankedPrefix(plan, w, Executed(plan, w).0.banked)
    ensures R.Cleared(plan, w) && w.domain.Ok? && R.SetupGood(plan, w) ==> |Executed(plan, w).0.banked| == |plan.setup|
  {
    hide AfterLease, AfterGates, Gates, Finished, Aborted, BankedPrefix, R.SetupGood, R.GatesGood, R.GateActs, Released;
    NothingBanked(plan, w);
    FinishedBeforeSetup(START, "interactive session lease unavailable");
    AfterLeaseBanks(plan, w, Did(START.(held := true), LeaseAcquired));
  }

  lemma FinishedBeforeSetup(p: Progress, reason: string)
    ensures Finished(Aborted(p, reason), None).0.banked == p.banked
  {
    hide Step;
  }

  lemma AfterLeaseBanks(plan: Plan, w: World, p: Progress)
    requires p.banked == []
    ensures BankedPrefix(plan, w, AfterLease(plan, w, p).0.banked)
    ensures R.Cleared(plan, w) && w.domain.Ok? && R.SetupGood(plan, w) ==> |AfterLease(plan, w, p).0.banked| == |plan.setup|
  {
    hide AfterGates, Gates, Finished, Aborted, BankedPrefix, R.SetupGood, R.GatesGood, R.GateActs, Released;
    NothingBanked(plan, w);
    FinishedBeforeSetup(p, "console never reached unlocked");
    FinishedBeforeSetup(Did(p, ConsoleUnlocked), "no recovery checkpoint");
    ReleasedKeeps();
    if w.console == Ok(true) && w.checkpoint == Ok(true) {
      var q := Did(Did(p, ConsoleUnlocked), CheckpointPresent);
      GatesKeep(plan, w, q);
      AfterGatesBanks(plan, w, Gates(plan, w, q).0);
    }
  }

  lemma GatesKeep(plan: Plan, w: World, p: Progress)
    ensures Gates(plan, w, p).0.banked == p.banked
    ensures R.GatesGood(plan, w) ==> Gates(plan, w, p).1 == Passed
  {
    R.GatesExactly(plan, w, p);
    hide Gates, R.GatesGood, R.GateActs;
  }

  lemma ReleasedKeeps()
    ensures forall p: Progress :: Released(p).banked == p.banked
  {
  }
}
