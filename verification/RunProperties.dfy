/** What every run keeps: the meaning of a verified record, and how runs end. */
module RunProperties {
  import opened Options
  import opened Transactions
  import opened Executions
  import C = Convergence
  import E = Envelopes
  import Footprint
  import V = Values
  import T = Text

  // ----- a verified run, told in order -----

  /** The boundaries one gesture step crosses: its mutating profile action, then its own commit. */
  function Asks(plan: Plan, step: SheetStep): seq<string> {
    var cls := ClassOf(plan, step.profileAction);
    (if step.profileAction != "" && cls.Some? && Mutates(cls.get) then [step.profileAction] else [])
      + (if step.primitive.CommitStep? then [step.primitive.boundary] else [])
  }

  predicate Matches(w: World, base: Context, k: nat) {
    w.crossing(k).Ok? && SameSession(base, w.crossing(k).value)
  }

  predicate Declared(plan: Plan, boundary: string) {
    var cls := ClassOf(plan, boundary);
    cls.Some? && Mutates(cls.get)
  }

  /** The `k`-th crossing, at `boundary`, is answered with the prepared session; the very first is declared. */
  predicate CrossingGood(plan: Plan, w: World, base: Context, k: nat, boundary: string) {
    Matches(w, base, k) && (k == 0 ==> Declared(plan, boundary))
  }

  predicate StepGood(plan: Plan, w: World, base: Context, i: nat, k: nat)
    requires i < |plan.gesture|
  {
    var step := plan.gesture[i];
    (step.profileAction == "" || step.profileAction in plan.actions)
    && w.step(i).Ok?
    && (step.primitive.CommitStep? ==> step.primitive.boundary != "")
    && forall j :: 0 <= j < |Asks(plan, step)| ==> CrossingGood(plan, w, base, k + j, Asks(plan, step)[j])
  }

  /** Every gesture step from the `i`-th on is done, with `k` crossings behind it. */
  predicate GoodFrom(plan: Plan, w: World, base: Context, i: nat, k: nat)
    requires i <= |plan.gesture|
    decreases |plan.gesture| - i
  {
    i == |plan.gesture|
    || (StepGood(plan, w, base, i, k) && GoodFrom(plan, w, base, i + 1, k + |Asks(plan, plan.gesture[i])|))
  }

  function CrossingActs(plan: Plan, w: World, k: nat, boundary: string): seq<Act> {
    [CrossingAsked(boundary, ClassOf(plan, boundary), w.crossing(k))] + if k == 0 then [Entered(CommitAttempted)] else []
  }

  function AskActs(plan: Plan, w: World, k: nat, boundaries: seq<string>): seq<Act>
    decreases boundaries
  {
    if boundaries == [] then []
    else CrossingActs(plan, w, k, boundaries[0]) + AskActs(plan, w, k + 1, boundaries[1..])
  }

  function GestureActs(plan: Plan, w: World, i: nat, k: nat): seq<Act>
    requires i <= |plan.gesture|
    decreases |plan.gesture| - i
  {
    if i == |plan.gesture| then []
    else
      var asks := Asks(plan, plan.gesture[i]);
      AskActs(plan, w, k, asks) + [StepDone(i)] + GestureActs(plan, w, i + 1, k + |asks|)
  }

  function CrossingsFrom(plan: Plan, i: nat): nat
    requires i <= |plan.gesture|
    decreases |plan.gesture| - i
  {
    if i == |plan.gesture| then 0 else |Asks(plan, plan.gesture[i])| + CrossingsFrom(plan, i + 1)
  }

  /** Armed before the first crossing, commit-attempted after it: the two states a gesture can be in. */
  predicate InGesture(p: Progress) {
    p.machine.state == Some(if p.crossings == 0 then Armed else CommitAttempted)
    && p.emitted == p.machine.events && WellFormed(p.machine)
  }

  /** Nothing but the log, the acts and the crossing count moves. */
  predicate Beside(p: Progress, q: Progress) {
    q.held == p.held && q.attempted == p.attempted && q.cleanups == p.cleanups && q.note == p.note
  }

  // ----- how crossings, steps and gestures end, from the answers alone -----

  /** The `k`-th crossing. */
  function CrossingEnd(plan: Plan, w: World, base: Context, k: nat, boundary: string): GestureEnd {
    match w.crossing(k)
    case Raised(fault) => Stopped(if fault == ExecError then SheetError else fault)
    case Ok(c) =>
      if !SameSession(base, c) then Stopped(SheetError)
      else if k == 0 && !Declared(plan, boundary) then HardStopped
      else Completed
  }

  function AdmittedEnd(plan: Plan, w: World, base: Context, k: nat, action: string): GestureEnd {
    if action == "" then Completed
    else if action !in plan.actions then Stopped(SheetError)
    else if Declared(plan, action) then CrossingEnd(plan, w, base, k, action)
    else Completed
  }

  /** The `i`-th step, with `k` crossings behind it: its first failing answer decides. */
  function StepEnd(plan: Plan, w: World, base: Context, i: nat, k: nat): GestureEnd
    requires i < |plan.gesture|
  {
    var step := plan.gesture[i];
    var before := AdmittedEnd(plan, w, base, k, step.profileAction);
    if before != Completed then before
    else if w.step(i).Raised? then Stopped(w.step(i).fault)
    else match step.primitive
      case PlainStep => Completed
      case CommitStep(boundary) =>
        if boundary == "" then Stopped(SheetError)
        else
          var own := step.profileAction != "" && Declared(plan, step.profileAction);
          CrossingEnd(plan, w, base, if own then k + 1 else k, boundary)
  }

  function GestureEndFrom(plan: Plan, w: World, base: Context, i: nat, k: nat): GestureEnd
    requires i <= |plan.gesture|
    decreases |plan.gesture| - i
  {
    if i == |plan.gesture| then Completed
    else
      var end := StepEnd(plan, w, base, i, k);
      if end != Completed then end else GestureEndFrom(plan, w, base, i + 1, k + |Asks(plan, plan.gesture[i])|)
  }

  function CrossingsBefore(plan: Plan, i: nat): nat
    requires i <= |plan.gesture|
  {
    if i == 0 then 0 else CrossingsBefore(plan, i - 1) + |Asks(plan, plan.gesture[i - 1])|
  }

  /** The `i`-th step is the first that is not good, and ends the gesture this way. */
  predicate GestureStopsAt(plan: Plan, w: World, base: Context, i: nat, end: GestureEnd) {
    i < |plan.gesture| && end != Completed
    && (forall j :: 0 <= j < i ==> StepGood(plan, w, base, j, CrossingsBefore(plan, j)))
    && StepEnd(plan, w, base, i, CrossingsBefore(plan, i)) == end
  }

  predicate GestureStops(plan: Plan, w: World, base: Context, end: GestureEnd) {
    exists i :: 0 <= i < |plan.gesture| && GestureStopsAt(plan, w, base, i, end)
  }

  lemma CrossingExactly(plan: Plan, w: World, base: Context, p: Progress, boundary: string)
    requires InGesture(p)
    ensures
      var (q, end) := Crossing(plan, w, base, p, boundary);
      && Beside(p, q)
      && end == CrossingEnd(plan, w, base, p.crossings, boundary)
      && (end == Completed <==> CrossingGood(plan, w, base, p.crossings, boundary))
      && (end == Completed ==>
        InGesture(q) && q.crossings == p.crossings + 1 && q.acts == p.acts + CrossingActs(plan, w, p.crossings, boundary))
      && (end.Stopped? ==> q.machine == p.machine && q.emitted == p.emitted)
      && (end == HardStopped ==> p.crossings == 0 && !Declared(plan, boundary) && StoppedHard(q))
  {
    hide WellFormed, Step, SameSession;
    if Matches(w, base, p.crossings) && p.crossings == 0 {
      FirstCrossing(plan, w, base, p, boundary);
    }
  }

  lemma FirstCrossing(plan: Plan, w: World, base: Context, p: Progress, boundary: string)
    requires InGesture(p) && p.crossings == 0 && Matches(w, base, 0)
    ensures
      var (q, end) := Crossing(plan, w, base, p, boundary);
      && Beside(p, q)
      && end == (if Declared(plan, boundary) then Completed else HardStopped)
      && (end == Completed ==> InGesture(q) && q.crossings == 1 && q.acts == p.acts + CrossingActs(plan, w, 0, boundary))
      && (end == HardStopped ==> StoppedHard(q))
  {
    hide WellFormed, Step, SameSession;
    var declared := Declared(plan, boundary);
    CommitFromArmed(p.machine, declared, if declared then "run-sheet crosses " + boundary else "");
  }

  lemma CommitFromArmed(m: Machine, declared: bool, reason: string)
    requires WellFormed(m) && m.state == Some(Armed)
    ensures
      var (n, reply) := Step(m, Call.Commit(declared, reason));
      && WellFormed(n) && (declared ==> reply.Moved?) && (!declared ==> reply == HardStop)
      && n.state == Some(if declared then CommitAttempted else Indeterminate)
      && n.events != [] && n.events[..|n.events| - 1] == m.events
      && n.events == m.events + [n.events[|n.events| - 1]] && n.events[|n.events| - 1].to == n.state.get
  {
    StepWellFormed(m, Call.Commit(declared, reason));
    hide WellFormed;
  }

  /** The hard stop: the log has the transition to indeterminate, which nobody has recorded yet. */
  predicate StoppedHard(p: Progress) {
    WellFormed(p.machine) && p.machine.state == Some(Indeterminate)
    && p.machine.events != [] && p.emitted == p.machine.events[..|p.machine.events| - 1]
  }

  /** What a gesture can end as, started anywhere in its steps. */
  predicate GestureSpec(plan: Plan, w: World, base: Context, p: Progress, i: nat, q: Progress, end: GestureEnd)
    requires i <= |plan.gesture|
  {
    && Beside(p, q)
    && end == GestureEndFrom(plan, w, base, i, p.crossings)
    && (end == Completed <==> GoodFrom(plan, w, base, i, p.crossings))
    && (end == Completed ==>
      InGesture(q) && q.crossings == p.crossings + CrossingsFrom(plan, i)
      && q.acts == p.acts + GestureActs(plan, w, i, p.crossings))
    && (end.Stopped? ==> InGestureLog(q))
    && (end == HardStopped ==> StoppedHard(q))
  }

  /** As `InGesture`, without the crossing that was refused just now. */
  predicate InGestureLog(p: Progress) {
    (p.machine.state == Some(Armed) || p.machine.state == Some(CommitAttempted))
    && p.emitted == p.machine.events && WellFormed(p.machine)
  }

  lemma AdmittedExactly(plan: Plan, w: World, base: Context, p: Progress, step: SheetStep)
    requires InGesture(p)
    ensures
      var (q, end) := Admitted(plan, w, base, p, step);
      var own := step.profileAction != "" && Declared(plan, step.profileAction);
      && Beside(p, q)
      && end == AdmittedEnd(plan, w, base, p.crossings, step.profileAction)
      && (end == Completed <==>
        (step.profileAction == "" || step.profileAction in plan.actions)
        && (own ==> CrossingGood(plan, w, base, p.crossings, step.profileAction)))
      && (end == Completed ==>
        InGesture(q) && q.crossings == p.crossings + (if own then 1 else 0)
        && q.acts == p.acts + (if own then CrossingActs(plan, w, p.crossings, step.profileAction) else []))
      && (end.Stopped? ==> InGestureLog(q))
      && (end == HardStopped ==> StoppedHard(q))
  {
    CrossingExactly(plan, w, base, p, step.profileAction);
    hide Crossing, WellFormed, CrossingGood, CrossingActs, CrossingEnd;
  }

  lemma PerformedExactly(plan: Plan, w: World, base: Context, p: Progress, i: nat)
    requires InGesture(p) && i < |plan.gesture|
    ensures
      var (q, end) := Performed(plan, w, base, p, i);
      var own := plan.gesture[i].primitive.CommitStep?;
      && Beside(p, q)
      && end == (if w.step(i).Raised? then Stopped(w.step(i).fault)
                 else if !own then Completed
                 else if plan.gesture[i].primitive.boundary == "" then Stopped(SheetError)
                 else CrossingEnd(plan, w, base, p.crossings, plan.gesture[i].primitive.boundary))
      && (end == Completed <==>
        w.step(i).Ok?
        && (own ==> plan.gesture[i].primitive.boundary != ""
                    && CrossingGood(plan, w, base, p.crossings, plan.gesture[i].primitive.boundary)))
      && (end == Completed ==>
        InGesture(q) && q.crossings == p.crossings + (if own then 1 else 0)
        && q.acts == p.acts + (if own then CrossingActs(plan, w, p.crossings, plan.gesture[i].primitive.boundary) else []))
      && (end.Stopped? ==> InGestureLog(q))
      && (end == HardStopped ==> StoppedHard(q))
  {
    if plan.gesture[i].primitive.CommitStep? {
      CrossingExactly(plan, w, base, p, plan.gesture[i].primitive.boundary);
    }
    hide Crossing, WellFormed, CrossingGood, CrossingActs, CrossingEnd;
  }

  /** The two crossings of a step, as its list of boundaries says them. */
  lemma AskActsOf(plan: Plan, w: World, step: SheetStep, k: nat)
    ensures
      var own := step.profileAction != "" && Declared(plan, step.profileAction);
      var (n, asks) := (if own then 1 else 0, Asks(plan, step));
      && |asks| == n + (if step.primitive.CommitStep? then 1 else 0)
      && AskActs(plan, w, k, asks) ==
        (if own then CrossingActs(plan, w, k, step.profileAction) else [])
        + (if step.primitive.CommitStep? then CrossingActs(plan, w, k + n, step.primitive.boundary) else [])
  {
    var asks := Asks(plan, step);
    if |asks| == 2 {
      assert asks[1..] == [asks[1]];
      OneAsk(plan, w, k + 1, asks[1]);
    } else if |asks| == 1 {
      assert asks == [asks[0]];
      OneAsk(plan, w, k, asks[0]);
    }
    hide CrossingActs;
  }

  lemma OneAsk(plan: Plan, w: World, k: nat, boundary: string)
    ensures AskActs(plan, w, k, [boundary]) == CrossingActs(plan, w, k, boundary)
  {
    assert [boundary][1..] == [];
    hide CrossingActs;
  }

  lemma AllOfTwo(plan: Plan, w: World, base: Context, k: nat, asks: seq<string>)
    requires |asks| <= 2
    ensures (forall j :: 0 <= j < |asks| ==> CrossingGood(plan, w, base, k + j, asks[j])) <==>
      (|asks| > 0 ==> CrossingGood(plan, w, base, k, asks[0])) && (|asks| > 1 ==> CrossingGood(plan, w, base, k + 1, asks[1]))
  {
    hide CrossingGood;
    if forall j :: 0 <= j < |asks| ==> CrossingGood(plan, w, base, k + j, asks[j]) {
      assert |asks| > 0 ==> CrossingGood(plan, w, base, k + 0, asks[0]);
      assert |asks| > 1 ==> CrossingGood(plan, w, base, k + 1, asks[1]);
    }
  }

  lemma AsksGood(plan: Plan, w: World, base: Context, i: nat, k: nat)
    requires i < |plan.gesture|
    ensures
      var step := plan.gesture[i];
      var own := step.profileAction != "" && Declared(plan, step.profileAction);
      StepGood(plan, w, base, i, k) <==>
        (step.profileAction == "" || step.profileAction in plan.actions)
        && w.step(i).Ok?
        && (own ==> CrossingGood(plan, w, base, k, step.profileAction))
        && (step.primitive.CommitStep? ==>
          step.primitive.boundary != ""
          && CrossingGood(plan, w, base, k + (if own then 1 else 0), step.primitive.boundary))
  {
    var step := plan.gesture[i];
    var asks := Asks(plan, step);
    var own := step.profileAction != "" && Declared(plan, step.profileAction);
    assert own ==> asks[0] == step.profileAction;
    assert step.primitive.CommitStep? ==> asks[if own then 1 else 0] == step.primitive.boundary;
    assert |asks| == (if own then 1 else 0) + (if step.primitive.CommitStep? then 1 else 0);
    hide CrossingGood, Asks, Declared;
    AllOfTwo(plan, w, base, k, asks);
  }

  lemma SteppedExactly(plan: Plan, w: World, base: Context, p: Progress, i: nat)
    requires InGesture(p) && i < |plan.gesture|
    ensures
      var (q, end) := Stepped(plan, w, base, p, i);
      var asks := Asks(plan, plan.gesture[i]);
      && Beside(p, q)
      && end == StepEnd(plan, w, base, i, p.crossings)
      && (end == Completed <==> StepGood(plan, w, base, i, p.crossings))
      && (end == Completed ==>
        InGesture(q) && q.crossings == p.crossings + |asks|
        && q.acts == p.acts + AskActs(plan, w, p.crossings, asks) + [StepDone(i)])
      && (end.Stopped? ==> InGestureLog(q))
      && (end == HardStopped ==> StoppedHard(q))
  {
    hide Admitted, Performed, WellFormed, CrossingGood, StepGood, AskActs, Asks, CrossingActs, Declared, CrossingEnd, AdmittedEnd;
    var step := plan.gesture[i];
    AdmittedExactly(plan, w, base, p, step);
    AskActsOf(plan, w, step, p.crossings);
    AsksGood(plan, w, base, i, p.crossings);
    var (q, before) := Admitted(plan, w, base, p, step);
    if before == Completed {
      PerformedExactly(plan, w, base, q, i);
      var own := step.profileAction != "" && Declared(plan, step.profileAction);
      T.Assoc(p.acts,
             if own then CrossingActs(plan, w, p.crossings, step.profileAction) else [],
             if step.primitive.CommitStep? then CrossingActs(plan, w, q.crossings, step.primitive.boundary) else []);
    }
  }

  lemma {:induction false} GesturedExactly(plan: Plan, w: World, base: Context, p: Progress, i: nat)
    requires InGesture(p) && i <= |plan.gesture|
    ensures GestureSpec(plan, w, base, p, i, Gestured(plan, w, base, p, i).0, Gestured(plan, w, base, p, i).1)
    decreases |plan.gesture| - i
  {
    hide WellFormed, StepGood, AskActs, Asks, Stepped, StepEnd;
    if i == |plan.gesture| {
      assert p.acts + [] == p.acts;
    } else {
      SteppedExactly(plan, w, base, p, i);
      var (q, end) := Stepped(plan, w, base, p, i);
      if end == Completed {
        GesturedExactly(plan, w, base, q, i + 1);
        GestureActsStep(plan, w, p.acts, q.acts, i, p.crossings, q.crossings);
      }
    }
  }

  lemma GestureActsStep(plan: Plan, w: World, before: seq<Act>, after: seq<Act>, i: nat, k: nat, l: nat)
    requires i < |plan.gesture| && l == k + |Asks(plan, plan.gesture[i])|
    requires after == before + AskActs(plan, w, k, Asks(plan, plan.gesture[i])) + [StepDone(i)]
    ensures after + GestureActs(plan, w, i + 1, l) == before + GestureActs(plan, w, i, k)
  {
    hide AskActs, Asks;
  }

  lemma {:induction false} EndMeansGood(plan: Plan, w: World, base: Context, i: nat, k: nat)
    requires i < |plan.gesture|
    ensures StepEnd(plan, w, base, i, k) == Completed <==> StepGood(plan, w, base, i, k)
  {
    AsksGood(plan, w, base, i, k);
    hide StepGood, Asks;
  }

  /** The gesture ends as its first step that is not good does, or completes. */
  lemma {:induction false} GestureStopsExactly(plan: Plan, w: World, base: Context, i: nat, end: GestureEnd)
    requires i <= |plan.gesture| && end != Completed
    requires forall j :: 0 <= j < i ==> StepGood(plan, w, base, j, CrossingsBefore(plan, j))
    ensures GestureEndFrom(plan, w, base, i, CrossingsBefore(plan, i)) == end <==> GestureStops(plan, w, base, end)
    ensures GestureEndFrom(plan, w, base, i, CrossingsBefore(plan, i)) == Completed <==> GoodFrom(plan, w, base, i, CrossingsBefore(plan, i))
    decreases |plan.gesture| - i
  {
    hide StepEnd, StepGood, Asks;
    if i < |plan.gesture| {
      var k := CrossingsBefore(plan, i);
      EndMeansGood(plan, w, base, i, k);
      if StepGood(plan, w, base, i, k) {
        GestureStopsExactly(plan, w, base, i + 1, end);
      } else if GestureStops(plan, w, base, end) {
        var n :| 0 <= n < |plan.gesture| && GestureStopsAt(plan, w, base, n, end);
        EndMeansGood(plan, w, base, n, CrossingsBefore(plan, n));
        assert n == i;
      } else {
        assert !GestureStopsAt(plan, w, base, i, end);
      }
    } else if GestureStops(plan, w, base, end) {
      var n :| 0 <= n < |plan.gesture| && GestureStopsAt(plan, w, base, n, end);
      EndMeansGood(plan, w, base, n, CrossingsBefore(plan, n));
    }
  }

  // ----- how a run ends -----

  /** The lease is held, nothing is cleaned up, and every event has been emitted. */
  predicate Underway(p: Progress) {
    p.held && p.cleanups == 0 && p.emitted == p.machine.events && WellFormed(p.machine)
  }

  function StepActs(w: World, n: nat): seq<Act> {
    if n == 0 then [] else StepActs(w, n - 1) + [CleanupStep(n - 1, w.cleanup(n - 1).Ok?)]
  }

  /** All of a cleanup: every step in order, then the absence query when there is an object to ask about. */
  function CleanupActs(plan: Plan, w: World, guid: Option<string>): seq<Act> {
    [CleanupBegun] + StepActs(w, plan.cleanup) + if guid.Some? && guid.get != "" then [Requeried(w.requery)] else []
  }

  /** The emitted events are the log, but for a last event nobody recorded. */
  predicate EmittedLog(p: Progress, complete: bool) {
    && (complete ==> p.emitted == p.machine.events)
    && (!complete ==>
      p.machine.state == Some(Indeterminate) && p.machine.events != []
      && p.emitted == p.machine.events[..|p.machine.events| - 1])
  }

  predicate Suffix(acts: seq<Act>, tail: seq<Act>) {
    |tail| <= |acts| && acts[|acts| - |tail|..] == tail
  }

  /** How a run may end, from `before` on: with `complete` telling whether the emitted events are the whole log. */
  predicate EndsWell(plan: Plan, w: World, before: Progress, p: Progress, exit: Exit, complete: bool) {
    match exit
    case Escaped(_) => p.held == before.held && p.cleanups == 0
    case Declined => !p.held && p.cleanups == 0 && !p.attempted && p.machine == FRESH && p.acts != [] && p.acts[|p.acts| - 1] == LeaseReleased
    case Emitted(record) =>
      && !p.held
      && record.events == p.emitted && EmittedLog(p, complete) && WellFormed(p.machine)
      && record.state == EmittedState(p.machine)
      && (p.machine.state.Some? ==> Terminal(p.machine.state.get))
      && p.cleanups == (if p.attempted then 1 else 0)
      && (p.attempted ==>
        Suffix(p.acts, CleanupActs(plan, w, w.guid) + [LeaseReleased])
        || Suffix(p.acts, CleanupActs(plan, w, RunGuid(plan, w)) + [LeaseReleased]))
  }

  lemma {:induction false} CleanupStepsActs(plan: Plan, w: World, p: Progress, i: nat)
    requires i <= plan.cleanup
    ensures CleanupSteps(plan, w, p, i) == p.(acts := CleanupSteps(plan, w, p, i).acts)
    ensures forall done: seq<Act> :: p.acts == done + StepActs(w, i) ==> CleanupSteps(plan, w, p, i).acts == done + StepActs(w, plan.cleanup)
    decreases plan.cleanup - i
  {
    if i < plan.cleanup {
      CleanupStepsActs(plan, w, Did(p, CleanupStep(i, w.cleanup(i).Ok?)), i + 1);
      forall done: seq<Act> | p.acts == done + StepActs(w, i)
        ensures CleanupSteps(plan, w, p, i).acts == done + StepActs(w, plan.cleanup)
      {
        assert done + StepActs(w, i) + [CleanupStep(i, w.cleanup(i).Ok?)] == done + StepActs(w, i + 1);
      }
    }
  }

  lemma CleanedActs(plan: Plan, w: World, p: Progress, guid: Option<string>)
    ensures Cleaned(plan, w, p, guid) == p.(acts := p.acts + CleanupActs(plan, w, guid), cleanups := p.cleanups + 1)
  {
    var begun := Did(p, CleanupBegun).(cleanups := p.cleanups + 1);
    CleanupStepsActs(plan, w, begun, 0);
    var done := p.acts + [CleanupBegun];
    assert done + StepActs(w, 0) == done;
    hide CleanupSteps, StepActs;
    assert done + StepActs(w, plan.cleanup) == p.acts + ([CleanupBegun] + StepActs(w, plan.cleanup));
  }

  lemma FinishedWell(plan: Plan, w: World, before: Progress, p: Progress, envelope: Option<C.ConvergenceResult>,
                     guid: Option<string>, complete: bool)
    requires p.held && p.cleanups == 0 && p.attempted && EmittedLog(p, complete) && WellFormed(p.machine)
    requires p.machine.state.Some? ==> Terminal(p.machine.state.get)
    requires guid == w.guid || guid == RunGuid(plan, w)
    ensures
      var (q, exit) := Finished(Cleaned(plan, w, p, guid), envelope);
      EndsWell(plan, w, before, q, exit, complete) && exit.Emitted? && q.machine == p.machine
      && exit.record.envelope == envelope
      && q.acts == p.acts + CleanupActs(plan, w, guid) + [LeaseReleased]
  {
    hide WellFormed, CleanupActs, Cleaned;
    CleanedActs(plan, w, p, guid);
    SuffixOf(p.acts, CleanupActs(plan, w, guid) + [LeaseReleased]);
    T.Assoc(p.acts, CleanupActs(plan, w, guid), [LeaseReleased]);
  }

  lemma SuffixOf(done: seq<Act>, tail: seq<Act>)
    ensures Suffix(done + tail, tail)
  {
  }

  lemma AbortedOutWell(plan: Plan, w: World, before: Progress, p: Progress, reason: string, guid: Option<string>)
    requires Underway(p) && p.attempted && (p.machine.state.Some? ==> !Terminal(p.machine.state.get))
    requires guid == w.guid || guid == RunGuid(plan, w)
    ensures
      var (q, exit) := AbortedOut(plan, w, p, reason, guid);
      EndsWell(plan, w, before, q, exit, p.machine.state.None?)
      && exit.Emitted? && exit.record.state == Indeterminate && exit.record.envelope == None
  {
    hide WellFormed;
    StepWellFormed(p.machine, MarkIndeterminate(reason));
    FinishedWell(plan, w, before, Aborted(p, reason), None, guid, p.machine.state.None?);
    hide Finished, Cleaned;
  }

  // ----- the stages, last first -----

  predicate HasState(exit: Exit, state: State) {
    exit.Emitted? && exit.record.state == state
  }

  predicate PostOracleIs(w: World, status: E.Status) {
    w.envelope.Ok? && w.converge.Ok? && w.converge.value.status == status
  }

  /** What a resolved run does after its gesture. */
  function FinalActs(plan: Plan, w: World, status: E.Status, state: State): seq<Act> {
    [ConvergeEnded(status), Entered(state)] + CleanupActs(plan, w, RunGuid(plan, w)) + [LeaseReleased]
  }

  /** A verified or disproven ending, with the acts since `before`. */
  predicate ResolvedAs(plan: Plan, w: World, acts: seq<Act>, p: Progress, exit: Exit, status: E.Status, state: State) {
    exit.Emitted? && p.machine.state == Some(state) && p.emitted == p.machine.events && w.converge.Ok?
    && exit.record.envelope == Some(w.converge.value)
    && p.acts == acts + FinalActs(plan, w, status, state)
  }

  lemma ResolvedWell(p: Progress, c: C.ConvergenceResult)
    requires Underway(p) && p.machine.state == Some(if p.crossings == 0 then Armed else CommitAttempted)
    ensures
      var q := Recorded(Resolved(p, c));
      && q.emitted == q.machine.events && WellFormed(q.machine) && Beside(p, q)
      && q.machine.state == Some(
           if p.crossings == 0 || c.status == E.StIndeterminate then Indeterminate
           else if c.status == E.StSatisfied then Verified else Disproven)
      && q.acts == p.acts + [Entered(q.machine.state.get)]
  {
    var call := if p.crossings == 0 then MarkIndeterminate("no commit crossing; nothing to resolve")
      else match c.status
        case StSatisfied => Resolve(true, true, "", "converged")
        case StDisproven => Resolve(false, true, "envelope violated", "")
        case StIndeterminate => MarkIndeterminate("convergence indeterminate");
    hide WellFormed, Step;
    ResolvingCall(p.machine, call);
  }

  /** A call that resolves, or gives up on, a transaction under way appends its one event. */
  lemma ResolvingCall(m: Machine, call: Call)
    requires WellFormed(m) && (m.state == Some(Armed) || m.state == Some(CommitAttempted))
    requires call.MarkIndeterminate? || (m.state == Some(CommitAttempted) && call.Resolve?)
    requires call.Resolve? ==> call.reproduceSatisfied && (call.envelopeSatisfied || call.characterization != "")
    ensures
      var n := Step(m, call).0;
      && WellFormed(n) && |n.events| == |m.events| + 1 && n.events[..|m.events|] == m.events
      && n.events == m.events + [n.events[|m.events|]]
      && n.state == Some(if call.MarkIndeterminate? then Indeterminate else if call.envelopeSatisfied then Verified else Disproven)
      && n.events[|m.events|].to == n.state.get
  {
    StepWellFormed(m, call);
    hide WellFormed;
  }

  lemma AfterGestureWell(plan: Plan, w: World, p: Progress)
    requires Underway(p) && p.attempted && p.machine.state == Some(if p.crossings == 0 then Armed else CommitAttempted)
    ensures
      var (q, exit) := AfterGesture(plan, w, p);
      && EndsWell(plan, w, p, q, exit, !(w.envelope.Ok? && w.converge.Raised?))
      && (exit.Escaped? <==> w.envelope.Raised?) && (exit.Escaped? ==> w.envelope == Raised(exit.fault)) && !exit.Declined?
      && (HasState(exit, Verified) <==> PostOracleIs(w, E.StSatisfied) && p.crossings > 0)
      && (HasState(exit, Disproven) <==> PostOracleIs(w, E.StDisproven) && p.crossings > 0)
      && (HasState(exit, Verified) ==> ResolvedAs(plan, w, p.acts, q, exit, E.StSatisfied, Verified))
      && (HasState(exit, Disproven) ==> ResolvedAs(plan, w, p.acts, q, exit, E.StDisproven, Disproven))
  {
    hide WellFormed, AbortedOut, Cleaned, Finished, CleanupActs, Resolved;
    if w.envelope.Ok? && w.converge.Ok? {
      var c := w.converge.value;
      var r := Did(p, ConvergeEnded(c.status));
      ResolvedWell(r, c);
      var q := Recorded(Resolved(r, c));
      FinishedWell(plan, w, p, q, Some(c), RunGuid(plan, w), true);
      FinalConcat(plan, w, p.acts, c.status, q.machine.state.get);
    } else if w.envelope.Ok? {
      AbortedOutWell(plan, w, p, p, "post-oracle observation failed", RunGuid(plan, w));
    }
  }

  lemma FinalConcat(plan: Plan, w: World, acts: seq<Act>, status: E.Status, state: State)
    ensures acts + [ConvergeEnded(status)] + [Entered(state)] + CleanupActs(plan, w, RunGuid(plan, w)) + [LeaseReleased]
      == acts + FinalActs(plan, w, status, state)
  {
    hide CleanupActs;
  }

  /** The two ways out after prepare that leave the last event of the log unrecorded. */
  predicate DropsLastEvent(plan: Plan, w: World, base: Context) {
    GestureStops(plan, w, base, Stopped(SheetError)) || (GoodFrom(plan, w, base, 0, 0) && w.envelope.Ok? && w.converge.Raised?)
  }

  predicate GestureGood(plan: Plan, w: World, base: Context) {
    GoodFrom(plan, w, base, 0, 0) && CrossingsFrom(plan, 0) > 0
  }

  lemma GesturingWell(plan: Plan, w: World, p: Progress, base: Context)
    requires Underway(p) && p.attempted && p.machine.state == Some(Armed) && p.crossings == 0
    ensures
      var (q, exit) := Gesturing(plan, w, p, base);
      var acts := p.acts + GestureActs(plan, w, 0, 0);
      && EndsWell(plan, w, p, q, exit, !DropsLastEvent(plan, w, base)) && !exit.Declined?
      && (HasState(exit, Verified) <==> GestureGood(plan, w, base) && PostOracleIs(w, E.StSatisfied))
      && (HasState(exit, Disproven) <==> GestureGood(plan, w, base) && PostOracleIs(w, E.StDisproven))
      && (HasState(exit, Verified) ==> ResolvedAs(plan, w, acts, q, exit, E.StSatisfied, Verified))
      && (HasState(exit, Disproven) ==> ResolvedAs(plan, w, acts, q, exit, E.StDisproven, Disproven))
  {
    hide WellFormed, AbortedOut, Cleaned, Finished, AfterGesture, Gestured, GoodFrom, GestureActs, CrossingsFrom, ResolvedAs, PostOracleIs,
      GestureStops, GestureEndFrom;
    GesturedExactly(plan, w, base, p, 0);
    GestureStopsExactly(plan, w, base, 0, Stopped(SheetError));
    assert CrossingsBefore(plan, 0) == 0;
    var (q, end) := Gestured(plan, w, base, p, 0);
    match end {
      case Completed => AfterGestureWell(plan, w, q);
      case HardStopped => FinishedWell(plan, w, p, Recorded(q), None, RunGuid(plan, w), true);
      case Stopped(fault) =>
        if fault == SheetError {
          AbortedOutWell(plan, w, p, q, "run-sheet aborted", RunGuid(plan, w));
        }
    }
  }

  lemma PrepareAndArm(m: Machine, prepared: string, armed: string)
    requires m == FRESH
    ensures
      var (n, one) := Step(m, Prepare(true, true, true, true, prepared));
      var (o, two) := Step(n, Arm(armed));
      && one.Moved? && two.Moved? && WellFormed(n) && WellFormed(o) && o.state == Some(Armed)
      && |n.events| == 1 && n.events[0].to == Prepared && |o.events| == 2 && o.events[0] == n.events[0] && o.events[1].to == Armed
  {
    StepWellFormed(m, Prepare(true, true, true, true, prepared));
    StepWellFormed(Step(m, Prepare(true, true, true, true, prepared)).0, Arm(armed));
    hide WellFormed;
  }

  /** The progress in which the gesture phase of a run begins. */
  function AtGesture(plan: Plan, w: World, p: Progress): Progress {
    var q := Recorded(Called(p, Prepare(true, p.held, true, true, "prepared")));
    Recorded(Called(q, Arm("invocation started")))
  }

  lemma ArmingWell(plan: Plan, w: World, p: Progress, base: Context)
    requires Underway(p) && p.attempted && p.machine == FRESH && p.crossings == 0
    ensures Arming(plan, w, p, base) == Gesturing(plan, w, AtGesture(plan, w, p), base)
    ensures Underway(AtGesture(plan, w, p)) && AtGesture(plan, w, p).machine.state == Some(Armed) && Beside(p, AtGesture(plan, w, p))
    ensures AtGesture(plan, w, p).crossings == 0
    ensures AtGesture(plan, w, p).acts == p.acts + [Entered(Prepared), Entered(Armed)]
  {
    PrepareAndArm(p.machine, "prepared", "invocation started");
    hide Gesturing, Step, WellFormed;
  }

  function RowActs(n: nat): seq<Act> {
    if n == 0 then [] else RowActs(n - 1) + [RowEqual(n - 1)]
  }

  function SetupActs(n: nat): seq<Act> {
    if n == 0 then [] else SetupActs(n - 1) + [SetupStep(n - 1)]
  }

  predicate RowGood(plan: Plan, w: World, gate: Option<Context>, i: nat)
    requires i < |plan.baselines|
  {
    match plan.baselines[i]
    case UiLanguage(value) => gate.Some? && gate.get.language == Some(value)
    case BinaryVersion(value) => w.version(i) == Ok(Some(value))
  }

  /** The context the gates compare against, when they need one. */
  function GateOf(plan: Plan, w: World): Option<Context> {
    if NeedsContext(plan) && w.gateContext.Ok? then Some(w.gateContext.value) else None
  }

  /** Every banked fingerprint, language and binary version is observed as banked. */
  predicate GatesGood(plan: Plan, w: World) {
    (NeedsContext(plan) ==> w.gateContext.Ok?)
    && (plan.digest.Some? ==> GateOf(plan, w).Some? && GateOf(plan, w).get.fingerprint == plan.digest)
    && forall i :: 0 <= i < |plan.baselines| ==> RowGood(plan, w, GateOf(plan, w), i)
  }

  function GateActs(plan: Plan, w: World): seq<Act> {
    (if GateOf(plan, w).Some? then [GateContext(GateOf(plan, w).get)] else [])
      + (if plan.digest.Some? then [DigestEqual] else []) + RowActs(|plan.baselines|)
  }

  /** What a setup step fails with, if it does. */
  function SetupFault(plan: Plan, w: World, i: nat): Option<Fault>
    requires i < |plan.setup|
  {
    var name := ScriptName(plan, w, i);
    if name.None? || name.get == "" then Some(SheetError)
    else match w.setup(i)
      case Unanswered(fault) => Some(fault)
      case Ran(_, malformed) => if malformed then Some(SheetError) else None
  }

  /** The outputs of the first `n` setup steps, when they all came back. */
  function OutputsOf(plan: Plan, w: World, n: nat): seq<(string, string)>
    requires n <= |plan.setup|
  {
    if n == 0 then []
    else
      var name, run := ScriptName(plan, w, n - 1), w.setup(n - 1);
      OutputsOf(plan, w, n - 1) + if name.Some? && run.Ran? then [(name.get, run.stdout)] else []
  }

  predicate SetupGood(plan: Plan, w: World) {
    (forall i :: 0 <= i < |plan.setup| ==> SetupFault(plan, w, i) == None) && (plan.gpo ==> w.guid.Some?)
  }

  /** Only the acts differ. */
  predicate OnlyActs(p: Progress, q: Progress) {
    q == p.(acts := q.acts)
  }

  /** Only the acts and the banked outputs differ. */
  predicate OnlyBanked(p: Progress, q: Progress) {
    q == p.(acts := q.acts, banked := q.banked)
  }

  lemma {:induction false} RowsExactly(plan: Plan, w: World, p: Progress, gate: Option<Context>, i: nat, before: seq<Act>)
    requires i <= |plan.baselines| && p.acts == before + RowActs(i)
    ensures
      var (q, end) := Rows(plan, w, p, gate, i);
      && OnlyActs(p, q)
      && (end == Passed <==> forall j :: i <= j < |plan.baselines| ==> RowGood(plan, w, gate, j))
      && (end == Passed ==> q.acts == before + RowActs(|plan.baselines|))
      && (end.Broken? ==> exists j :: i <= j < |plan.baselines| && w.version(j) == Raised(end.fault))
    decreases |plan.baselines| - i
  {
    if i < |plan.baselines| && RowGood(plan, w, gate, i) {
      assert before + RowActs(i) + [RowEqual(i)] == before + RowActs(i + 1);
      RowsExactly(plan, w, Did(p, RowEqual(i)), gate, i + 1, before);
    }
  }

  lemma GatesExactly(plan: Plan, w: World, p: Progress)
    ensures
      var (q, end) := Gates(plan, w, p);
      && OnlyActs(p, q)
      && (end == Passed <==> GatesGood(plan, w))
      && (end == Passed ==> q.acts == p.acts + GateActs(plan, w))
      && (end.Broken? ==>
        (w.gateContext == Raised(end.fault) && end.fault != ExecError) || exists j :: 0 <= j < |plan.baselines| && w.version(j) == Raised(end.fault))
  {
    NeedsForDigest(plan);
    hide RowActs, NeedsContext, RowGood, Rows;
    assert RowActs(0) == [] by { EmptyRows(); }
    if !NeedsContext(plan) {
      assert p.acts == p.acts + RowActs(0);
      RowsExactly(plan, w, p, None, 0, p.acts);
      assert GateActs(plan, w) == RowActs(|plan.baselines|);
    } else if w.gateContext.Ok? {
      var c := w.gateContext.value;
      var q := Did(p, GateContext(c));
      if plan.digest.None? {
        assert q.acts == q.acts + RowActs(0);
        RowsExactly(plan, w, q, Some(c), 0, q.acts);
        assert q.acts + RowActs(|plan.baselines|) == p.acts + GateActs(plan, w);
      } else if c.fingerprint == plan.digest {
        var r := Did(q, DigestEqual);
        assert r.acts == r.acts + RowActs(0);
        RowsExactly(plan, w, r, Some(c), 0, r.acts);
        assert r.acts + RowActs(|plan.baselines|) == p.acts + GateActs(plan, w);
      }
    }
  }

  lemma EmptyRows()
    ensures RowActs(0) == []
  {
  }

  lemma NeedsForDigest(plan: Plan)
    ensures plan.digest.Some? ==> NeedsContext(plan)
  {
  }

  /** Setup fails with the fault of its first failing step. */
  predicate SetupStops(plan: Plan, w: World, fault: Fault) {
    exists i :: 0 <= i < |plan.setup| && (forall j :: 0 <= j < i ==> SetupFault(plan, w, j) == None) && SetupFault(plan, w, i) == Some(fault)
  }

  lemma {:induction false} SetupExactly(plan: Plan, w: World, p: Progress, i: nat, before: seq<Act>)
    requires i <= |plan.setup| && p.acts == before + SetupActs(i) && p.banked == OutputsOf(plan, w, i)
    requires forall j :: 0 <= j < i ==> SetupFault(plan, w, j) == None
    ensures
      var (q, end) := SetupSteps(plan, w, p, i);
      && OnlyBanked(p, q)
      && (end == None <==> SetupGood(plan, w))
      && (end == None ==> q.acts == before + SetupActs(|plan.setup|) && q.banked == OutputsOf(plan, w, |plan.setup|))
      && (end == Some(OtherError) <==> SetupStops(plan, w, OtherError))
    decreases |plan.setup| - i
  {
    hide ScriptName;
    if i < |plan.setup| {
      var (q, fault) := SetUp(plan, w, p, i);
      assert fault == SetupFault(plan, w, i) && OnlyBanked(p, q);
      if fault == None {
        assert before + SetupActs(i) + [SetupStep(i)] == before + SetupActs(i + 1);
        assert q.banked == OutputsOf(plan, w, i + 1);
        hide SetUp, SetupFault, OutputsOf, SetupActs;
        SetupExactly(plan, w, q, i + 1, before);
      } else {
        hide SetUp, SetupFault, OutputsOf, SetupActs;
      }
    }
  }

  /** A run that holds the lease, before its transaction is prepared. */
  function Before(acts: seq<Act>): Progress {
    START.(held := true, acts := acts)
  }

  /** The same once setup was attempted. */
  function Attempted(acts: seq<Act>, banked: seq<(string, string)>): Progress {
    START.(held := true, attempted := true, acts := acts, banked := banked)
  }

  function AllOutputs(plan: Plan, w: World): seq<(string, string)> {
    OutputsOf(plan, w, |plan.setup|)
  }

  lemma FreshIsWellFormed(acts: seq<Act>, banked: seq<(string, string)>)
    ensures Underway(Before(acts)) && Underway(Attempted(acts, banked))
  {
    FreshRuns([]);
  }

  predicate Oriented(w: World) {
    w.preOracle.Ok? && w.context.Ok?
  }

  /** The progress in which the gesture phase begins, `acts` being what came before the pre-oracle. */
  function GestureStart(plan: Plan, w: World, acts: seq<Act>): Progress
    requires w.context.Ok?
  {
    AtGesture(plan, w, Attempted(acts + [PreOracleRead, PreparedContext(w.context.value)], AllOutputs(plan, w)))
  }

  lemma AfterSetupWell(plan: Plan, w: World, acts: seq<Act>)
    ensures
      var (q, exit) := AfterSetup(plan, w, Attempted(acts, AllOutputs(plan, w)));
      var dropped := Oriented(w) && DropsLastEvent(plan, w, w.context.value);
      && EndsWell(plan, w, Attempted(acts, AllOutputs(plan, w)), q, exit, !dropped) && !exit.Declined?
      && (HasState(exit, Verified) || HasState(exit, Disproven) ==> Oriented(w))
      && (Oriented(w) ==> (q, exit) == Gesturing(plan, w, GestureStart(plan, w, acts), w.context.value))
  {
    hide WellFormed, AbortedOut, Gesturing, AtGesture, DropsLastEvent, Arming, EndsWell, OutputsOf;
    FreshIsWellFormed(acts, AllOutputs(plan, w));
    if w.preOracle.Ok? {
      var q := Attempted(acts + [PreOracleRead], AllOutputs(plan, w));
      FreshIsWellFormed(q.acts, AllOutputs(plan, w));
      assert Did(Attempted(acts, AllOutputs(plan, w)), PreOracleRead) == q;
      if w.context.Ok? {
        var r := Attempted(acts + [PreOracleRead, PreparedContext(w.context.value)], AllOutputs(plan, w));
        assert acts + [PreOracleRead] + [PreparedContext(w.context.value)] == r.acts;
        assert Did(q, PreparedContext(w.context.value)) == r;
        FreshIsWellFormed(r.acts, AllOutputs(plan, w));
        ArmingWell(plan, w, r, w.context.value);
        GesturingWell(plan, w, GestureStart(plan, w, acts), w.context.value);
        SameBefore(plan, w, GestureStart(plan, w, acts), Attempted(acts, AllOutputs(plan, w)), AfterSetup(plan, w, Attempted(acts, AllOutputs(plan, w))).0,
                   AfterSetup(plan, w, Attempted(acts, AllOutputs(plan, w))).1, !DropsLastEvent(plan, w, w.context.value));
      } else if w.context.fault == ExecError {
        AbortedOutWell(plan, w, Attempted(acts, AllOutputs(plan, w)), q, "interactive context unavailable", RunGuid(plan, w));
      } else {
        assert EndsWell(plan, w, Attempted(acts, AllOutputs(plan, w)), q, Escaped(w.context.fault), true) by {
          EscapesWell(plan, w, Attempted(acts, AllOutputs(plan, w)), q, w.context.fault);
        }
      }
    } else {
      AbortedOutWell(plan, w, Attempted(acts, AllOutputs(plan, w)), Attempted(acts, AllOutputs(plan, w)), "pre-oracle failed", RunGuid(plan, w));
    }
  }

  lemma EscapesWell(plan: Plan, w: World, before: Progress, q: Progress, fault: Fault)
    requires q.held == before.held && q.cleanups == 0
    ensures EndsWell(plan, w, before, q, Escaped(fault), true)
  {
  }

  lemma SameBefore(plan: Plan, w: World, one: Progress, two: Progress, q: Progress, exit: Exit, complete: bool)
    requires EndsWell(plan, w, one, q, exit, complete) && one.held == two.held
    ensures EndsWell(plan, w, two, q, exit, complete)
  {
    hide WellFormed;
  }

  lemma {:induction false} AfterGatesWell(plan: Plan, w: World, acts: seq<Act>)
    ensures
      var (q, exit) := AfterGates(plan, w, Before(acts));
      var ready := w.domain.Ok? && SetupGood(plan, w);
      var done := acts + [DomainRead] + SetupActs(|plan.setup|);
      var dropped := ready && Oriented(w) && DropsLastEvent(plan, w, w.context.value);
      && EndsWell(plan, w, Before(acts), q, exit, !dropped) && !exit.Declined?
      && (HasState(exit, Verified) || HasState(exit, Disproven) ==> ready && Oriented(w))
      && (ready ==> (q, exit) == AfterSetup(plan, w, Attempted(done, AllOutputs(plan, w))))
  {
    hide WellFormed, AbortedOut, AfterSetup, SetupSteps, GestureStart, DropsLastEvent, SetupActs, EndsWell, SetupGood, SetupStops, OutputsOf;
    if w.domain.Ok? {
      var p := Attempted(acts + [DomainRead], []);
      assert Did(Before(acts), DomainRead).(attempted := true) == p;
      NoSetupActs(plan, w, p.acts);
      SetupExactly(plan, w, p, 0, p.acts);
      var (q, end) := SetupSteps(plan, w, p, 0);
      FreshIsWellFormed(q.acts, q.banked);
      assert q == Attempted(q.acts, q.banked);
      if end == None {
        AfterSetupWell(plan, w, q.acts);
        SameBefore(plan, w, Attempted(q.acts, q.banked), Before(acts), AfterSetup(plan, w, q).0, AfterSetup(plan, w, q).1,
                   !(Oriented(w) && DropsLastEvent(plan, w, w.context.value)));
      } else if end == Some(OtherError) {
        EscapesWell(plan, w, Before(acts), q, OtherError);
      } else {
        AbortedOutWell(plan, w, Before(acts), q, "setup failed before prepare", w.guid);
      }
    } else {
      EscapesWell(plan, w, Before(acts), Before(acts), w.domain.fault);
    }
  }

  lemma NoSetupActs(plan: Plan, w: World, acts: seq<Act>)
    ensures acts == acts + SetupActs(0) && OutputsOf(plan, w, 0) == []
  {
  }

  const OPENING := [LeaseAcquired, ConsoleUnlocked, CheckpointPresent]

  /** Lease, console, checkpoint and every gate. */
  predicate Cleared(plan: Plan, w: World) {
    w.acquire == Ok(true) && w.console == Ok(true) && w.checkpoint == Ok(true) && GatesGood(plan, w)
  }

  /** The acts up to the end of setup. */
  function SetupScript(plan: Plan, w: World): seq<Act> {
    OPENING + GateActs(plan, w) + [DomainRead] + SetupActs(|plan.setup|)
  }

  /** The run gets as far as its gesture phase. */
  predicate ReachesGesture(plan: Plan, w: World) {
    Cleared(plan, w) && w.domain.Ok? && SetupGood(plan, w) && Oriented(w)
  }

  predicate Drops(plan: Plan, w: World) {
    ReachesGesture(plan, w) && DropsLastEvent(plan, w, w.context.value)
  }

  lemma AfterLeaseWell(plan: Plan, w: World)
    requires w.acquire == Ok(true)
    ensures
      var (q, exit) := AfterLease(plan, w, Before([LeaseAcquired]));
      && EndsWell(plan, w, Before([LeaseAcquired]), q, exit, !Drops(plan, w))
      && (HasState(exit, Verified) || HasState(exit, Disproven) ==> ReachesGesture(plan, w))
      && (Cleared(plan, w) ==> (q, exit) == AfterGates(plan, w, Before(OPENING + GateActs(plan, w))))
      && (exit.Declined? ==> w.console == Ok(true) && w.checkpoint == Ok(true) && !GatesGood(plan, w))
  {
    hide WellFormed, AfterGates, GestureStart, DropsLastEvent, EndsWell, GatesGood, GateActs, Gates, SetupGood, SetupActs,
      EmittedLog, DropsLastEvent;
    var start := Before([LeaseAcquired]);
    if w.console == Ok(true) && w.checkpoint == Ok(true) {
      var q := Before(OPENING);
      assert Did(Did(start, ConsoleUnlocked), CheckpointPresent) == q;
      GatesExactly(plan, w, q);
      var (r, gate) := Gates(plan, w, q);
      match gate {
        case Passed =>
          assert r == Before(OPENING + GateActs(plan, w));
          AfterGatesWell(plan, w, r.acts);
          SameBefore(plan, w, r, start, AfterGates(plan, w, r).0, AfterGates(plan, w, r).1, !Drops(plan, w));
        case Mismatch => DeclinedWell(plan, w, start, r);
        case Broken(fault) => EscapesWell(plan, w, start, r, fault);
      }
    } else if w.console.Raised? {
      EscapesWell(plan, w, start, start, w.console.fault);
    } else {
      var q := if w.console == Ok(true) then Did(start, ConsoleUnlocked) else start;
      EmptyHanded(plan, w, start, Aborted(q, if w.console == Ok(true) then "no recovery checkpoint" else "console never reached unlocked"));
    }
  }

  lemma DeclinedWell(plan: Plan, w: World, before: Progress, p: Progress)
    requires p.held && p.cleanups == 0 && !p.attempted && p.machine == FRESH
    ensures EndsWell(plan, w, before, Released(p), Declined, true)
  {
  }

  /** Stopping before setup: a record about a transaction that never began. */
  lemma EmptyHanded(plan: Plan, w: World, before: Progress, p: Progress)
    requires p.machine == FRESH && p.emitted == [] && !p.attempted && p.cleanups == 0
    ensures EndsWell(plan, w, before, Finished(p, None).0, Finished(p, None).1, true)
    ensures Finished(p, None).1.record.state == Indeterminate
  {
    FreshRuns([]);
    hide WellFormed;
  }

  lemma GestureStartIs(plan: Plan, w: World, acts: seq<Act>)
    requires w.context.Ok?
    ensures
      var p := GestureStart(plan, w, acts);
      && Underway(p) && p.attempted && p.machine.state == Some(Armed) && p.crossings == 0
      && p.acts == acts + [PreOracleRead, PreparedContext(w.context.value), Entered(Prepared), Entered(Armed)]
  {
    hide WellFormed, AtGesture;
    hide OutputsOf;
    var r := Attempted(acts + [PreOracleRead, PreparedContext(w.context.value)], AllOutputs(plan, w));
    FreshIsWellFormed(r.acts, r.banked);
    ArmingWell(plan, w, r, w.context.value);
    hide Gesturing, Arming;
    assert r.acts + [Entered(Prepared), Entered(Armed)]
      == acts + [PreOracleRead, PreparedContext(w.context.value), Entered(Prepared), Entered(Armed)];
  }

  // ----- the main results -----

  /** What a run resolved with `status` has been through; the gesture starts from the context read at prepare. */
  predicate Succeeds(plan: Plan, w: World, status: E.Status) {
    ReachesGesture(plan, w) && GestureGood(plan, w, w.context.value) && PostOracleIs(w, status)
  }

  /** Everything a resolved run does, in order. */
  function Script(plan: Plan, w: World, status: E.Status, state: State): seq<Act>
    requires w.context.Ok?
  {
    SetupScript(plan, w) + [PreOracleRead, PreparedContext(w.context.value), Entered(Prepared), Entered(Armed)]
      + GestureActs(plan, w, 0, 0) + FinalActs(plan, w, status, state)
  }

  lemma ExecutedWell(plan: Plan, w: World)
    ensures
      var (p, exit) := Executed(plan, w);
      && EndsWell(plan, w, Before([]).(held := w.acquire == Ok(true)), p, exit, !Drops(plan, w))
      && (HasState(exit, Verified) || HasState(exit, Disproven) ==> ReachesGesture(plan, w))
      && (ReachesGesture(plan, w) ==>
        (p, exit) == Gesturing(plan, w, GestureStart(plan, w, SetupScript(plan, w)), w.context.value))
      && (exit.Declined? ==>
        w.acquire == Ok(true) && w.console == Ok(true) && w.checkpoint == Ok(true) && !GatesGood(plan, w))
  {
    hide WellFormed, AfterLease, AfterGates, AfterSetup, Gesturing, GestureStart, Drops, EndsWell, GatesGood, GateActs, SetupGood,
      SetupActs;
    var start := START.(held := w.acquire == Ok(true));
    if w.acquire == Ok(true) {
      assert Did(START.(held := true), LeaseAcquired) == Before([LeaseAcquired]);
      AfterLeaseWell(plan, w);
      SameBefore(plan, w, Before([LeaseAcquired]), start, AfterLease(plan, w, Before([LeaseAcquired])).0,
                 AfterLease(plan, w, Before([LeaseAcquired])).1, !Drops(plan, w));
      if ReachesGesture(plan, w) {
        AfterGatesWell(plan, w, OPENING + GateActs(plan, w));
        AfterSetupWell(plan, w, SetupScript(plan, w));
      }
    } else if w.acquire.Raised? {
      EscapesWell(plan, w, start, START, w.acquire.fault);
      assert !Drops(plan, w) by { NotReached(plan, w); }
    } else {
      EmptyHanded(plan, w, start, Aborted(START, "interactive session lease unavailable"));
      assert !Drops(plan, w) by { NotReached(plan, w); }
    }
  }

  lemma NotReached(plan: Plan, w: World)
    requires w.acquire != Ok(true)
    ensures !Drops(plan, w)
  {
  }

  /**
   A record says `verified` exactly when every gate held, every gesture step was done in the prepared session with at
   least one crossing, the first of them declared mutating, and the post-oracle converged satisfied. Such a run has
   done exactly the script, in order, and has emitted its whole log: prepared, armed, commit attempted, verified.
   */
  lemma VerifiedMeans(plan: Plan, w: World)
    ensures
      var (p, exit) := Executed(plan, w);
      && (HasState(exit, Verified) <==> Succeeds(plan, w, E.StSatisfied))
      && (HasState(exit, Verified) ==>
        && p.acts == Script(plan, w, E.StSatisfied, Verified)
        && exit.record.events == p.machine.events
        && Word(p.machine) == [Prepared, Armed, CommitAttempted, Verified]
        && exit.record.envelope == Some(w.converge.value))
  {
    hide WellFormed, Gesturing, Executed, GestureStart, EndsWell, ReachesGesture, GestureGood, GestureActs, FinalActs, SetupScript;
    ResolvedMeans(plan, w, E.StSatisfied, Verified);
    var (p, exit) := Executed(plan, w);
    if HasState(exit, Verified) {
      StateTellsWord(p.machine);
    }
  }

  /** The same for `disproven`: a result, never a run that failed to stabilize. */
  lemma DisprovenMeans(plan: Plan, w: World)
    ensures
      var (p, exit) := Executed(plan, w);
      && (HasState(exit, Disproven) <==> Succeeds(plan, w, E.StDisproven))
      && (HasState(exit, Disproven) ==>
        && p.acts == Script(plan, w, E.StDisproven, Disproven)
        && exit.record.events == p.machine.events
        && Word(p.machine) == [Prepared, Armed, CommitAttempted, Disproven]
        && exit.record.envelope == Some(w.converge.value))
  {
    hide WellFormed, Gesturing, Executed, GestureStart, EndsWell, ReachesGesture, GestureGood, GestureActs, FinalActs, SetupScript;
    ResolvedMeans(plan, w, E.StDisproven, Disproven);
    var (p, exit) := Executed(plan, w);
    if HasState(exit, Disproven) {
      StateTellsWord(p.machine);
    }
  }

  lemma ResolvedMeans(plan: Plan, w: World, status: E.Status, state: State)
    requires (status == E.StSatisfied && state == Verified) || (status == E.StDisproven && state == Disproven)
    ensures
      var (p, exit) := Executed(plan, w);
      && (HasState(exit, state) <==> Succeeds(plan, w, status))
      && (HasState(exit, state) ==>
        && p.acts == Script(plan, w, status, state) && p.emitted == p.machine.events && exit.record.events == p.machine.events
        && p.machine.state == Some(state) && WellFormed(p.machine)
        && exit.record.envelope == Some(w.converge.value))
  {
    hide WellFormed, Gesturing, Executed, GestureStart, ReachesGesture, GestureGood, GestureActs, FinalActs, SetupScript,
      PostOracleIs, DropsLastEvent, Suffix, EmittedLog, Drops;
    ExecutedWell(plan, w);
    if ReachesGesture(plan, w) {
      assert w.context.Ok? by { ReachesContext(plan, w); }
      GestureStartIs(plan, w, SetupScript(plan, w));
      GesturingWell(plan, w, GestureStart(plan, w, SetupScript(plan, w)), w.context.value);
    }
  }

  lemma ReachesContext(plan: Plan, w: World)
    requires ReachesGesture(plan, w)
    ensures w.context.Ok?
  {
  }

  // ----- the good run, field by field -----

  /** A crossing whose context differs from the prepared one in session, user or desktop stops; in anything else it may differ. */
  lemma CrossingComparesFields(plan: Plan, w: World, base: Context, p: Progress, boundary: string)
    requires InGesture(p) && w.crossing(p.crossings).Ok?
    ensures
      var (c, (q, end)) := (w.crossing(p.crossings).value, Crossing(plan, w, base, p, boundary));
      && (c.session != base.session || c.user != base.user || c.desktop != base.desktop ==>
        end == Stopped(SheetError) && q.machine == p.machine && q.emitted == p.emitted)
      && (c.session == base.session && c.user == base.user && c.desktop == base.desktop ==>
        end == if p.crossings > 0 || (boundary in plan.actions
                                      && (plan.actions[boundary] == CommitPoint || plan.actions[boundary] == PotentiallyMutating))
               then Completed else HardStopped)
  {
    CrossingExactly(plan, w, base, p, boundary);
    hide Crossing, InGesture;
  }

  /** Only a profile action of a mutating class is a crossing of its own; an undeclared action refuses the step. */
  lemma AdmissionByClass(plan: Plan, w: World, base: Context, p: Progress, step: SheetStep)
    ensures
      var action := step.profileAction;
      var (q, end) := Admitted(plan, w, base, p, step);
      && (action == "" ==> (q, end) == (p, Completed))
      && (action != "" && action !in plan.actions ==> (q, end) == (p, Stopped(SheetError)))
      && (action != "" && action in plan.actions ==>
        match plan.actions[action]
        case OrientationOnly => (q, end) == (p, Completed)
        case ReversiblePreCommit => (q, end) == (p, Completed)
        case PotentiallyMutating => (q, end) == Crossing(plan, w, base, p, action)
        case CommitPoint => (q, end) == Crossing(plan, w, base, p, action))
  {
    hide Crossing;
  }

  predicate SameIdentity(act: Act, base: Context) {
    act.CrossingAsked? ==>
      act.context.Ok? && act.context.value.session == base.session && act.context.value.user == base.user
      && act.context.value.desktop == base.desktop
  }

  predicate AllSameIdentity(acts: seq<Act>, base: Context) {
    forall act :: act in acts ==> SameIdentity(act, base)
  }

  lemma {:induction false} AsksSameIdentity(plan: Plan, w: World, base: Context, k: nat, asks: seq<string>)
    requires forall j :: 0 <= j < |asks| ==> CrossingGood(plan, w, base, k + j, asks[j])
    ensures AllSameIdentity(AskActs(plan, w, k, asks), base)
    decreases asks
  {
    if asks != [] {
      assert CrossingGood(plan, w, base, k + 0, asks[0]);
      forall j | 0 <= j < |asks| - 1 ensures CrossingGood(plan, w, base, k + 1 + j, asks[1..][j]) {
        assert CrossingGood(plan, w, base, k + (j + 1), asks[j + 1]);
      }
      AsksSameIdentity(plan, w, base, k + 1, asks[1..]);
    }
  }

  lemma {:induction false} GestureSameIdentity(plan: Plan, w: World, base: Context, i: nat, k: nat)
    requires i <= |plan.gesture| && GoodFrom(plan, w, base, i, k)
    ensures AllSameIdentity(GestureActs(plan, w, i, k), base)
    decreases |plan.gesture| - i
  {
    hide Asks, AskActs, CrossingGood;
    if i < |plan.gesture| {
      AsksSameIdentity(plan, w, base, k, Asks(plan, plan.gesture[i]));
      GestureSameIdentity(plan, w, base, i + 1, k + |Asks(plan, plan.gesture[i])|);
    }
  }

  lemma {:induction false} QuietActs(n: nat, w: World)
    ensures forall act :: act in RowActs(n) || act in SetupActs(n) || act in StepActs(w, n) ==> !act.CrossingAsked?
  {
    if n > 0 {
      QuietActs(n - 1, w);
    }
  }

  /** In a resolved run every crossing was answered with the session, the user and the desktop read at prepare. */
  lemma ResolvedCrossingsMatch(plan: Plan, w: World)
    requires HasState(Executed(plan, w).1, Verified) || HasState(Executed(plan, w).1, Disproven)
    ensures w.context.Ok? && AllSameIdentity(Executed(plan, w).0.acts, w.context.value)
  {
    var status := if HasState(Executed(plan, w).1, Verified) then E.StSatisfied else E.StDisproven;
    var state := if HasState(Executed(plan, w).1, Verified) then Verified else Disproven;
    hide Executed, WellFormed, ReachesGesture, GoodFrom, GestureActs, SetupScript, FinalActs, PostOracleIs, CrossingsFrom;
    VerifiedMeans(plan, w);
    DisprovenMeans(plan, w);
    ReachesContext(plan, w);
    GestureSameIdentity(plan, w, w.context.value, 0, 0);
    QuietScript(plan, w, status, state, w.context.value);
    hide AllSameIdentity;
    AllOfScript(plan, w, status, state, w.context.value);
  }

  lemma QuietScript(plan: Plan, w: World, status: E.Status, state: State, base: Context)
    ensures AllSameIdentity(SetupScript(plan, w), base) && AllSameIdentity(FinalActs(plan, w, status, state), base)
  {
    QuietActs(|plan.baselines|, w);
    QuietActs(|plan.setup|, w);
    QuietActs(plan.cleanup, w);
    hide RowActs, SetupActs, StepActs;
  }

  lemma AllOfScript(plan: Plan, w: World, status: E.Status, state: State, base: Context)
    requires w.context.Ok? && AllSameIdentity(SetupScript(plan, w), base) && AllSameIdentity(FinalActs(plan, w, status, state), base)
    requires AllSameIdentity(GestureActs(plan, w, 0, 0), base)
    ensures AllSameIdentity(Script(plan, w, status, state), base)
  {
    hide SetupScript, FinalActs, GestureActs;
  }

  /** The gates pass exactly when every banked value is observed as banked, whatever else the context says; nothing banked needs nothing. */
  lemma GatesCompareFields(plan: Plan, w: World, p: Progress)
    ensures Gates(plan, w, p).1 == Passed <==>
      && (plan.digest.Some? ==> w.gateContext.Ok? && w.gateContext.value.fingerprint == plan.digest)
      && forall i :: 0 <= i < |plan.baselines| ==> SeenAsBanked(plan, w, i)
  {
    GatesExactly(plan, w, p);
    hide Gates;
    if GatesGood(plan, w) {
      forall i | 0 <= i < |plan.baselines| ensures SeenAsBanked(plan, w, i) {
        assert RowGood(plan, w, GateOf(plan, w), i);
      }
    }
    if (plan.digest.Some? ==> w.gateContext.Ok? && w.gateContext.value.fingerprint == plan.digest)
      && forall i :: 0 <= i < |plan.baselines| ==> SeenAsBanked(plan, w, i)
    {
      BankedMeansGood(plan, w);
    }
  }

  lemma BankedMeansGood(plan: Plan, w: World)
    requires plan.digest.Some? ==> w.gateContext.Ok? && w.gateContext.value.fingerprint == plan.digest
    requires forall i :: 0 <= i < |plan.baselines| ==> SeenAsBanked(plan, w, i)
    ensures GatesGood(plan, w)
  {
    NeedsForDigest(plan);
    if NeedsContext(plan) && plan.digest.None? {
      var i :| 0 <= i < |plan.baselines| && plan.baselines[i].UiLanguage?;
      assert SeenAsBanked(plan, w, i);
    }
    forall i | 0 <= i < |plan.baselines| ensures RowGood(plan, w, GateOf(plan, w), i) {
      assert SeenAsBanked(plan, w, i);
    }
  }

  predicate SeenAsBanked(plan: Plan, w: World, i: nat)
    requires i < |plan.baselines|
  {
    match plan.baselines[i]
    case UiLanguage(value) => w.gateContext.Ok? && w.gateContext.value.language == Some(value)
    case BinaryVersion(value) => w.version(i) == Ok(Some(value))
  }

  /** Setup succeeds exactly when every script's name resolves to something, its output comes back and holds no malformed GUID. */
  lemma SetupGoodMeans(plan: Plan, w: World)
    ensures SetupGood(plan, w) <==>
      && (plan.gpo ==> w.guid.Some?)
      && forall i :: 0 <= i < |plan.setup| ==> ScriptRan(plan, w, i)
  {
    hide ScriptName;
    forall i | 0 <= i < |plan.setup| ensures SetupFault(plan, w, i) == None <==> ScriptRan(plan, w, i) {
    }
  }

  predicate ScriptRan(plan: Plan, w: World, i: nat)
    requires i < |plan.setup|
  {
    ScriptName(plan, w, i).Some? && ScriptName(plan, w, i).get != "" && w.setup(i).Ran? && !w.setup(i).malformed
  }

  /** A step is good exactly when its action is declared, its own crossing and its commit are good, and its primitive comes back. */
  lemma StepGoodMeans(plan: Plan, w: World, base: Context, i: nat, k: nat)
    requires i < |plan.gesture|
    ensures
      var step := plan.gesture[i];
      var crosses := step.profileAction != "" && step.profileAction in plan.actions
        && (plan.actions[step.profileAction] == CommitPoint || plan.actions[step.profileAction] == PotentiallyMutating);
      StepGood(plan, w, base, i, k) <==>
        && (step.profileAction == "" || step.profileAction in plan.actions)
        && w.step(i).Ok?
        && (crosses ==> IdentityAt(w, base, k))
        && (step.primitive.CommitStep? ==>
          && step.primitive.boundary != "" && IdentityAt(w, base, if crosses then k + 1 else k)
          && (k == 0 && !crosses ==>
            step.primitive.boundary in plan.actions
            && (plan.actions[step.primitive.boundary] == CommitPoint || plan.actions[step.primitive.boundary] == PotentiallyMutating)))
  {
    AsksGood(plan, w, base, i, k);
    hide StepGood, Asks;
  }

  predicate IdentityAt(w: World, base: Context, k: nat) {
    w.crossing(k).Ok? && w.crossing(k).value.session == base.session && w.crossing(k).value.user == base.user
    && w.crossing(k).value.desktop == base.desktop
  }

  /** Verified, in full: every answer the run depends on, and how the gesture's steps have to go. */
  lemma VerifiedInFull(plan: Plan, w: World)
    ensures HasState(Executed(plan, w).1, Verified) <==>
      && w.acquire == Ok(true) && w.console == Ok(true) && w.checkpoint == Ok(true) && Gates(plan, w, START).1 == Passed
      && w.domain.Ok? && SetupGood(plan, w) && w.preOracle.Ok? && w.context.Ok?
      && (forall i :: 0 <= i < |plan.gesture| ==> StepGood(plan, w, w.context.value, i, CrossingsBefore(plan, i)))
      && CrossingsBefore(plan, |plan.gesture|) > 0
      && w.envelope.Ok? && w.converge.Ok? && w.converge.value.status == E.StSatisfied
  {
    VerifiedMeans(plan, w);
    GatesExactly(plan, w, START);
    hide Executed, Gates, GatesGood, SetupGood, StepGood, WellFormed, Script;
    if w.context.Ok? {
      GoodFromAll(plan, w, w.context.value, 0);
      CrossingsSum(plan, 0);
    }
  }

  lemma {:induction false} GoodFromAll(plan: Plan, w: World, base: Context, i: nat)
    requires i <= |plan.gesture|
    ensures GoodFrom(plan, w, base, i, CrossingsBefore(plan, i)) <==>
      forall j :: i <= j < |plan.gesture| ==> StepGood(plan, w, base, j, CrossingsBefore(plan, j))
    decreases |plan.gesture| - i
  {
    hide StepGood, Asks;
    if i < |plan.gesture| {
      GoodFromAll(plan, w, base, i + 1);
    }
  }

  lemma {:induction false} CrossingsSum(plan: Plan, i: nat)
    requires i <= |plan.gesture|
    ensures CrossingsBefore(plan, |plan.gesture|) == CrossingsBefore(plan, i) + CrossingsFrom(plan, i)
    decreases |plan.gesture| - i
  {
    hide Asks;
    if i < |plan.gesture| {
      CrossingsSum(plan, i + 1);
    }
  }

  // ----- which exceptions get out -----

  /** The context the gates compare against was read, and its fingerprint is the banked one. */
  predicate ContextPassed(plan: Plan, w: World) {
    (NeedsContext(plan) ==> w.gateContext.Ok?)
    && (plan.digest.Some? ==> GateOf(plan, w).Some? && GateOf(plan, w).get.fingerprint == plan.digest)
  }

  /** The first baseline row that does not hold is a version the helper fails to read with an exception. */
  predicate RowRaises(plan: Plan, w: World, gate: Option<Context>, fault: Fault) {
    exists i :: 0 <= i < |plan.baselines| && (forall j :: 0 <= j < i ==> RowGood(plan, w, gate, j))
                && plan.baselines[i].BinaryVersion? && w.version(i) == Raised(fault)
  }

  predicate GateRaises(plan: Plan, w: World, fault: Fault) {
    (NeedsContext(plan) && w.gateContext == Raised(fault) && fault != ExecError)
    || (ContextPassed(plan, w) && RowRaises(plan, w, GateOf(plan, w), fault))
  }

  predicate GestureRaises(plan: Plan, w: World, base: Context, fault: Fault) {
    (fault != SheetError && GestureStops(plan, w, base, Stopped(fault)))
    || (GoodFrom(plan, w, base, 0, 0) && w.envelope == Raised(fault))
  }

  predicate OracleRaises(plan: Plan, w: World, fault: Fault) {
    w.preOracle.Ok?
    && ((w.context == Raised(fault) && fault != ExecError)
        || (w.context.Ok? && GestureRaises(plan, w, w.context.value, fault)))
  }

  predicate SetupRaises(plan: Plan, w: World, fault: Fault) {
    w.domain == Raised(fault)
    || (w.domain.Ok?
        && ((fault == OtherError && SetupStops(plan, w, OtherError)) || (SetupGood(plan, w) && OracleRaises(plan, w, fault))))
  }

  /** The first call that stops the run raises what its call site does not catch. */
  predicate EscapeCause(plan: Plan, w: World, fault: Fault) {
    w.acquire == Raised(fault)
    || (w.acquire == Ok(true)
        && (w.console == Raised(fault)
            || (w.console == Ok(true) && w.checkpoint == Ok(true)
                && (GateRaises(plan, w, fault) || (GatesGood(plan, w) && SetupRaises(plan, w, fault))))))
  }

  lemma {:induction false} RowsRaise(plan: Plan, w: World, p: Progress, gate: Option<Context>, i: nat, fault: Fault)
    requires i <= |plan.baselines| && forall j :: 0 <= j < i ==> RowGood(plan, w, gate, j)
    ensures Rows(plan, w, p, gate, i).1 == Broken(fault) <==> RowRaises(plan, w, gate, fault)
    decreases |plan.baselines| - i
  {
    if i < |plan.baselines| && RowGood(plan, w, gate, i) {
      RowsRaise(plan, w, Did(p, RowEqual(i)), gate, i + 1, fault);
    } else if RowRaises(plan, w, gate, fault) {
      var n :| 0 <= n < |plan.baselines| && (forall j :: 0 <= j < n ==> RowGood(plan, w, gate, j))
               && plan.baselines[n].BinaryVersion? && w.version(n) == Raised(fault);
      assert !RowGood(plan, w, gate, n);
      assert n == i;
    }
  }

  lemma GatesRaise(plan: Plan, w: World, p: Progress, fault: Fault)
    ensures Gates(plan, w, p).1 == Broken(fault) <==> GateRaises(plan, w, fault)
  {
    NeedsForDigest(plan);
    hide NeedsContext, RowGood, Rows, RowRaises;
    if !NeedsContext(plan) {
      RowsRaise(plan, w, p, None, 0, fault);
    } else if w.gateContext.Ok? {
      var c := w.gateContext.value;
      RowsRaise(plan, w, Did(p, GateContext(c)), Some(c), 0, fault);
      RowsRaise(plan, w, Did(Did(p, GateContext(c)), DigestEqual), Some(c), 0, fault);
    }
  }

  lemma GesturingRaises(plan: Plan, w: World, p: Progress, base: Context, fault: Fault)
    requires Underway(p) && p.attempted && p.machine.state == Some(Armed) && p.crossings == 0
    ensures Gesturing(plan, w, p, base).1 == Escaped(fault) <==> GestureRaises(plan, w, base, fault)
  {
    hide WellFormed, AbortedOut, Cleaned, Finished, AfterGesture, Gestured, GoodFrom, GestureActs, CrossingsFrom, ResolvedAs, PostOracleIs,
      GestureStops, GestureEndFrom, EndsWell;
    GesturedExactly(plan, w, base, p, 0);
    GestureStopsExactly(plan, w, base, 0, Stopped(fault));
    assert CrossingsBefore(plan, 0) == 0;
    var (q, end) := Gestured(plan, w, base, p, 0);
    if end == Completed {
      AfterGestureWell(plan, w, q);
    }
    AbortsEmit(plan, w, q, "run-sheet aborted");
    assert Finished(Cleaned(plan, w, Recorded(q), RunGuid(plan, w)), None).1.Emitted? by { FinishedEmits(Cleaned(plan, w, Recorded(q), RunGuid(plan, w))); }
  }

  lemma FinishedEmits(p: Progress)
    ensures Finished(p, None).1.Emitted?
  {
  }

  lemma AbortsEmit(plan: Plan, w: World, p: Progress, reason: string)
    ensures AbortedOut(plan, w, p, reason, RunGuid(plan, w)).1.Emitted? && AbortedOut(plan, w, p, reason, w.guid).1.Emitted?
  {
    hide Cleaned, Aborted;
  }

  lemma AfterSetupRaises(plan: Plan, w: World, acts: seq<Act>, fault: Fault)
    ensures AfterSetup(plan, w, Attempted(acts, AllOutputs(plan, w))).1 == Escaped(fault) <==> OracleRaises(plan, w, fault)
  {
    hide WellFormed, AbortedOut, Gesturing, AtGesture, GestureStart, DropsLastEvent, Arming, EndsWell, OutputsOf, GestureRaises;
    var p := Attempted(acts, AllOutputs(plan, w));
    AfterSetupWell(plan, w, acts);
    AbortsEmit(plan, w, p, "pre-oracle failed");
    AbortsEmit(plan, w, Did(p, PreOracleRead), "interactive context unavailable");
    if Oriented(w) {
      GestureStartIs(plan, w, acts);
      GesturingRaises(plan, w, GestureStart(plan, w, acts), w.context.value, fault);
    }
  }

  lemma AfterGatesRaises(plan: Plan, w: World, acts: seq<Act>, fault: Fault)
    ensures AfterGates(plan, w, Before(acts)).1 == Escaped(fault) <==> SetupRaises(plan, w, fault)
  {
    hide WellFormed, AbortedOut, AfterSetup, SetupSteps, SetupActs, EndsWell, SetupGood, SetupStops, OutputsOf, OracleRaises;
    if w.domain.Ok? {
      var p := Attempted(acts + [DomainRead], []);
      assert Did(Before(acts), DomainRead).(attempted := true) == p;
      NoSetupActs(plan, w, p.acts);
      SetupExactly(plan, w, p, 0, p.acts);
      var (q, end) := SetupSteps(plan, w, p, 0);
      AbortsEmit(plan, w, q, "setup failed before prepare");
      if end == None {
        assert q == Attempted(q.acts, AllOutputs(plan, w));
        AfterSetupRaises(plan, w, q.acts, fault);
      }
    }
  }

  lemma EscapesExactly(plan: Plan, w: World, fault: Fault)
    ensures Executed(plan, w).1 == Escaped(fault) <==> EscapeCause(plan, w, fault)
  {
    hide WellFormed, AfterGates, Gates, GatesGood, GateActs, GateRaises, SetupRaises, Finished, Aborted;
    assert Did(START.(held := true), LeaseAcquired) == Before([LeaseAcquired]);
    FinishedEmits(Aborted(START, "interactive session lease unavailable"));
    FinishedEmits(Aborted(Before([LeaseAcquired]), "console never reached unlocked"));
    FinishedEmits(Aborted(Did(Before([LeaseAcquired]), ConsoleUnlocked), "no recovery checkpoint"));
    if w.acquire == Ok(true) && w.console == Ok(true) && w.checkpoint == Ok(true) {
      var q := Before(OPENING);
      assert Did(Did(Before([LeaseAcquired]), ConsoleUnlocked), CheckpointPresent) == q;
      GatesExactly(plan, w, q);
      GatesRaise(plan, w, q, fault);
      GatesDoNotPassAndRaise(plan, w, fault);
      if Gates(plan, w, q).1 == Passed {
        assert Gates(plan, w, q).0 == Before(Gates(plan, w, q).0.acts);
        AfterGatesRaises(plan, w, Gates(plan, w, q).0.acts, fault);
      }
    }
  }

  lemma GatesDoNotPassAndRaise(plan: Plan, w: World, fault: Fault)
    ensures !(GatesGood(plan, w) && GateRaises(plan, w, fault))
  {
    GatesRaise(plan, w, START, fault);
    GatesExactly(plan, w, START);
    hide Gates, GatesGood, GateRaises;
  }

  /**
   Exactly the runs with an escape cause leave by an exception: with the lease as it was, nothing cleaned and no record. Every
   other run lets go of the lease and cleans up exactly once if setup was attempted, trying every cleanup step and asking
   for absence last; what it emits is its log, whole but for the last event of exactly the two abort paths after prepare.
   */
  lemma ExitDiscipline(plan: Plan, w: World)
    ensures
      var (p, exit) := Executed(plan, w);
      && (forall fault :: exit == Escaped(fault) <==> EscapeCause(plan, w, fault))
      && (p.held <==> w.acquire == Ok(true) && exists fault :: EscapeCause(plan, w, fault))
      && p.cleanups == (if p.attempted && !exit.Escaped? then 1 else 0)
      && (!exit.Escaped? && p.attempted ==>
        Suffix(p.acts, CleanupActs(plan, w, w.guid) + [LeaseReleased])
        || Suffix(p.acts, CleanupActs(plan, w, RunGuid(plan, w)) + [LeaseReleased]))
      && (exit.Emitted? ==>
        exit.record.events == p.emitted && EmittedLog(p, !Drops(plan, w))
        && (p.emitted == p.machine.events <==> !Drops(plan, w))
        && (p.machine.state.Some? ==> Terminal(p.machine.state.get)))
  {
    hide WellFormed, Executed, Gesturing, GestureStart, ReachesGesture, SetupScript, Drops, EscapeCause, CleanupActs, Suffix;
    ExecutedWell(plan, w);
    forall fault ensures Executed(plan, w).1 == Escaped(fault) <==> EscapeCause(plan, w, fault) {
      EscapesExactly(plan, w, fault);
    }
    var exit := Executed(plan, w).1;
    assert exit.Emitted? || exit.Declined? || exit.Escaped?;
    assert exit.Escaped? ==> exit == Escaped(exit.fault);
  }

  /** Every collaborator fails, if it fails, with an exception that its call site catches. */
  ghost predicate CaughtEverywhere(w: World) {
    w.acquire.Ok? && w.console.Ok? && w.domain.Ok? && w.envelope.Ok?
    && (w.gateContext.Raised? ==> w.gateContext.fault == ExecError)
    && (w.context.Raised? ==> w.context.fault == ExecError)
    && (forall i :: w.version(i).Ok?)
    && (forall i :: w.setup(i) != Unanswered(OtherError))
    && (forall i :: w.crossing(i) != Raised(OtherError))
    && (forall i :: w.step(i).Raised? ==> w.step(i).fault == SheetError)
  }

  lemma StepFaults(plan: Plan, w: World, base: Context, i: nat, k: nat)
    requires CaughtEverywhere(w) && i < |plan.gesture|
    ensures var end := StepEnd(plan, w, base, i, k); end.Stopped? ==> end.fault == SheetError
  {
    hide SameSession, Declared;
  }

  lemma SetupFaults(plan: Plan, w: World)
    requires CaughtEverywhere(w)
    ensures !SetupStops(plan, w, OtherError)
  {
    hide ScriptName;
  }

  /** Then every run ends in a record or a determinate refusal: no caller ever sees a stray exception. */
  lemma NoEscape(plan: Plan, w: World)
    requires CaughtEverywhere(w)
    ensures !Executed(plan, w).1.Escaped?
  {
    hide Executed, GatesGood, SetupGood, SetupStops, GoodFrom, StepEnd, StepGood;
    var exit := Executed(plan, w).1;
    if exit.Escaped? {
      EscapesExactly(plan, w, exit.fault);
      SetupFaults(plan, w);
      if w.context.Ok? && GestureStops(plan, w, w.context.value, Stopped(exit.fault)) && exit.fault != SheetError {
        var i :| 0 <= i < |plan.gesture| && GestureStopsAt(plan, w, w.context.value, i, Stopped(exit.fault));
        StepFaults(plan, w, w.context.value, i, CrossingsBefore(plan, i));
      }
      assert false;
    }
  }

  lemma ReachesEscape(plan: Plan, w: World, fault: Fault)
    requires ReachesGesture(plan, w) && GestureRaises(plan, w, w.context.value, fault)
    ensures EscapeCause(plan, w, fault)
  {
    hide GatesGood, SetupGood, GestureRaises;
  }

  /** An exception of another kind out of the first failing gesture step leaves with the lease held and nothing cleaned up. */
  lemma GestureExceptionLeaks(plan: Plan, w: World, fault: Fault)
    requires ReachesGesture(plan, w) && fault != SheetError && GestureStops(plan, w, w.context.value, Stopped(fault))
    ensures
      var (p, exit) := Executed(plan, w);
      exit == Escaped(fault) && p.held && p.attempted && p.cleanups == 0
      && (p.machine.state == Some(Armed) || p.machine.state == Some(CommitAttempted))
  {
    hide WellFormed, Executed, GestureStart, ReachesGesture, SetupScript, Drops, EndsWell, Gestured, GoodFrom, GestureActs, EscapeCause,
      GestureStops, GestureEndFrom, AfterGesture;
    ReachesEscape(plan, w, fault);
    EscapesExactly(plan, w, fault);
    ExecutedWell(plan, w);
    ReachesContext(plan, w);
    var start := GestureStart(plan, w, SetupScript(plan, w));
    GestureStartIs(plan, w, SetupScript(plan, w));
    GesturedExactly(plan, w, w.context.value, start, 0);
    assert CrossingsBefore(plan, 0) == 0;
    GestureStopsExactly(plan, w, w.context.value, 0, Stopped(fault));
  }

  /** So does an envelope that fails to parse once the gesture is done: after the crossing, no record at all. */
  lemma EnvelopeExceptionLeaks(plan: Plan, w: World, fault: Fault)
    requires ReachesGesture(plan, w) && GoodFrom(plan, w, w.context.value, 0, 0) && w.envelope == Raised(fault)
    ensures
      var (p, exit) := Executed(plan, w);
      exit == Escaped(fault) && p.held && p.attempted && p.cleanups == 0
      && p.machine.state == Some(if CrossingsFrom(plan, 0) == 0 then Armed else CommitAttempted)
  {
    hide WellFormed, Executed, GestureStart, ReachesGesture, SetupScript, Drops, EndsWell, Gestured, EscapeCause, GoodFrom, GestureActs,
      CrossingsFrom, GestureStops;
    ReachesEscape(plan, w, fault);
    EscapesExactly(plan, w, fault);
    ExecutedWell(plan, w);
    ReachesContext(plan, w);
    var start := GestureStart(plan, w, SetupScript(plan, w));
    GestureStartIs(plan, w, SetupScript(plan, w));
    GesturedExactly(plan, w, w.context.value, start, 0);
  }

  // ----- undeclared boundaries -----

  /**
   Crossing a boundary the profile does not declare is the documented hard stop exactly when it is the first
   crossing of the run; after that the boundary is not looked at again.
   */
  lemma UndeclaredStopsOnlyFirst(plan: Plan, w: World, base: Context, p: Progress, boundary: string)
    requires InGesture(p) && !Declared(plan, boundary) && Matches(w, base, p.crossings)
    ensures Crossing(plan, w, base, p, boundary).1 == if p.crossings == 0 then HardStopped else Completed
  {
    CrossingExactly(plan, w, base, p, boundary);
    hide WellFormed, CrossingActs, Declared;
  }

  const HOME := Context(1, "operator", None, None, None)

  /** Every collaborator answers, and nothing raises. */
  function Smooth(c: C.ConvergenceResult): World {
    World(Ok(true), Ok(true), Ok(true), Ok(HOME), _ => Ok(None), Ok(""), map[], _ => map[], _ => Ran("", false), None, Ok(true), Ok(HOME),
          _ => Ok(HOME), _ => Ok(true), Ok(true), Ok(c), _ => Ok(true), Ok(0))
  }

  function TwoCommits(second: Primitive): Plan {
    Plan(false, map["apply" := CommitPoint], None, [], [], [SheetStep("", CommitStep("apply")), SheetStep("", second)], 0)
  }

  lemma TwoStepsGood(plan: Plan, w: World, base: Context, n: nat)
    requires |plan.gesture| == 2 && n == |Asks(plan, plan.gesture[0])|
    requires StepGood(plan, w, base, 0, 0) && StepGood(plan, w, base, 1, n)
    ensures GoodFrom(plan, w, base, 0, 0)
    ensures CrossingsFrom(plan, 0) == n + |Asks(plan, plan.gesture[1])|
  {
    hide StepGood, Asks;
    assert GoodFrom(plan, w, base, 2, n + |Asks(plan, plan.gesture[1])|);
    assert GoodFrom(plan, w, base, 1, n);
    assert CrossingsFrom(plan, 2) == 0;
    assert CrossingsFrom(plan, 1) == |Asks(plan, plan.gesture[1])|;
  }

  lemma SmoothReaches(second: Primitive, w: World, c: C.ConvergenceResult)
    requires w == Smooth(c).(step := w.step, envelope := w.envelope)
    ensures ReachesGesture(TwoCommits(second), w)
  {
    hide WellFormed;
  }

  /** A run may end verified after crossing a boundary no profile class covers. */
  lemma VerifiedWithUndeclaredCrossing(c: C.ConvergenceResult)
    requires c.status == E.StSatisfied
    ensures ClassOf(TwoCommits(CommitStep("unlisted")), "unlisted") == None
    ensures HasState(Executed(TwoCommits(CommitStep("unlisted")), Smooth(c)).1, Verified)
    ensures CrossingAsked("unlisted", None, Ok(HOME)) in Executed(TwoCommits(CommitStep("unlisted")), Smooth(c)).0.acts
  {
    var plan, w := TwoCommits(CommitStep("unlisted")), Smooth(c);
    hide Executed, WellFormed, StepGood, GoodFrom, ReachesGesture, Asks, GestureActs, Script;
    CommitStepsGood(w, c);
    TwoStepsGood(plan, w, HOME, 1);
    SmoothReaches(CommitStep("unlisted"), w, c);
    VerifiedMeans(plan, w);
    SecondCrossingActs(plan, w);
    InScript(plan, w, CrossingAsked("unlisted", None, Ok(HOME)));
  }

  lemma CommitStepsGood(w: World, c: C.ConvergenceResult)
    requires w == Smooth(c)
    ensures
      var plan := TwoCommits(CommitStep("unlisted"));
      && Asks(plan, plan.gesture[0]) == ["apply"] && Asks(plan, plan.gesture[1]) == ["unlisted"]
      && StepGood(plan, w, HOME, 0, 0) && StepGood(plan, w, HOME, 1, 1)
  {
  }

  lemma SecondCrossingActs(plan: Plan, w: World)
    requires |plan.gesture| == 2 && Asks(plan, plan.gesture[0]) == ["apply"] && Asks(plan, plan.gesture[1]) == ["unlisted"]
    ensures CrossingAsked("unlisted", ClassOf(plan, "unlisted"), w.crossing(1)) in GestureActs(plan, w, 0, 0)
  {
    hide Asks;
    OneAsk(plan, w, 1, "unlisted");
    assert CrossingAsked("unlisted", ClassOf(plan, "unlisted"), w.crossing(1)) in CrossingActs(plan, w, 1, "unlisted");
    assert CrossingAsked("unlisted", ClassOf(plan, "unlisted"), w.crossing(1)) in GestureActs(plan, w, 1, 1);
  }

  lemma InScript(plan: Plan, w: World, act: Act)
    requires w.context.Ok? && act in GestureActs(plan, w, 0, 0)
    ensures act in Script(plan, w, E.StSatisfied, Verified)
  {
    hide GestureActs, SetupScript, FinalActs;
  }

  // ----- witness runs for exceptions nobody catches -----

  /** A helper transport error in the step after the crossing. */
  lemma TransportErrorAfterCrossing(c: C.ConvergenceResult)
    ensures
      var w := Smooth(c).(step := i => if i == 1 then Raised(OtherError) else Ok(true));
      var (p, exit) := Executed(TwoCommits(PlainStep), w);
      exit == Escaped(OtherError) && p.held && p.cleanups == 0 && p.machine.state == Some(CommitAttempted)
  {
    var plan := TwoCommits(PlainStep);
    var w := Smooth(c).(step := i => if i == 1 then Raised(OtherError) else Ok(true));
    SmoothReaches(PlainStep, w, c);
    assert Asks(plan, plan.gesture[0]) == ["apply"];
    assert StepGood(plan, w, HOME, 0, 0);
    assert CrossingsBefore(plan, 0) == 0 && CrossingsBefore(plan, 1) == 1;
    assert GestureStopsAt(plan, w, HOME, 1, Stopped(OtherError));
    hide WellFormed, StepGood, ReachesGesture, Executed;
    GestureExceptionLeaks(plan, w, OtherError);
    LaterFaultLeavesCommitted(plan, w, OtherError);
  }

  /** A gesture that fails with a crossing behind it leaves the machine commit-attempted. */
  lemma LaterFaultLeavesCommitted(plan: Plan, w: World, fault: Fault)
    requires ReachesGesture(plan, w) && fault != SheetError
    requires |plan.gesture| == 2 && StepGood(plan, w, w.context.value, 0, 0) && |Asks(plan, plan.gesture[0])| == 1
    requires plan.gesture[1] == SheetStep("", PlainStep) && w.step(1) == Raised(fault)
    ensures Executed(plan, w).0.machine.state == Some(CommitAttempted)
  {
    hide WellFormed, Executed, GestureStart, ReachesGesture, SetupScript, Drops, EndsWell, GoodFrom, GestureActs, StepGood, AfterGesture,
      Stepped, Asks, AskActs, StepEnd;
    ExecutedWell(plan, w);
    ReachesContext(plan, w);
    var start := GestureStart(plan, w, SetupScript(plan, w));
    GestureStartIs(plan, w, SetupScript(plan, w));
    SteppedExactly(plan, w, w.context.value, start, 0);
    FaultyStep(plan, w, w.context.value, start, fault);
  }

  /** A first step that completes, and a second whose primitive raises. */
  lemma FaultyStep(plan: Plan, w: World, base: Context, p: Progress, fault: Fault)
    requires |plan.gesture| == 2 && plan.gesture[1] == SheetStep("", PlainStep) && w.step(1) == Raised(fault)
    requires Stepped(plan, w, base, p, 0).1 == Completed
    ensures Gestured(plan, w, base, p, 0) == (Stepped(plan, w, base, p, 0).0, Stopped(fault))
  {
    var q := Stepped(plan, w, base, p, 0).0;
    assert Stepped(plan, w, base, q, 1) == (q, Stopped(fault));
    hide Stepped;
    assert Gestured(plan, w, base, q, 1) == (q, Stopped(fault));
  }

  /** An envelope that fails to parse, noticed only after the crossing. */
  lemma EnvelopeErrorAfterCrossing(c: C.ConvergenceResult)
    ensures
      var w := Smooth(c).(envelope := Raised(OtherError));
      var (p, exit) := Executed(TwoCommits(PlainStep), w);
      exit == Escaped(OtherError) && p.held && p.cleanups == 0 && p.machine.state == Some(CommitAttempted)
  {
    var plan, w := TwoCommits(PlainStep), Smooth(c).(envelope := Raised(OtherError));
    assert Asks(plan, plan.gesture[0]) == ["apply"] && Asks(plan, plan.gesture[1]) == [];
    assert StepGood(plan, w, HOME, 0, 0) && StepGood(plan, w, HOME, 1, 1);
    TwoStepsGood(plan, w, HOME, 1);
    SmoothReaches(PlainStep, w, c);
    hide Executed, WellFormed, StepGood, GoodFrom, ReachesGesture;
    EnvelopeExceptionLeaks(plan, w, OtherError);
  }

  // ----- down to the clauses -----

  /**
   When the post-oracle answer is what polling the observer converged to, a verified record means that the first stable
   observation satisfied every clause of an envelope that observes all it reads, and that every reproduction did so again.
   */
  lemma {:induction false} VerifiedProvesClauses(plan: Plan, w: World, e: E.Envelope, pre: V.Facts, categories: map<string, string>,
                              obs: nat -> V.Facts, ticks: nat -> real, i: nat, c: E.Clause)
    requires HasState(Executed(plan, w).1, Verified)
    requires w.converge.Ok? && C.Converged(e, pre, categories, obs, ticks, w.converge.value)
    requires Footprint.FullyObserved(e) && E.HasClause(e, c)
    ensures w.converge.value.polls >= 2
    ensures E.ClauseOutcome(e, pre, obs(w.converge.value.polls - 1), c) == E.Satisfied
    ensures i < e.convergence.reproduce ==> E.ClauseOutcome(e, pre, obs(w.converge.value.polls + i), c) == E.Satisfied
  {
    hide Executed, WellFormed, E.ClauseOutcome, E.Verdict, C.Converged, Footprint.FullyObserved, C.Reproduces, E.SameFrozen,
      ReachesGesture, GestureGood, Script, E.HasClause;
    VerifiedMeans(plan, w);
    var r := w.converge.value;
    C.SatisfiedMeans(e, pre, categories, obs, ticks, r);
    E.SatisfiedExactly(e, pre, obs(r.polls - 1), categories);
    if i < e.convergence.reproduce {
      C.ReproductionsReproveClauses(e, pre, categories, obs, ticks, r, i, c);
    }
  }
}
