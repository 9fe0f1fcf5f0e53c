/**
 The executor itself: an object that drives the transaction, keeps the emitted events and the acts, and holds the
 lease. Each method leaves exactly the progress that `Executions` specifies.
 */
module Executor {
  import opened Options
  import opened Transactions
  import opened Executions
  import C = Convergence

  class Executor {
    const plan: Plan
    const w: World
    const txn: Transaction
    var emitted: seq<Event>
    var acts: seq<Act>
    var held: bool
    var attempted: bool
    var cleanups: nat
    var crossings: nat
    var banked: seq<(string, string)>
    var note: Option<string>

    function View(): Progress
      reads this, txn
    {
      Progress(txn.View(), emitted, acts, held, attempted, cleanups, crossings, banked, note)
    }

    constructor (plan: Plan, w: World)
      ensures this.plan == plan && this.w == w && fresh(txn) && View() == START
    {
      this.plan, this.w := plan, w;
      txn := new Transaction();
      emitted, acts, held, attempted, cleanups, crossings, banked, note := [], [], false, false, 0, 0, [], None;
    }

    method Do(act: Act)
      modifies this
      ensures View() == Did(old(View()), act)
    {
      acts := acts + [act];
    }

    method RecordEvent()
      modifies this
      ensures View() == Recorded(old(View()))
    {
      if txn.events != [] {
        var event := txn.events[|txn.events| - 1];
        emitted := emitted + [event];
        acts := acts + [Entered(event.to)];
      }
    }

    method AbortIndeterminate(reason: string)
      modifies this, txn
      ensures View() == Aborted(old(View()), reason)
    {
      if txn.state.Some? && !Terminal(txn.state.get) {
        var _ := txn.MarkIndeterminate(reason);
      } else {
        note := Some(reason);
      }
    }

    method ReleaseLease()
      modifies this
      ensures View() == Released(old(View()))
    {
      if held {
        held := false;
        acts := acts + [LeaseReleased];
      }
    }

    method Finish(envelope: Option<C.ConvergenceResult>) returns (exit: Exit)
      modifies this
      ensures (View(), exit) == Finished(old(View()), envelope)
    {
      var state := EmittedState(txn.View());
      ReleaseLease();
      exit := Emitted(Record(state, envelope, emitted));
    }

    method Cleanup(guid: Option<string>)
      modifies this
      ensures View() == Cleaned(plan, w, old(View()), guid)
    {
      cleanups := cleanups + 1;
      acts := acts + [CleanupBegun];
      ghost var begun := View();
      for i := 0 to plan.cleanup
        invariant CleanupSteps(plan, w, View(), i) == CleanupSteps(plan, w, begun, 0)
      {
        Do(CleanupStep(i, w.cleanup(i).Ok?));
      }
      if guid.Some? && guid.get != "" {
        Do(Requeried(w.requery));
      }
    }

    method AbortOut(reason: string, guid: Option<string>) returns (exit: Exit)
      modifies this, txn
      ensures (View(), exit) == AbortedOut(plan, w, old(View()), reason, guid)
    {
      AbortIndeterminate(reason);
      Cleanup(guid);
      exit := Finish(None);
    }

    method OnCommit(base: Context, boundary: string) returns (end: GestureEnd)
      modifies this, txn
      ensures (View(), end) == Crossing(plan, w, base, old(View()), boundary)
    {
      var cls := ClassOf(plan, boundary);
      var answer := w.crossing(crossings);
      crossings := crossings + 1;
      acts := acts + [CrossingAsked(boundary, cls, answer)];
      if answer.Raised? {
        return Stopped(if answer.fault == ExecError then SheetError else answer.fault);
      }
      if !SameSession(base, answer.value) {
        return Stopped(SheetError);
      }
      if txn.state == Some(CommitAttempted) {
        return Completed;
      }
      var declared := cls.Some? && Mutates(cls.get);
      var reply := txn.Commit(declared, if declared then "run-sheet crosses " + boundary else "");
      if reply.HardStop? {
        return HardStopped;
      }
      if reply.Refused? {
        return Stopped(OtherError);
      }
      RecordEvent();
      end := Completed;
    }

    method ExecuteStep(base: Context, i: nat) returns (end: GestureEnd)
      requires i < |plan.gesture|
      modifies this, txn
      ensures (View(), end) == Stepped(plan, w, base, old(View()), i)
    {
      hide Crossing;
      var step := plan.gesture[i];
      if step.profileAction != "" {
        var declared := ClassOf(plan, step.profileAction);
        if declared.None? {
          return Stopped(SheetError);
        }
        if Mutates(declared.get) {
          end := OnCommit(base, step.profileAction);
          if end != Completed {
            return;
          }
        }
      }
      if w.step(i).Raised? {
        return Stopped(w.step(i).fault);
      }
      if step.primitive.CommitStep? {
        if step.primitive.boundary == "" {
          return Stopped(SheetError);
        }
        end := OnCommit(base, step.primitive.boundary);
        if end != Completed {
          return;
        }
      }
      Do(StepDone(i));
      end := Completed;
    }

    method ExecuteGesture(base: Context) returns (end: GestureEnd)
      modifies this, txn
      ensures (View(), end) == Gestured(plan, w, base, old(View()), 0)
    {
      hide Stepped;
      for i := 0 to |plan.gesture|
        invariant Gestured(plan, w, base, View(), i) == Gestured(plan, w, base, old(View()), 0)
      {
        end := ExecuteStep(base, i);
        if end != Completed {
          return;
        }
      }
      end := Completed;
    }

    method CheckRows(gate: Option<Context>) returns (end: GateEnd)
      modifies this
      ensures (View(), end) == Rows(plan, w, old(View()), gate, 0)
    {
      for i := 0 to |plan.baselines|
        invariant Rows(plan, w, View(), gate, i) == Rows(plan, w, old(View()), gate, 0)
      {
        match plan.baselines[i] {
          case UiLanguage(value) =>
            if gate.None? || gate.get.language != Some(value) {
              return Mismatch;
            }
          case BinaryVersion(value) =>
            var observed := w.version(i);
            if observed.Raised? {
              return Broken(observed.fault);
            }
            if observed.value != Some(value) {
              return Mismatch;
            }
        }
        Do(RowEqual(i));
      }
      end := Passed;
    }

    method CheckGates() returns (end: GateEnd)
      modifies this
      ensures (View(), end) == Gates(plan, w, old(View()))
    {
      hide Rows;
      var gate: Option<Context> := None;
      if NeedsContext(plan) {
        if w.gateContext.Raised? {
          return if w.gateContext.fault == ExecError then Mismatch else Broken(w.gateContext.fault);
        }
        gate := Some(w.gateContext.value);
        Do(GateContext(gate.get));
        if plan.digest.Some? {
          if gate.get.fingerprint != plan.digest {
            return Mismatch;
          }
          Do(DigestEqual);
        }
      }
      end := CheckRows(gate);
    }

    method RunSetupScript(i: nat) returns (end: Option<Fault>)
      requires i < |plan.setup|
      modifies this
      ensures (View(), end) == SetUp(plan, w, old(View()), i)
    {
      var name := ScriptName(plan, w, i);
      if name.None? || name.get == "" {
        return Some(SheetError);
      }
      var run := w.setup(i);
      if run.Unanswered? {
        return Some(run.fault);
      }
      banked := banked + [(name.get, run.stdout)];
      if run.malformed {
        return Some(SheetError);
      }
      Do(SetupStep(i));
      end := None;
    }

    method ExecuteSetup() returns (end: Option<Fault>)
      modifies this
      ensures (View(), end) == SetupSteps(plan, w, old(View()), 0)
    {
      hide SetUp;
      for i := 0 to |plan.setup|
        invariant SetupSteps(plan, w, View(), i) == SetupSteps(plan, w, old(View()), 0)
      {
        end := RunSetupScript(i);
        if end.Some? {
          return;
        }
      }
      end := if plan.gpo && w.guid.None? then Some(ExecError) else None;
    }

    method Resolve(c: C.ConvergenceResult)
      modifies this, txn
      ensures View() == Resolved(old(View()), c)
    {
      if txn.state != Some(CommitAttempted) {
        var _ := txn.MarkIndeterminate("no commit crossing; nothing to resolve");
      } else if c.status.StSatisfied? {
        var _ := txn.Resolve(true, true, "", "converged");
      } else if c.status.StDisproven? {
        var _ := txn.Resolve(false, true, "envelope violated", "");
      } else {
        var _ := txn.MarkIndeterminate("convergence indeterminate");
      }
    }

    method PostOracle() returns (exit: Exit)
      modifies this, txn
      ensures (View(), exit) == AfterGesture(plan, w, old(View()))
    {
      hide Resolved, Recorded, Cleaned, Finished, AbortedOut;
      if w.envelope.Raised? {
        return Escaped(w.envelope.fault);
      }
      if w.converge.Raised? {
        exit := AbortOut("post-oracle observation failed", RunGuid(plan, w));
        return;
      }
      Do(ConvergeEnded(w.converge.value.status));
      Resolve(w.converge.value);
      RecordEvent();
      Cleanup(RunGuid(plan, w));
      exit := Finish(Some(w.converge.value));
    }

    method Gesture(base: Context) returns (exit: Exit)
      modifies this, txn
      ensures (View(), exit) == Gesturing(plan, w, old(View()), base)
    {
      hide Gestured, AfterGesture, Recorded, Cleaned, Finished, AbortedOut;
      var end := ExecuteGesture(base);
      match end {
        case Completed =>
          exit := PostOracle();
        case HardStopped =>
          RecordEvent();
          Cleanup(RunGuid(plan, w));
          exit := Finish(None);
        case Stopped(fault) =>
          if fault == SheetError {
            exit := AbortOut("run-sheet aborted", RunGuid(plan, w));
          } else {
            exit := Escaped(fault);
          }
      }
    }

    method PrepareAndArm(base: Context) returns (exit: Exit)
      modifies this, txn
      ensures (View(), exit) == Arming(plan, w, old(View()), base)
    {
      hide Step, Recorded, Gesturing, AbortedOut;
      var prepared := txn.Prepare(true, held, true, true, "prepared");
      if prepared.Refused? {
        exit := AbortOut("prepare refused", RunGuid(plan, w));
        return;
      }
      RecordEvent();
      var armed := txn.Arm("invocation started");
      if armed.Refused? {
        exit := AbortOut("prepare refused", RunGuid(plan, w));
        return;
      }
      RecordEvent();
      exit := Gesture(base);
    }

    method PreOracle() returns (exit: Exit)
      modifies this, txn
      ensures (View(), exit) == AfterSetup(plan, w, old(View()))
    {
      hide Arming, AbortedOut;
      if w.preOracle.Raised? {
        exit := AbortOut("pre-oracle failed", RunGuid(plan, w));
        return;
      }
      Do(PreOracleRead);
      if w.context.Raised? {
        if w.context.fault == ExecError {
          exit := AbortOut("interactive context unavailable", RunGuid(plan, w));
        } else {
          exit := Escaped(w.context.fault);
        }
        return;
      }
      Do(PreparedContext(w.context.value));
      exit := PrepareAndArm(w.context.value);
    }

    method Setup() returns (exit: Exit)
      modifies this, txn
      ensures (View(), exit) == AfterGates(plan, w, old(View()))
    {
      hide AfterSetup, AbortedOut, SetupSteps;
      if w.domain.Raised? {
        return Escaped(w.domain.fault);
      }
      Do(DomainRead);
      attempted := true;
      var end := ExecuteSetup();
      if end == None {
        exit := PreOracle();
      } else if end == Some(OtherError) {
        exit := Escaped(OtherError);
      } else {
        exit := AbortOut("setup failed before prepare", w.guid);
      }
    }

    method Run() returns (exit: Exit)
      requires View() == START
      modifies this, txn
      ensures (View(), exit) == Executed(plan, w)
    {
      hide AfterGates, Gates, Aborted, Finished;
      if w.acquire.Raised? {
        return Escaped(w.acquire.fault);
      }
      if !w.acquire.value {
        AbortIndeterminate("interactive session lease unavailable");
        exit := Finish(None);
        return;
      }
      held := true;
      Do(LeaseAcquired);
      if w.console.Raised? {
        return Escaped(w.console.fault);
      }
      if !w.console.value {
        AbortIndeterminate("console never reached unlocked");
        exit := Finish(None);
        return;
      }
      Do(ConsoleUnlocked);
      if w.checkpoint != Ok(true) {
        AbortIndeterminate("no recovery checkpoint");
        exit := Finish(None);
        return;
      }
      Do(CheckpointPresent);
      var gate := CheckGates();
      match gate {
        case Passed =>
          exit := Setup();
        case Mismatch =>
          ReleaseLease();
          exit := Declined;
        case Broken(fault) =>
          exit := Escaped(fault);
      }
    }
  }

  method ExecuteTransaction(plan: Plan, w: World) returns (progress: Progress, exit: Exit)
    ensures (progress, exit) == Executed(plan, w)
  {
    var executor := new Executor(plan, w);
    exit := executor.Run();
    progress := executor.View();
  }
}
