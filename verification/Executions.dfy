/**
 One run of a capability, from the lease to the emitted record. Every collaborator (console, helper,
 scripts, observers) is a question whose answers a `World` fixes in advance, exceptions included; the run is
 what the executor does with those answers.
 */
module Executions {
  import opened Options
  import opened Transactions
  import I = Interpolation
  import C = Convergence
  import E = Envelopes

  // ----- what is run, and what the collaborators answer -----

  datatype Class = OrientationOnly | ReversiblePreCommit | PotentiallyMutating | CommitPoint

  predicate Mutates(c: Class) {
    c.PotentiallyMutating? || c.CommitPoint?
  }

  /** A commit step names its boundary as interpolated ("" when it names none); `PlainStep` is every other primitive. */
  datatype Primitive = CommitStep(boundary: string) | PlainStep

  /** A gesture step, with its profile action ("" for none). */
  datatype SheetStep = SheetStep(profileAction: string, primitive: Primitive)

  datatype Baseline = UiLanguage(value: string) | BinaryVersion(value: string)

  /** The accepted capability, profile and run sheet: the scripts of the setup steps as written, the number of cleanup steps. */
  datatype Plan = Plan(
    gpo: bool,
    actions: map<string, Class>,
    digest: Option<string>,
    baselines: seq<Baseline>,
    setup: seq<string>,
    gesture: seq<SheetStep>,
    cleanup: nat)

  function ClassOf(plan: Plan, action: string): Option<Class> {
    if action in plan.actions then Some(plan.actions[action]) else None
  }

  /** What a raising call raises: `RunSheetError`, `ExecTransactionError`, or anything else. */
  datatype Fault = SheetError | ExecError | OtherError

  datatype Answer<+T> = Ok(value: T) | Raised(fault: Fault)

  datatype Context = Context(
    session: int,
    user: string,
    desktop: Option<string>,
    fingerprint: Option<string>,   // of the foreground window, if there is one
    language: Option<string>)

  /** The identity that has to match at a crossing: the foreground is deliberately left out. */
  predicate SameSession(a: Context, b: Context) {
    a.session == b.session && a.user == b.user && a.desktop == b.desktop
  }

  /** What becomes of a script: nothing comes back, or its output does, which may hold a malformed GUID. */
  datatype ScriptRun = Unanswered(fault: Fault) | Ran(stdout: string, malformed: bool)

  datatype World = World(
    acquire: Answer<bool>,                 // false: held by another
    console: Answer<bool>,
    checkpoint: Answer<bool>,
    gateContext: Answer<Context>,
    version: nat -> Answer<Option<string>>,   // by baseline row
    domain: Answer<string>,
    inputs: map<string, string>,           // what `{args.key}` refers to
    outputs: nat -> map<string, string>,   // what `{out.key}` refers to, by setup step
    setup: nat -> ScriptRun,               // by setup step
    guid: Option<string>,                  // the gpo.guid output, once setup has ended
    preOracle: Answer<bool>,
    context: Answer<Context>,
    crossing: nat -> Answer<Context>,      // by crossing
    step: nat -> Answer<bool>,             // by gesture step; for a commit step, its interpolation
    envelope: Answer<bool>,
    converge: Answer<C.ConvergenceResult>,
    cleanup: nat -> Answer<bool>,          // by cleanup step
    requery: Answer<int>)

  // ----- how far a run has come -----

  datatype Act =
    | LeaseAcquired
    | ConsoleUnlocked
    | CheckpointPresent
    | GateContext(c: Context)
    | DigestEqual
    | RowEqual(row: nat)
    | DomainRead
    | SetupStep(i: nat)
    | PreOracleRead
    | PreparedContext(c: Context)
    | Entered(s: State)
    | CrossingAsked(boundary: string, cls: Option<Class>, context: Answer<Context>)
    | StepDone(i: nat)
    | ConvergeEnded(status: E.Status)
    | CleanupBegun
    | CleanupStep(i: nat, ok: bool)
    | Requeried(remaining: Answer<int>)
    | LeaseReleased

  datatype Progress = Progress(
    machine: Machine,
    emitted: seq<Event>,
    acts: seq<Act>,
    held: bool,          // the lease is held and active
    attempted: bool,     // setup was attempted
    cleanups: nat,
    crossings: nat,
    banked: seq<(string, string)>,   // setup scripts and their whole outputs
    note: Option<string>)

  const START := Progress(FRESH, [], [], false, false, 0, 0, [], None)

  datatype Record = Record(state: State, envelope: Option<C.ConvergenceResult>, events: seq<Event>)

  /** A run ends with a record, with a determinate refusal before setup, or with an exception nobody caught. */
  datatype Exit = Emitted(record: Record) | Declined | Escaped(fault: Fault)

  function Did(p: Progress, a: Act): Progress {
    p.(acts := p.acts + [a])
  }

  function Called(p: Progress, call: Call): Progress {
    p.(machine := Step(p.machine, call).0)
  }

  /** The newest event of the log joins the emitted ones. */
  function Recorded(p: Progress): Progress {
    if p.machine.events == [] then p
    else
      var event := p.machine.events[|p.machine.events| - 1];
      Did(p, Entered(event.to)).(emitted := p.emitted + [event])
  }

  function Aborted(p: Progress, reason: string): Progress {
    if p.machine.state.Some? && !Terminal(p.machine.state.get) then Called(p, MarkIndeterminate(reason))
    else p.(note := Some(reason))
  }

  function EmittedState(m: Machine): State {
    if m.state.Some? && Terminal(m.state.get) then m.state.get else Indeterminate
  }

  function Released(p: Progress): Progress {
    if p.held then Did(p, LeaseReleased).(held := false) else p
  }

  function Finished(p: Progress, envelope: Option<C.ConvergenceResult>): (Progress, Exit) {
    (Released(p), Emitted(Record(EmittedState(p.machine), envelope, p.emitted)))
  }

  // ----- before setup -----

  datatype GateEnd = Passed | Mismatch | Broken(fault: Fault)

  predicate NeedsContext(plan: Plan) {
    plan.digest.Some? || exists i :: 0 <= i < |plan.baselines| && plan.baselines[i].UiLanguage?
  }

  function Rows(plan: Plan, w: World, p: Progress, gate: Option<Context>, i: nat): (Progress, GateEnd)
    requires i <= |plan.baselines|
    decreases |plan.baselines| - i
  {
    if i == |plan.baselines| then (p, Passed)
    else
      match plan.baselines[i]
      case UiLanguage(value) =>
        if gate.Some? && gate.get.language == Some(value) then Rows(plan, w, Did(p, RowEqual(i)), gate, i + 1)
        else (p, Mismatch)
      case BinaryVersion(value) =>
        match w.version(i)
        case Raised(fault) => (p, Broken(fault))
        case Ok(observed) =>
          if observed == Some(value) then Rows(plan, w, Did(p, RowEqual(i)), gate, i + 1) else (p, Mismatch)
  }

  /** The fingerprint gate and then the baseline rows, on one context read. */
  function Gates(plan: Plan, w: World, p: Progress): (Progress, GateEnd) {
    if !NeedsContext(plan) then Rows(plan, w, p, None, 0)
    else
      match w.gateContext
      case Raised(fault) => (p, if fault == ExecError then Mismatch else Broken(fault))
      case Ok(c) =>
        var q := Did(p, GateContext(c));
        if plan.digest.None? then Rows(plan, w, q, Some(c), 0)
        else if c.fingerprint == plan.digest then Rows(plan, w, Did(q, DigestEqual), Some(c), 0)
        else (q, Mismatch)
  }

  // ----- setup and cleanup -----

  /** The script a setup step names, references resolved. */
  function ScriptName(plan: Plan, w: World, i: nat): Option<string>
    requires i < |plan.setup|
  {
    I.Interpolated(plan.setup[i], w.inputs, w.outputs(i))
  }

  /** One setup step: an output that comes back is banked, before anybody looks at what it says. */
  function SetUp(plan: Plan, w: World, p: Progress, i: nat): (Progress, Option<Fault>)
    requires i < |plan.setup|
  {
    var name := ScriptName(plan, w, i);
    if name.None? || name.get == "" then (p, Some(SheetError))
    else
      match w.setup(i)
      case Unanswered(fault) => (p, Some(fault))
      case Ran(stdout, malformed) =>
        var q := p.(banked := p.banked + [(name.get, stdout)]);
        if malformed then (q, Some(SheetError)) else (Did(q, SetupStep(i)), None)
  }

  function SetupSteps(plan: Plan, w: World, p: Progress, i: nat): (Progress, Option<Fault>)
    requires i <= |plan.setup|
    decreases |plan.setup| - i
  {
    if i == |plan.setup| then (p, if plan.gpo && w.guid.None? then Some(ExecError) else None)
    else
      var (q, fault) := SetUp(plan, w, p, i);
      if fault.Some? then (q, fault) else SetupSteps(plan, w, q, i + 1)
  }

  /** Every cleanup step is tried, whatever became of the ones before it. */
  function CleanupSteps(plan: Plan, w: World, p: Progress, i: nat): Progress
    requires i <= plan.cleanup
    decreases plan.cleanup - i
  {
    if i == plan.cleanup then p else CleanupSteps(plan, w, Did(p, CleanupStep(i, w.cleanup(i).Ok?)), i + 1)
  }

  function Cleaned(plan: Plan, w: World, p: Progress, guid: Option<string>): Progress {
    var q := CleanupSteps(plan, w, Did(p, CleanupBegun).(cleanups := p.cleanups + 1), 0);
    if guid.Some? && guid.get != "" then Did(q, Requeried(w.requery)) else q
  }

  function RunGuid(plan: Plan, w: World): Option<string> {
    if plan.gpo then w.guid else None
  }

  /** Abort, clean up and emit without an envelope result. */
  function AbortedOut(plan: Plan, w: World, p: Progress, reason: string, guid: Option<string>): (Progress, Exit) {
    Finished(Cleaned(plan, w, Aborted(p, reason), guid), None)
  }

  // ----- the gesture phase -----

  datatype GestureEnd = Completed | Stopped(fault: Fault) | HardStopped

  /** One `on_commit` call: a fresh context first, whatever the machine's state. */
  function Crossing(plan: Plan, w: World, base: Context, p: Progress, boundary: string): (Progress, GestureEnd) {
    var cls, answer := ClassOf(plan, boundary), w.crossing(p.crossings);
    var q := Did(p, CrossingAsked(boundary, cls, answer)).(crossings := p.crossings + 1);
    match answer
    case Raised(fault) => (q, Stopped(if fault == ExecError then SheetError else fault))
    case Ok(c) =>
      if !SameSession(base, c) then (q, Stopped(SheetError))
      else if q.machine.state == Some(CommitAttempted) then (q, Completed)
      else
        var declared := cls.Some? && Mutates(cls.get);
        var (m, reply) := Step(q.machine, Call.Commit(declared, if declared then "run-sheet crosses " + boundary else ""));
        match reply
        case Moved(_) => (Recorded(q.(machine := m)), Completed)
        case HardStop => (q.(machine := m), HardStopped)
        case Refused(_) => (q.(machine := m), Stopped(OtherError))
  }

  /** The profile check that precedes a step's primitive. */
  function Admitted(plan: Plan, w: World, base: Context, p: Progress, step: SheetStep): (Progress, GestureEnd) {
    if step.profileAction == "" then (p, Completed)
    else
      match ClassOf(plan, step.profileAction)
      case None => (p, Stopped(SheetError))
      case Some(cls) => if Mutates(cls) then Crossing(plan, w, base, p, step.profileAction) else (p, Completed)
  }

  function Performed(plan: Plan, w: World, base: Context, p: Progress, i: nat): (Progress, GestureEnd)
    requires i < |plan.gesture|
  {
    match w.step(i)
    case Raised(fault) => (p, Stopped(fault))
    case Ok(_) =>
      match plan.gesture[i].primitive
      case PlainStep => (p, Completed)
      case CommitStep(boundary) => if boundary == "" then (p, Stopped(SheetError)) else Crossing(plan, w, base, p, boundary)
  }

  function Stepped(plan: Plan, w: World, base: Context, p: Progress, i: nat): (Progress, GestureEnd)
    requires i < |plan.gesture|
  {
    var (q, before) := Admitted(plan, w, base, p, plan.gesture[i]);
    if before != Completed then (q, before)
    else
      var (r, after) := Performed(plan, w, base, q, i);
      if after != Completed then (r, after) else (Did(r, StepDone(i)), Completed)
  }

  function Gestured(plan: Plan, w: World, base: Context, p: Progress, i: nat): (Progress, GestureEnd)
    requires i <= |plan.gesture|
    decreases |plan.gesture| - i
  {
    if i == |plan.gesture| then (p, Completed)
    else
      var (q, end) := Stepped(plan, w, base, p, i);
      if end != Completed then (q, end) else Gestured(plan, w, base, q, i + 1)
  }

  // ----- the whole run -----

  function Resolved(p: Progress, c: C.ConvergenceResult): Progress {
    if p.machine.state != Some(CommitAttempted) then Called(p, MarkIndeterminate("no commit crossing; nothing to resolve"))
    else
      match c.status
      case StSatisfied => Called(p, Resolve(true, true, "", "converged"))
      case StDisproven => Called(p, Resolve(false, true, "envelope violated", ""))
      case StIndeterminate => Called(p, MarkIndeterminate("convergence indeterminate"))
  }

  function AfterGesture(plan: Plan, w: World, p: Progress): (Progress, Exit) {
    match w.envelope
    case Raised(fault) => (p, Escaped(fault))
    case Ok(_) =>
      match w.converge
      case Raised(_) => AbortedOut(plan, w, p, "post-oracle observation failed", RunGuid(plan, w))
      case Ok(c) =>
        Finished(Cleaned(plan, w, Recorded(Resolved(Did(p, ConvergeEnded(c.status)), c)), RunGuid(plan, w)), Some(c))
  }

  function Gesturing(plan: Plan, w: World, p: Progress, base: Context): (Progress, Exit) {
    var (q, end) := Gestured(plan, w, base, p, 0);
    match end
    case Completed => AfterGesture(plan, w, q)
    case HardStopped => Finished(Cleaned(plan, w, Recorded(q), RunGuid(plan, w)), None)
    case Stopped(fault) =>
      if fault == SheetError then AbortedOut(plan, w, q, "run-sheet aborted", RunGuid(plan, w)) else (q, Escaped(fault))
  }

  function Arming(plan: Plan, w: World, p: Progress, base: Context): (Progress, Exit) {
    var (m, prepared) := Step(p.machine, Prepare(true, p.held, true, true, "prepared"));
    if prepared.Refused? then AbortedOut(plan, w, p.(machine := m), "prepare refused", RunGuid(plan, w))
    else
      var q := Recorded(p.(machine := m));
      var (n, armed) := Step(q.machine, Arm("invocation started"));
      if armed.Refused? then AbortedOut(plan, w, q.(machine := n), "prepare refused", RunGuid(plan, w))
      else Gesturing(plan, w, Recorded(q.(machine := n)), base)
  }

  function AfterSetup(plan: Plan, w: World, p: Progress): (Progress, Exit) {
    match w.preOracle
    case Raised(_) => AbortedOut(plan, w, p, "pre-oracle failed", RunGuid(plan, w))
    case Ok(_) =>
      var q := Did(p, PreOracleRead);
      match w.context
      case Raised(fault) =>
        if fault == ExecError then AbortedOut(plan, w, q, "interactive context unavailable", RunGuid(plan, w))
        else (q, Escaped(fault))
      case Ok(base) => Arming(plan, w, Did(q, PreparedContext(base)), base)
  }

  function AfterGates(plan: Plan, w: World, p: Progress): (Progress, Exit) {
    match w.domain
    case Raised(fault) => (p, Escaped(fault))
    case Ok(_) =>
      var (q, end) := SetupSteps(plan, w, Did(p, DomainRead).(attempted := true), 0);
      if end == None then AfterSetup(plan, w, q)
      else if end == Some(OtherError) then (q, Escaped(OtherError))
      else AbortedOut(plan, w, q, "setup failed before prepare", w.guid)
  }

  function AfterLease(plan: Plan, w: World, p: Progress): (Progress, Exit) {
    match w.console
    case Raised(fault) => (p, Escaped(fault))
    case Ok(unlocked) =>
      if !unlocked then Finished(Aborted(p, "console never reached unlocked"), None)
      else
        var q := Did(p, ConsoleUnlocked);
        if w.checkpoint != Ok(true) then Finished(Aborted(q, "no recovery checkpoint"), None)
        else
          var (r, gate) := Gates(plan, w, Did(q, CheckpointPresent));
          match gate
          case Passed => AfterGates(plan, w, r)
          case Mismatch => (Released(r), Declined)
          case Broken(fault) => (r, Escaped(fault))
  }

  function Executed(plan: Plan, w: World): (Progress, Exit) {
    match w.acquire
    case Raised(fault) => (START, Escaped(fault))
    case Ok(acquired) =>
      if !acquired then Finished(Aborted(START, "interactive session lease unavailable"), None)
      else AfterLease(plan, w, Did(START.(held := true), LeaseAcquired))
  }
}
