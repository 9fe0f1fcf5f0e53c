/**
 The channel contract of a run sheet, and the helper requests its gesture primitives send. What the helper answers to the
 n-th request is fixed in advance; whether a selector or a window pattern fits an answer is part of the answer.
 */
module Channels {
  import opened Options

  // ----- the contract, checked before the run -----

  datatype Action =
    | Guest | Host | WaitForeground | WaitElement | ContextRead | Dump | ClickElement | TypeText | Key | Commit | LabelOnly | Shot
    | Keys

  datatype Phase = Setup | Gesture | Cleanup

  /** An entry of a `keys` step: a click on an element, or keys. */
  datatype KeyEntry = ClickEntry | KeyEntry

  /** `mutating`: the step carries a profile action of a mutating class. */
  datatype Step = Step(action: Action, phase: Phase, channel: Option<string>, nested: seq<KeyEntry>, mutating: bool)

  datatype Contract = Contract(
    setup: set<string>,
    operation: set<string>,
    orientation: set<string>,
    inputDelivery: set<string>,
    oracle: set<string>,
    cleanup: set<string>)

  const UI_OPERATION := {"gpmc_ui", "certtmpl_ui", "certsrv_ui"}

  predicate Input(a: Action) {
    a.ClickElement? || a.TypeText? || a.Key? || a.Keys?
  }

  predicate Script(a: Action) {
    a.Guest? || a.Host?
  }

  predicate ClicksElement(step: Step) {
    exists i :: 0 <= i < |step.nested| && step.nested[i].ClickEntry?
  }

  /** The orientation channels a step has to declare. */
  function RequiredOrientation(step: Step): set<string> {
    match step.action
    case WaitForeground => {"hwnd"}
    case WaitElement => {"uia", "hwnd"}
    case ContextRead => {"hwnd"}
    case Dump => {"uia", "hwnd"}
    case Shot => {"screenshot", "hwnd"}
    case ClickElement => {"uia", "hwnd"}
    case TypeText => {"hwnd"}
    case Key => {"hwnd"}
    case Keys => if ClicksElement(step) then {"hwnd", "uia"} else {"hwnd"}
    case _ => {}
  }

  predicate StepPermitted(contract: Contract, step: Step) {
    match step.phase
    case Setup => Script(step.action) && "powershell" in contract.setup
    case Cleanup => Script(step.action) && "powershell" in contract.cleanup
    case Gesture =>
      if Script(step.action) then step.channel == Some("gpmc_com") && "gpmc_com" in contract.operation
      else
        && RequiredOrientation(step) <= contract.orientation
        && (Input(step.action) ==> "helper_input" in contract.inputDelivery && contract.operation * UI_OPERATION != {})
  }

  predicate Permitted(contract: Contract, steps: seq<Step>, requery: bool) {
    "gpo_observers" in contract.oracle && (requery ==> "programmatic_requery" in contract.cleanup)
    && forall i :: 0 <= i < |steps| ==> StepPermitted(contract, steps[i])
  }

  /** The same, channel by channel: what needs each of them. */
  ghost predicate ByChannel(contract: Contract, step: Step) {
    var script := step.action == Guest || step.action == Host;
    var ui := step.phase == Gesture && !script;
    var clicks := exists i :: 0 <= i < |step.nested| && step.nested[i] == ClickEntry;
    && (step.phase == Setup ==> script && "powershell" in contract.setup)
    && (step.phase == Cleanup ==> script && "powershell" in contract.cleanup)
    && (step.phase == Gesture && script ==> step.channel == Some("gpmc_com") && "gpmc_com" in contract.operation)
    && (ui && step.action != Commit && step.action != LabelOnly ==> "hwnd" in contract.orientation)
    && (ui && (step.action == WaitElement || step.action == Dump || step.action == ClickElement || (step.action == Keys && clicks)) ==>
      "uia" in contract.orientation)
    && (ui && step.action == Shot ==> "screenshot" in contract.orientation)
    && (ui && (step.action == ClickElement || step.action == TypeText || step.action == Key || step.action == Keys) ==>
      "helper_input" in contract.inputDelivery
      && ("gpmc_ui" in contract.operation || "certtmpl_ui" in contract.operation || "certsrv_ui" in contract.operation))
  }

  lemma PermittedByChannel(contract: Contract, steps: seq<Step>, requery: bool)
    ensures Permitted(contract, steps, requery) <==>
      "gpo_observers" in contract.oracle && (requery ==> "programmatic_requery" in contract.cleanup)
      && forall i :: 0 <= i < |steps| ==> ByChannel(contract, steps[i])
  {
    forall i | 0 <= i < |steps| ensures StepPermitted(contract, steps[i]) <==> ByChannel(contract, steps[i]) {
      StepByChannel(contract, steps[i]);
    }
    hide StepPermitted, ByChannel;
  }

  lemma StepByChannel(contract: Contract, step: Step)
    ensures StepPermitted(contract, step) <==> ByChannel(contract, step)
  {
    UiOperation(contract);
    ClicksMeans(step);
    hide ClicksElement;
  }

  lemma ClicksMeans(step: Step)
    ensures ClicksElement(step) <==> exists i :: 0 <= i < |step.nested| && step.nested[i] == ClickEntry
  {
    if ClicksElement(step) {
      var i :| 0 <= i < |step.nested| && step.nested[i].ClickEntry?;
      assert step.nested[i] == ClickEntry;
    }
  }

  lemma UiOperation(contract: Contract)
    ensures contract.operation * UI_OPERATION != {} <==>
      "gpmc_ui" in contract.operation || "certtmpl_ui" in contract.operation || "certsrv_ui" in contract.operation
  {
    var both := contract.operation * UI_OPERATION;
    assert "gpmc_ui" in both <==> "gpmc_ui" in contract.operation;
    assert "certtmpl_ui" in both <==> "certtmpl_ui" in contract.operation;
    assert "certsrv_ui" in both <==> "certsrv_ui" in contract.operation;
    if both != {} {
      var c :| c in both;
      assert c in UI_OPERATION;
    }
  }

  method ValidateContract(contract: Contract, steps: seq<Step>, requery: bool) returns (ok: bool)
    ensures ok == Permitted(contract, steps, requery)
  {
    if "gpo_observers" !in contract.oracle {
      return false;
    }
    if requery && "programmatic_requery" !in contract.cleanup {
      return false;
    }
    for index := 0 to |steps|
      invariant forall i :: 0 <= i < index ==> StepPermitted(contract, steps[i])
    {
      var step := steps[index];
      if step.phase.Setup? {
        if !Script(step.action) || "powershell" !in contract.setup {
          return false;
        }
      } else if step.phase.Cleanup? {
        if !Script(step.action) || "powershell" !in contract.cleanup {
          return false;
        }
      } else if Script(step.action) {
        if step.channel.None? || step.channel.get != "gpmc_com" || step.channel.get !in contract.operation {
          return false;
        }
      } else {
        var missing := RequiredOrientation(step) - contract.orientation;
        if missing != {} {
          return false;
        }
        assert forall c :: c in RequiredOrientation(step) ==> c in missing || c in contract.orientation;
        if Input(step.action) && "helper_input" !in contract.inputDelivery {
          return false;
        }
        if Input(step.action) && contract.operation * UI_OPERATION == {} {
          return false;
        }
      }
    }
    ok := true;
  }

  // ----- what the primitives ask of the helper -----

  datatype Kind = Enumerate | UiaDump | Screenshot | ReadContext | Mouse | KeyInput | KeysInput

  /** A request, the window it names and the window that has to be in front, if any. */
  datatype Request = Request(kind: Kind, hwnd: Option<int>, focus: Option<int>)

  /** The requests a primitive may send; a commit reads the context it is about to cross in. */
  function Kinds(a: Action): set<Kind> {
    match a
    case WaitForeground => {Enumerate, Mouse}
    case WaitElement => {Enumerate, UiaDump}
    case ContextRead => {ReadContext, Enumerate}
    case Dump => {Enumerate, UiaDump}
    case ClickElement => {Enumerate, UiaDump, Mouse}
    case TypeText => {Enumerate, Mouse, KeyInput}
    case Key => {Enumerate, Mouse, KeyInput}
    case Keys => {Enumerate, UiaDump, KeysInput}
    case Shot => {Enumerate, Screenshot}
    case Commit => {ReadContext}
    case _ => {}
  }

  /** The requests a gesture step may send: a mutating profile action is a crossing of its own. */
  function StepKinds(step: Step): set<Kind> {
    (if step.mutating then {ReadContext} else {}) + Kinds(step.action)
  }

  /** The channel a request travels on is declared. */
  predicate Declares(contract: Contract, kind: Kind) {
    match kind
    case Enumerate => "hwnd" in contract.orientation
    case ReadContext => "hwnd" in contract.orientation
    case UiaDump => "uia" in contract.orientation
    case Screenshot => "screenshot" in contract.orientation
    case _ => "helper_input" in contract.inputDelivery
  }

  /**
   `keys` always dumps the target window, waiting for a window clicks on it to surface it, and every crossing reads the
   helper's context, whatever the step that crosses.
   */
  predicate Exceptional(contract: Contract, step: Step) {
    || (step.action.Keys? && !ClicksElement(step) && "uia" !in contract.orientation)
    || (step.action.WaitForeground? && "helper_input" !in contract.inputDelivery)
    || ((step.mutating || step.action.Commit?) && "hwnd" !in contract.orientation)
  }

  /** Of a permitted gesture step, every request is declared exactly when the step is not one of the three exceptions. */
  lemma StepSound(contract: Contract, step: Step)
    requires StepPermitted(contract, step) && step.phase.Gesture?
    ensures (forall kind :: kind in StepKinds(step) ==> Declares(contract, kind)) <==> !Exceptional(contract, step)
  {
    if step.action.Keys? && !ClicksElement(step) && "uia" !in contract.orientation {
      assert UiaDump in StepKinds(step) && !Declares(contract, UiaDump);
    }
    if step.action.WaitForeground? && "helper_input" !in contract.inputDelivery {
      assert Mouse in StepKinds(step) && !Declares(contract, Mouse);
    }
    if (step.mutating || step.action.Commit?) && "hwnd" !in contract.orientation {
      assert ReadContext in StepKinds(step) && !Declares(contract, ReadContext);
    }
    hide ClicksElement;
  }

  /** All three exceptions pass the check. */
  lemma {:induction false} ExceptionsArePermitted()
    ensures
      var contract := Contract({}, {"gpmc_ui"}, {"hwnd"}, {"helper_input"}, {"gpo_observers"}, {});
      var keys := Step(Keys, Gesture, None, [KeyEntry], false);
      Permitted(contract, [keys], false) && Exceptional(contract, keys)
    ensures
      var contract := Contract({}, {}, {"hwnd"}, {}, {"gpo_observers"}, {});
      var wait := Step(WaitForeground, Gesture, None, [], false);
      Permitted(contract, [wait], false) && Exceptional(contract, wait)
    ensures
      var contract := Contract({}, {}, {}, {}, {"gpo_observers"}, {});
      var commit := Step(Commit, Gesture, None, [], false);
      var mark := Step(LabelOnly, Gesture, None, [], true);
      Permitted(contract, [commit, mark], false) && Exceptional(contract, commit) && Exceptional(contract, mark)
  {
    assert "gpmc_ui" in {"gpmc_ui"} * UI_OPERATION;
  }

  // ----- the primitives -----

  /** One answer of the helper, with how the step's own patterns fare against it. */
  datatype Answer = Answer(
    lost: bool,                  // the transport raised
    ok: bool,
    focusRace: bool,             // the error is the foreground race
    hwnds: Option<seq<int>>,     // an enumeration's windows, when the list is well formed
    found: Option<Option<int>>,  // the first window fitting the pattern, with its hwnd if that is a number
    dumped: Option<int>,
    truncated: bool,
    placed: bool,                // the dump's root has a rectangle
    resolves: bool,              // the step's selectors resolve to placed elements
    crossing: End)               // what a crossing that has read this context comes to

  /**
   A primitive that comes back, one that raises `RunSheetError`, one the transport's own error goes through, and the hard
   stop of an undeclared first crossing.
   */
  datatype End = Done | SheetError | Lost | HardStop

  /** How a step names the window it means, besides the sheet's own target. */
  datatype Window = SheetTarget | Pattern

  datatype Params = Params(window: Window, fresh': bool, soft: bool, asserts: bool, patience: nat, bounded: bool)

  predicate NewIn(before: seq<Request>, after: seq<Request>, kinds: set<Kind>) {
    before <= after && forall i :: |before| <= i < |after| ==> after[i].kind in kinds
  }

  /** The gesture itself, then nothing but enumerations, clicks that surface its window, and the gesture without its focus. */
  predicate Retried(before: seq<Request>, after: seq<Request>, kind: Kind, hwnd: Option<int>, focus: Option<int>) {
    |before| < |after| && before <= after && after[|before|] == Request(kind, hwnd, focus)
    && forall i :: |before| < i < |after| ==>
      after[i] == Request(Enumerate, None, None) || after[i] == Request(Mouse, focus, focus) || after[i] == Request(kind, hwnd, None)
  }

  lemma RetriedFirst(before: seq<Request>, kind: Kind, hwnd: Option<int>, focus: Option<int>)
    ensures Retried(before, before + [Request(kind, hwnd, focus)], kind, hwnd, focus)
    ensures NewIn(before, before + [Request(kind, hwnd, focus)], {Enumerate, Mouse, kind})
  {
  }

  lemma RetriedMeans(before: seq<Request>, after: seq<Request>, kind: Kind, hwnd: Option<int>, focus: Option<int>)
    requires Retried(before, after, kind, hwnd, focus)
    ensures after[|before|] == Request(kind, hwnd, focus)
    ensures forall i :: |before| < i < |after| ==>
      (after[i].kind == Enumerate || after[i].kind == kind ==> after[i].focus == None || kind == Mouse)
      && (after[i].kind == Mouse && kind != Mouse ==> after[i].hwnd == focus && after[i].focus == focus)
  {
  }

  lemma RetriedMore(before: seq<Request>, after: seq<Request>, kind: Kind, hwnd: Option<int>, focus: Option<int>)
    requires Retried(before, after, kind, hwnd, focus)
    ensures NewIn(before, after, {Enumerate, Mouse, kind})
    ensures forall r: Request :: r == Request(Enumerate, None, None) || r == Request(Mouse, focus, focus) || r == Request(kind, hwnd, None) ==>
      Retried(before, after + [r], kind, hwnd, focus) && NewIn(before, after + [r], {Enumerate, Mouse, kind})
  {
  }

  predicate Trespasses(contract: Contract, before: seq<Request>, after: seq<Request>) {
    exists i :: |before| <= i < |after| && !Declares(contract, after[i].kind)
  }

  /** What each exception has sent when it comes back. */
  lemma ExceptionTrespasses(contract: Contract, step: Step, before: seq<Request>, crossed: seq<Request>, after: seq<Request>)
    requires Exceptional(contract, step) && before <= crossed <= after
    requires step.mutating ==> |crossed| == |before| + 1 && crossed[|before|].kind == ReadContext
    requires step.action.Commit? ==> |after| > |crossed| && after[|crossed|].kind == ReadContext
    requires step.action.Keys? ==> |after| >= |crossed| + 2 && after[|after| - 2].kind == UiaDump
    requires step.action.WaitForeground? ==> |after| > |crossed| && after[|after| - 1].kind == Mouse
    ensures Trespasses(contract, before, after)
  {
    if (step.mutating || step.action.Commit?) && "hwnd" !in contract.orientation {
      var i := if step.mutating then |before| else |crossed|;
      assert after[i].kind == ReadContext && !Declares(contract, after[i].kind);
    } else if step.action.Keys? {
      assert !Declares(contract, after[|after| - 2].kind);
    } else {
      assert !Declares(contract, after[|after| - 1].kind);
    }
  }

  function Listed(a: Answer): seq<int> {
    if a.hwnds.Some? then a.hwnds.get else []
  }

  class GestureExecutor {
    const answers: nat -> Answer
    var log: seq<Request>
    var target: Option<int>
    var stack: seq<int>      // the owners of the target, outermost first
    var placed: bool
    var resolves: bool
    var journal: seq<bool>   // one entry per step executed: did it come back

    constructor (answers: nat -> Answer)
      ensures this.answers == answers && log == [] && target == None && journal == [] && Valid()
    {
      this.answers := answers;
      log, target, stack, placed, resolves, journal := [], None, [], false, false, [];
    }

    predicate Valid()
      reads this
    {
      target.None? ==> stack == []
    }

    /** The dialog chain, the current window last. */
    function Chain(): seq<int>
      reads this
    {
      if target.Some? then stack + [target.get] else stack
    }

    method Ask(kind: Kind, hwnd: Option<int>, focus: Option<int>) returns (a: Answer)
      modifies this`log
      ensures log == old(log) + [Request(kind, hwnd, focus)] && a == answers(|old(log)|)
    {
      a := answers(|log|);
      log := log + [Request(kind, hwnd, focus)];
    }

    /** The newest window of the chain that is not known dead; every window above it has been reported dead. */
    method LiveTarget() returns (live: Option<int>, end: End)
      requires Valid()
      modifies this`log, this`target, this`stack
      ensures Valid() && NewIn(old(log), log, {Enumerate}) && (end == Done || end == Lost)
      ensures Chain() <= old(Chain())
      ensures end == Done ==>
        && live == target && (live.None? ==> Chain() == [])
        && |log| == |old(log)| + |old(Chain())| - |Chain()| + (if live.Some? then 1 else 0)
        && (live.Some? ==>
              var a := answers(|log| - 1);
              !a.lost && (a.ok && a.hwnds.Some? ==> live.get in a.hwnds.get))
      ensures forall i :: |old(log)| <= i < |old(log)| + |old(Chain())| - |Chain()| ==>
        !answers(i).lost && answers(i).ok && answers(i).hwnds.Some?
      ensures forall j :: |Chain()| <= j < |old(Chain())| ==>
        old(Chain())[j] !in Listed(answers(|old(log)| + |old(Chain())| - 1 - j))
    {
      ghost var chain := Chain();
      while target.Some?
        invariant Chain() <= chain && Valid()
        invariant NewIn(old(log), log, {Enumerate}) && |log| == |old(log)| + |chain| - |Chain()|
        invariant forall i :: |old(log)| <= i < |old(log)| + |chain| - |Chain()| ==>
          !answers(i).lost && answers(i).ok && answers(i).hwnds.Some?
        invariant forall j :: |Chain()| <= j < |chain| ==> chain[j] !in Listed(answers(|old(log)| + |chain| - 1 - j))
        decreases |Chain()|
      {
        var hwnd := target.get;
        var a := Ask(Enumerate, None, None);
        if a.lost {
          return None, Lost;
        }
        if !a.ok || a.hwnds.None? || hwnd in a.hwnds.get {
          return target, Done;
        }
        if stack == [] {
          target := None;
        } else {
          target, stack := Some(stack[|stack| - 1]), stack[..|stack| - 1];
        }
      }
      return None, Done;
    }

    method FindWindow() returns (found: Option<Option<int>>, end: End)
      modifies this`log
      ensures NewIn(old(log), log, {Enumerate}) && |log| == |old(log)| + 1
      ensures end == Done ==> answers(|old(log)|).ok && found == answers(|old(log)|).found
    {
      var a := Ask(Enumerate, None, None);
      found := a.found;
      end := if a.lost then Lost else if !a.ok then SheetError else Done;
    }

    method SendDump(hwnd: Option<int>) returns (end: End)
      requires Valid() && (hwnd.None? ==> stack == [])
      modifies this`log, this`target, this`placed, this`resolves
      ensures Valid() && log == old(log) + [Request(UiaDump, hwnd, None)] && stack == old(stack)
      ensures end == Done ==>
        var a := answers(|old(log)|);
        a.ok && !a.truncated && target == (if a.dumped.Some? then a.dumped else hwnd) && placed == a.placed && resolves == a.resolves
    {
      var a := Ask(UiaDump, hwnd, None);
      if a.lost {
        return Lost;
      }
      if !a.ok {
        return SheetError;
      }
      target := if a.dumped.Some? then a.dumped else hwnd;
      placed, resolves := a.placed, a.resolves;
      end := if a.truncated then SheetError else Done;
    }

    /** Dump the sheet's target, or the window a pattern names. A dump that comes back was sent. */
    method DumpWindow(window: Window) returns (end: End)
      requires Valid()
      modifies this`log, this`target, this`stack, this`placed, this`resolves
      ensures Valid() && NewIn(old(log), log, {Enumerate, UiaDump})
      ensures end == Done ==>
        && |log| > |old(log)| && log[|log| - 1].kind == UiaDump && resolves == answers(|log| - 1).resolves
        && target == (if answers(|log| - 1).dumped.Some? then answers(|log| - 1).dumped else log[|log| - 1].hwnd)
      ensures end == Done && window.Pattern? ==>
        && |log| > |old(log)| + 1 && log[|log| - 2].kind == Enumerate && answers(|log| - 2).found.Some?
        && (answers(|log| - 2).found.get.Some? ==> log[|log| - 1].hwnd == answers(|log| - 2).found.get)
    {
      var hwnd;
      hwnd, end := LiveTarget();
      if end != Done {
        return;
      }
      if window.Pattern? {
        var found;
        found, end := FindWindow();
        if end != Done {
          return;
        }
        if found.None? {
          return SheetError;
        }
        if found.get.Some? {
          hwnd := found.get;
        }
      }
      end := SendDump(hwnd);
    }

    method Surface(hwnd: int) returns (end: End)
      modifies this`log
      ensures log == old(log) + [Request(Mouse, Some(hwnd), Some(hwnd))] && (end == Done || end == Lost)
    {
      var a := Ask(Mouse, Some(hwnd), Some(hwnd));
      end := if a.lost then Lost else Done;
    }

    /** Wait for a window to exist, then click its title bar: a window found by number is always clicked on. */
    method WaitForegroundStep(patience: nat) returns (end: End)
      requires Valid()
      modifies this`log, this`target, this`stack
      ensures Valid() && NewIn(old(log), log, Kinds(WaitForeground))
      ensures end == Done && target != old(target) ==>
        && target.Some? && log != old(log) && log[|log| - 1] == Request(Mouse, target, target)
        && (old(target).Some? ==> Chain() == old(Chain()) + [target.get])
      // it comes back with the click as its last request, unless the window it found has no number
      ensures end == Done ==>
        && log != old(log)
        && (log[|log| - 1].kind == Mouse || (log[|log| - 1].kind == Enumerate && answers(|log| - 1).found == Some(None)))
    {
      var found;
      found, end := FindWindow();
      var polls := 1;
      while end == Done && found.None?
        invariant polls <= patience + 1
        invariant NewIn(old(log), log, {Enumerate}) && target == old(target) && stack == old(stack)
        invariant log != old(log) && (end == Done ==> found == answers(|log| - 1).found)
        decreases patience + 1 - polls
      {
        if polls > patience {
          return SheetError;
        }
        found, end := FindWindow();
        polls := polls + 1;
      }
      if end != Done || found.get.None? {
        return;
      }
      var hwnd := found.get.get;
      end := Surface(hwnd);
      if end != Done {
        return;
      }
      if target.Some? && target.get != hwnd {
        stack := stack + [target.get];
      }
      target := Some(hwnd);
    }

    /** Dump until the element is there; a dump that fails only means another try. */
    method WaitElementStep(window: Window, patience: nat) returns (end: End)
      requires Valid()
      modifies this`log, this`target, this`stack, this`placed, this`resolves
      ensures Valid() && NewIn(old(log), log, Kinds(WaitElement))
      ensures end == Done ==> |log| > |old(log)| && log[|log| - 1].kind == UiaDump && answers(|log| - 1).resolves && resolves
    {
      var live;
      live, end := LiveTarget();
      if end != Done {
        return;
      }
      if live.None? && window.SheetTarget? {
        return SheetError;
      }
      var attempts := 0;
      while attempts <= patience
        invariant Valid() && NewIn(old(log), log, {Enumerate, UiaDump})
        decreases patience + 1 - attempts
      {
        attempts := attempts + 1;
        end := DumpWindow(window);
        if end == Lost || (end == Done && resolves) {
          return;
        }
      }
      end := SheetError;
    }

    method ContextStep(asserts: bool) returns (end: End)
      requires Valid()
      modifies this`log
      ensures Valid() && NewIn(old(log), log, Kinds(ContextRead))
      ensures |log| > |old(log)| && log[|old(log)|].kind == ReadContext
      // a window that is to be there has to be found
      ensures end == Done ==> answers(|old(log)|).ok && (asserts ==> |log| == |old(log)| + 2 && answers(|old(log)| + 1).found.Some?)
    {
      var a := Ask(ReadContext, None, None);
      if a.lost {
        return Lost;
      }
      if !a.ok {
        return SheetError;
      }
      if asserts {
        var found;
        found, end := FindWindow();
        if end == Done && found.None? {
          end := SheetError;
        }
        return;
      }
      end := Done;
    }

    /**
     One gesture, and up to three retries of a lost foreground race, each after surfacing a window that still lives. A retry
     no longer insists on the foreground, but names the same window as before.
     */
    method WithFocusRetry(kind: Kind, hwnd: Option<int>, focus: Option<int>) returns (end: End)
      modifies this`log
      ensures Retried(old(log), log, kind, hwnd, focus) && NewIn(old(log), log, {Enumerate, Mouse, kind})
      ensures |old(log)| < |log| && log[|old(log)|] == Request(kind, hwnd, focus)
      ensures forall i :: |old(log)| < i < |log| ==>
        (log[i].kind == Enumerate || log[i].kind == kind ==> log[i].focus == None || kind == Mouse)
        && (log[i].kind == Mouse && kind != Mouse ==> log[i].hwnd == focus && log[i].focus == focus)
      ensures |old(log)| < |log| <= |old(log)| + 10 && (focus == None ==> |log| == |old(log)| + 1)
      ensures end == Done ==> answers(|log| - 1).ok && log[|log| - 1].kind == kind && log[|log| - 1].hwnd == hwnd
    {
      hide Retried;
      var a := Ask(kind, hwnd, focus);
      RetriedFirst(old(log), kind, hwnd, focus);
      var attempts := 0;
      while !a.lost && !a.ok && attempts < 3 && a.focusRace && focus.Some?
        invariant attempts <= 3 && (focus == None ==> attempts == 0)
        invariant |log| == |old(log)| + 1 + 3 * attempts && Retried(old(log), log, kind, hwnd, focus)
        invariant a == answers(|log| - 1) && log[|log| - 1].kind == kind && log[|log| - 1].hwnd == hwnd
      {
        attempts := attempts + 1;
        RetriedMore(old(log), log, kind, hwnd, focus);
        var seen := Ask(Enumerate, None, None);
        RetriedMeans(old(log), log, kind, hwnd, focus);
        if seen.lost {
          return Lost;
        }
        if seen.ok && seen.hwnds.Some? && focus.get !in seen.hwnds.get {
          return SheetError;
        }
        RetriedMore(old(log), log, kind, hwnd, focus);
        end := Surface(focus.get);
        RetriedMeans(old(log), log, kind, hwnd, focus);
        if end != Done {
          return;
        }
        RetriedMore(old(log), log, kind, hwnd, focus);
        a := Ask(kind, hwnd, None);
      }
      RetriedMore(old(log), log, kind, hwnd, focus);
      RetriedMeans(old(log), log, kind, hwnd, focus);
      end := if a.lost then Lost else if a.ok then Done else SheetError;
    }

    method ClickElementStep(p: Params) returns (end: End)
      requires Valid()
      modifies this`log, this`target, this`stack, this`placed, this`resolves
      ensures Valid() && NewIn(old(log), log, Kinds(ClickElement))
      // what was clicked on in the end is the sheet's window, or no window in particular when the sheet has none
      ensures end == Done && resolves ==>
        |log| > |old(log)| && log[|log| - 1].kind == Mouse && log[|log| - 1].hwnd == target
    {
      if p.fresh' {
        end := DumpWindow(p.window);
        if end != Done {
          return;
        }
      }
      if !resolves {
        return if p.soft then Done else SheetError;
      }
      if !placed {
        return SheetError;
      }
      end := WithFocusRetry(Mouse, target, target);
    }

    /** Keys go to the live window: they name it as the one to be in front, and the last request is theirs. */
    method KeyStep() returns (end: End)
      requires Valid()
      modifies this`log, this`target, this`stack
      ensures Valid() && NewIn(old(log), log, Kinds(Key)) && Chain() <= old(Chain())
      ensures end == Done ==>
        && |log| > |old(log)| && log[|log| - 1].kind == KeyInput && answers(|log| - 1).ok
        && exists i :: |old(log)| <= i < |log| && log[i] == Request(KeyInput, None, target)
    {
      var focus;
      focus, end := LiveTarget();
      if end == Done {
        ghost var sent := |log|;
        end := WithFocusRetry(KeyInput, None, focus);
        assert log[sent] == Request(KeyInput, None, target);
      }
    }

    /** The composite always dumps its target first, whether or not any of its entries needs the dump. */
    method KeysStep(clicks: bool) returns (end: End)
      requires Valid()
      modifies this`log, this`target, this`stack, this`placed, this`resolves
      ensures Valid() && NewIn(old(log), log, Kinds(Keys))
      ensures end == Done ==>
        && |log| >= |old(log)| + 2 && log[|log| - 2].kind == UiaDump
        && log[|log| - 1].kind == KeysInput && log[|log| - 1].focus.Some?
    {
      var focus;
      focus, end := LiveTarget();
      if end != Done {
        return;
      }
      if focus.None? {
        return SheetError;
      }
      end := DumpWindow(SheetTarget);
      if end != Done {
        return;
      }
      if !placed || (clicks && !resolves) {
        return SheetError;
      }
      var a := Ask(KeysInput, None, focus);
      end := if a.lost then Lost else if a.ok then Done else SheetError;
    }

    method ShotStep() returns (end: End)
      requires Valid()
      modifies this`log, this`target, this`stack
      ensures Valid() && NewIn(old(log), log, Kinds(Shot))
      ensures end == Done ==>
        |log| > |old(log)| && target.Some? && log[|log| - 1] == Request(Screenshot, target, None) && answers(|log| - 1).ok
    {
      var hwnd;
      hwnd, end := LiveTarget();
      if end != Done {
        return;
      }
      if hwnd.None? {
        return SheetError;
      }
      var a := Ask(Screenshot, hwnd, None);
      end := if a.lost then Lost else if a.ok then Done else SheetError;
    }

    /** One crossing: the helper's context is read first, and decides. */
    method OnCommit() returns (end: End)
      modifies this`log
      ensures log == old(log) + [Request(ReadContext, None, None)]
    {
      var a := Ask(ReadContext, None, None);
      end := if a.lost then Lost else if !a.ok then SheetError else a.crossing;
    }

    method Primitive(step: Step, p: Params) returns (end: End)
      requires Valid()
      modifies this`log, this`target, this`stack, this`placed, this`resolves
      ensures Valid() && NewIn(old(log), log, Kinds(step.action))
      ensures step.action.Commit? && p.bounded ==> |log| > |old(log)| && log[|old(log)|].kind == ReadContext
      ensures end == Done && step.action.Commit? ==> p.bounded
      ensures end == Done && step.action.Keys? ==> |log| >= |old(log)| + 2 && log[|log| - 2].kind == UiaDump
      ensures end == Done && step.action.WaitForeground? ==>
        && |log| > |old(log)|
        && (log[|log| - 1].kind == Mouse || (log[|log| - 1].kind == Enumerate && answers(|log| - 1).found == Some(None)))
    {
      match step.action {
        case WaitForeground => end := WaitForegroundStep(p.patience);
        case WaitElement => end := WaitElementStep(p.window, p.patience);
        case ContextRead => end := ContextStep(p.asserts);
        case Dump => end := DumpWindow(p.window);
        case ClickElement => end := ClickElementStep(p);
        case TypeText => end := KeyStep();
        case Key => end := KeyStep();
        case Keys => end := KeysStep(ClicksElement(step));
        case Shot => end := ShotStep();
        case Commit =>
          if !p.bounded {
            return SheetError;
          }
          end := OnCommit();
        case _ => end := Done;   // scripts and labels send the helper nothing
      }
    }

    /** The profile check, a crossing when the step's profile action is mutating, and then the primitive. */
    method ExecuteStep(step: Step, p: Params) returns (end: End)
      requires Valid()
      modifies this`log, this`target, this`stack, this`placed, this`resolves
      ensures Valid() && NewIn(old(log), log, StepKinds(step))
      ensures step.mutating || (step.action.Commit? && p.bounded) ==> |log| > |old(log)| && log[|old(log)|].kind == ReadContext
      // a step that is an exception to its contract, and comes back, has sent a request the contract does not declare
      ensures end == Done && !Unnumbered(step, old(log), log) ==>
        forall contract :: Exceptional(contract, step) ==> Trespasses(contract, old(log), log)
    {
      if step.mutating {
        end := OnCommit();
        if end != Done {
          return;
        }
      }
      ghost var crossed := log;
      end := Primitive(step, p);
      if end == Done && !Unnumbered(step, old(log), log) {
        forall contract | Exceptional(contract, step) ensures Trespasses(contract, old(log), log) {
          ExceptionTrespasses(contract, step, old(log), crossed, log);
        }
      }
    }

    /** The wait ended with a window whose number the helper did not give: there was nothing to click on. */
    predicate Unnumbered(step: Step, before: seq<Request>, after: seq<Request>) {
      step.action.WaitForeground? && |after| > |before| && after[|after| - 1].kind == Enumerate && answers(|after| - 1).found == Some(None)
    }

    /** The gesture steps in order, up to the first that does not come back. */
    method Execute(steps: seq<Step>, ps: seq<Params>, contract: Contract) returns (end: End)
      requires Valid() && |ps| == |steps| && Permitted(contract, steps, false)
      requires forall i :: 0 <= i < |steps| ==> steps[i].phase.Gesture? && !Exceptional(contract, steps[i])
      modifies this
      ensures Valid() && old(log) <= log
      ensures forall i :: |old(log)| <= i < |log| ==> Declares(contract, log[i].kind)
      ensures old(journal) <= journal && |journal| <= |old(journal)| + |steps|
      ensures end == Done ==> |journal| == |old(journal)| + |steps|
      ensures forall i :: |old(journal)| <= i < |journal| ==> (journal[i] <==> end != SheetError || i < |journal| - 1)
      ensures end == SheetError ==> |journal| > |old(journal)|
    {
      end := Done;
      for i := 0 to |steps|
        invariant Valid() && old(log) <= log && end == Done
        invariant forall j :: |old(log)| <= j < |log| ==> Declares(contract, log[j].kind)
        invariant old(journal) <= journal && |journal| == |old(journal)| + i
        invariant forall j :: |old(journal)| <= j < |journal| ==> journal[j]
      {
        StepSound(contract, steps[i]);
        end := ExecuteStep(steps[i], ps[i]);
        if end == SheetError {
          journal := journal + [false];
        }
        if end != Done {
          return;
        }
        journal := journal + [true];
      }
    }
  }
}
