/** The transaction state machine: guarded transitions, a timestamp-free event log, recorded refusals. */
module Transactions {
  import opened Options

  datatype State = Prepared | Armed | CommitAttempted | Verified | Disproven | Indeterminate

  predicate Terminal(s: State) {
    s.Verified? || s.Disproven? || s.Indeterminate?
  }

  /** The caller's text, or the machine's own wording when the caller gave none. */
  datatype Reason = Given(text: string) | Canonical

  function Worded(reason: string): Reason {
    if reason == "" then Canonical else Given(reason)
  }

  datatype Event = Event(sequence: nat, from: Option<State>, to: State, reason: Reason)

  datatype Guard = GuardPrepare | GuardState | GuardTerminal | GuardReplay | GuardUndeclared

  /** How a call ends: a transition, a refusal that moved nothing, or the hard stop. */
  datatype Reply = Moved(event: Event) | Refused(guard: Guard) | HardStop

  datatype Call =
    | Prepare(preOracleDone: bool, leaseHeld: bool, contextAsserted: bool, recoveryDeclared: bool, reason: string)
    | Arm(reason: string)
    | Commit(declared: bool, reason: string)
    | Resolve(envelopeSatisfied: bool, reproduceSatisfied: bool, characterization: string, reason: string)
    | MarkIndeterminate(reason: string)

  datatype Machine = Machine(
    state: Option<State>,
    events: seq<Event>,
    refusals: seq<Guard>,
    characterization: Option<string>,
    indeterminateReason: Option<Reason>)

  const FRESH := Machine(None, [], [], None, None)

  function Move(m: Machine, to: State, reason: Reason): Machine {
    m.(events := m.events + [Event(|m.events| + 1, m.state, to, reason)], state := Some(to))
  }

  function Refuse(m: Machine, guard: Guard): Machine {
    m.(refusals := m.refusals + [guard])
  }

  function Last(m: Machine): Reply {
    if m.events == [] then HardStop else Moved(m.events[|m.events| - 1])
  }

  /** One call, as the state it leaves and the way it ends. */
  function Step(m: Machine, call: Call): (Machine, Reply) {
    match call
    case Prepare(oracle, lease, context, recovery, reason) =>
      if m.state.Some? then (Refuse(m, GuardState), Refused(GuardState))
      else if !(oracle && lease && context && recovery) then (Refuse(m, GuardPrepare), Refused(GuardPrepare))
      else Advance(m, Prepared, Worded(reason))
    case Arm(reason) =>
      if m.state == Some(Prepared) then Advance(m, Armed, Worded(reason))
      else if m.state.None? || m.state == Some(Armed) then (Refuse(m, GuardState), Refused(GuardState))
      else (Refuse(m, GuardReplay), Refused(GuardReplay))
    case Commit(declared, reason) =>
      if !declared then
        if m.state.None? then (Refuse(m, GuardState), Refused(GuardState))
        else if Terminal(m.state.get) then (Refuse(m, GuardTerminal), Refused(GuardTerminal))
        else (Move(Refuse(m, GuardUndeclared), Indeterminate, Canonical).(indeterminateReason := Some(Worded(reason))), HardStop)
      else if m.state == Some(Armed) then Advance(m, CommitAttempted, Worded(reason))
      else if m.state.Some? && Terminal(m.state.get) then (Refuse(m, GuardReplay), Refused(GuardReplay))
      else (Refuse(m, GuardState), Refused(GuardState))
    case Resolve(envelope, reproduce, characterization, reason) =>
      if m.state != Some(CommitAttempted) then (Refuse(m, GuardState), Refused(GuardState))
      else if envelope && reproduce then Advance(m, Verified, Worded(reason))
      else if !envelope then Advance(m.(characterization := Some(characterization)), Disproven, Worded(reason))
      else Advance(m.(indeterminateReason := Some(Worded(reason))), Indeterminate, Worded(reason))
    case MarkIndeterminate(reason) =>
      if m.state.None? then (Refuse(m, GuardState), Refused(GuardState))
      else if Terminal(m.state.get) then (Refuse(m, GuardTerminal), Refused(GuardTerminal))
      else Advance(m.(indeterminateReason := Some(Given(reason))), Indeterminate, Given(reason))
  }

  function Advance(m: Machine, to: State, reason: Reason): (Machine, Reply) {
    var n := Move(m, to, reason);
    (n, Last(n))
  }

  function Run(m: Machine, calls: seq<Call>): Machine
    decreases calls
  {
    if calls == [] then m else Run(Step(m, calls[0]).0, calls[1..])
  }

  // ----- the machine as the object the executor drives -----

  class Transaction {
    var state: Option<State>
    var events: seq<Event>
    var refusals: seq<Guard>
    var characterization: Option<string>
    var indeterminateReason: Option<Reason>

    function View(): Machine
      reads this
    {
      Machine(state, events, refusals, characterization, indeterminateReason)
    }

    constructor ()
      ensures View() == FRESH
    {
      state, events, refusals, characterization, indeterminateReason := None, [], [], None, None;
    }

    method Prepare(preOracleDone: bool, leaseHeld: bool, contextAsserted: bool, recoveryDeclared: bool, reason: string)
      returns (r: Reply)
      modifies this
      ensures (View(), r) == Step(old(View()), Call.Prepare(preOracleDone, leaseHeld, contextAsserted, recoveryDeclared, reason))
    {
      if state.Some? {
        r := RefuseWith(GuardState);
        return;
      }
      if !preOracleDone || !leaseHeld || !contextAsserted || !recoveryDeclared {
        r := RefuseWith(GuardPrepare);
        return;
      }
      r := Transition(Prepared, Worded(reason));
    }

    method Arm(reason: string) returns (r: Reply)
      modifies this
      ensures (View(), r) == Step(old(View()), Call.Arm(reason))
    {
      if state == Some(Prepared) {
        r := Transition(Armed, Worded(reason));
      } else if state == None || state == Some(Armed) {
        r := RefuseWith(GuardState);
      } else {
        r := RefuseWith(GuardReplay);
      }
    }

    method Commit(declared: bool, reason: string) returns (r: Reply)
      modifies this
      ensures (View(), r) == Step(old(View()), Call.Commit(declared, reason))
    {
      if !declared {
        if state == None {
          r := RefuseWith(GuardState);
          return;
        }
        if Terminal(state.get) {
          r := RefuseWith(GuardTerminal);
          return;
        }
        refusals := refusals + [GuardUndeclared];
        var _ := Transition(Indeterminate, Canonical);
        indeterminateReason := Some(Worded(reason));
        return HardStop;
      }
      if state == Some(Armed) {
        r := Transition(CommitAttempted, Worded(reason));
      } else if state == Some(CommitAttempted) || state == Some(Prepared) || state == None {
        r := RefuseWith(GuardState);
      } else {
        r := RefuseWith(GuardReplay);
      }
    }

    method Resolve(envelopeSatisfied: bool, reproduceSatisfied: bool, characterized: string, reason: string) returns (r: Reply)
      modifies this
      ensures (View(), r) == Step(old(View()), Call.Resolve(envelopeSatisfied, reproduceSatisfied, characterized, reason))
    {
      if state != Some(CommitAttempted) {
        r := RefuseWith(GuardState);
        return;
      }
      if envelopeSatisfied && reproduceSatisfied {
        r := Transition(Verified, Worded(reason));
        return;
      }
      if !envelopeSatisfied {
        characterization := Some(characterized);
        r := Transition(Disproven, Worded(reason));
        return;
      }
      r := Transition(Indeterminate, Worded(reason));
      indeterminateReason := Some(Worded(reason));
    }

    method MarkIndeterminate(reason: string) returns (r: Reply)
      modifies this
      ensures (View(), r) == Step(old(View()), Call.MarkIndeterminate(reason))
    {
      if state == None {
        r := RefuseWith(GuardState);
        return;
      }
      if Terminal(state.get) {
        r := RefuseWith(GuardTerminal);
        return;
      }
      r := Transition(Indeterminate, Given(reason));
      indeterminateReason := Some(Given(reason));
    }

    method Transition(to: State, reason: Reason) returns (r: Reply)
      modifies this
      ensures View() == Move(old(View()), to, reason)
      ensures r == Last(View())
    {
      var event := Event(|events| + 1, state, to, reason);
      events := events + [event];
      state := Some(to);
      r := Moved(event);
    }

    method RefuseWith(guard: Guard) returns (r: Reply)
      modifies this
      ensures View() == Refuse(old(View()), guard)
      ensures r == Refused(guard)
    {
      refusals := refusals + [guard];
      r := Refused(guard);
    }
  }

  // ----- the log language -----

  /** The states entered, in order. */
  function Word(m: Machine): seq<State> {
    seq(|m.events|, i requires 0 <= i < |m.events| => m.events[i].to)
  }

  const PATH := [Prepared, Armed, CommitAttempted]

  /** The nine words a log can spell. */
  predicate Spelled(w: seq<State>) {
    w <= PATH
    || w == PATH + [Verified] || w == PATH + [Disproven]
    || (exists k :: 1 <= k <= 3 && w == PATH[..k] + [Indeterminate])
  }

  predicate Chained(events: seq<Event>, i: nat)
    requires i < |events|
  {
    events[i].sequence == i + 1 && events[i].from == if i == 0 then None else Some(events[i - 1].to)
  }

  predicate WellFormed(m: Machine) {
    Spelled(Word(m))
    && (forall i :: 0 <= i < |m.events| ==> Chained(m.events, i))
    && m.state == (if m.events == [] then None else Some(m.events[|m.events| - 1].to))
    && (m.characterization.Some? <==> m.state == Some(Disproven))
    && (m.indeterminateReason.Some? <==> m.state == Some(Indeterminate))
  }

  lemma WordMove(m: Machine, to: State, reason: Reason)
    ensures Word(Move(m, to, reason)) == Word(m) + [to]
  {
  }

  /** In a well-formed machine the state tells the word up to the last step. */
  lemma StateTellsWord(m: Machine)
    requires WellFormed(m)
    ensures m.state == None ==> Word(m) == []
    ensures m.state == Some(Prepared) ==> Word(m) == PATH[..1]
    ensures m.state == Some(Armed) ==> Word(m) == PATH[..2]
    ensures m.state == Some(CommitAttempted) ==> Word(m) == PATH
    ensures m.state == Some(Verified) ==> Word(m) == PATH + [Verified]
    ensures m.state == Some(Disproven) ==> Word(m) == PATH + [Disproven]
    ensures m.state == Some(Indeterminate) ==> exists k :: 1 <= k <= 3 && Word(m) == PATH[..k] + [Indeterminate]
  {
    var w := Word(m);
    assert w != [] ==> m.state == Some(w[|w| - 1]);
    if w <= PATH {
      assert w == PATH[..|w|];
    }
  }

  lemma StepWellFormed(m: Machine, call: Call)
    requires WellFormed(m)
    ensures WellFormed(Step(m, call).0)
  {
    StateTellsWord(m);
    var n := Step(m, call).0;
    EachCallIsAccounted(m, call);
    if Step(m, call).1.Refused? {
      assert n == Refuse(m, Step(m, call).1.guard);
      assert n.events == m.events && Word(n) == Word(m);
    } else {
      var to := n.state.get;
      forall i | 0 <= i < |n.events| ensures Chained(n.events, i) {
        assert i < |m.events| ==> Chained(m.events, i);
      }
      assert Word(n) == Word(m) + [to];
      if to.Prepared? || to.Armed? || to.CommitAttempted? {
        assert Word(n) == PATH[..|Word(n)|];
      } else if to.Indeterminate? {
        assert Word(n) == PATH[..|Word(m)|] + [Indeterminate];
      }
    }
  }

  /** Every log over every sequence of calls, refused ones included, is numbered, chained and spelled this way. */
  lemma {:induction false} RunWellFormed(m: Machine, calls: seq<Call>)
    requires WellFormed(m)
    ensures WellFormed(Run(m, calls))
    decreases calls
  {
    if calls != [] {
      StepWellFormed(m, calls[0]);
      RunWellFormed(Step(m, calls[0]).0, calls[1..]);
    }
  }

  lemma FreshRuns(calls: seq<Call>)
    ensures WellFormed(Run(FRESH, calls))
  {
    RunWellFormed(FRESH, calls);
  }

  /** A resolution is only ever reached by prepare, arm and one commit, in that order. */
  lemma ResolutionMeansCommitted(calls: seq<Call>)
    ensures var m := Run(FRESH, calls);
      (m.state == Some(Verified) ==> Word(m) == [Prepared, Armed, CommitAttempted, Verified])
      && (m.state == Some(Disproven) ==> Word(m) == [Prepared, Armed, CommitAttempted, Disproven])
      && (forall i, j :: 0 <= i < j < |m.events| ==> m.events[i].to != m.events[j].to)
  {
    FreshRuns(calls);
    var m := Run(FRESH, calls);
    StateTellsWord(m);
    var w := Word(m);
    assert forall i, j :: 0 <= i < j < |w| ==> w[i] != w[j];
    forall i, j | 0 <= i < j < |m.events| ensures m.events[i].to != m.events[j].to {
      assert w[i] == m.events[i].to && w[j] == m.events[j].to;
    }
  }

  /** Conversely, each of those words is the log of some run. */
  lemma EverySpelledWordIsReached(w: seq<State>)
    requires Spelled(w)
    ensures exists calls :: Word(Run(FRESH, calls)) == w
  {
    hide Step, Run, Word;
    if w <= PATH {
      assert w == PATH[..|w|];
      RunPrefix(|w|);
    } else if w == PATH + [Verified] {
      ThenLast(3, Resolve(true, true, "", ""), Verified);
    } else if w == PATH + [Disproven] {
      ThenLast(3, Resolve(false, true, "", ""), Disproven);
    } else {
      var k :| 1 <= k <= 3 && w == PATH[..k] + [Indeterminate];
      ThenLast(k, MarkIndeterminate(""), Indeterminate);
    }
  }

  /** From a live state the last call adds the last word. */
  lemma ThenLast(k: nat, last: Call, to: State)
    requires 1 <= k <= 3
    requires
      || (k == 3 && last == Resolve(true, true, "", "") && to == Verified)
      || (k == 3 && last == Resolve(false, true, "", "") && to == Disproven)
      || (last == MarkIndeterminate("") && to == Indeterminate)
    ensures Word(Run(FRESH, OK_CALLS[..k] + [last])) == PATH[..k] + [to]
  {
    RunPrefix(k);
    RunAppend(FRESH, OK_CALLS[..k], last);
    var m := Run(FRESH, OK_CALLS[..k]);
    hide Run;
    assert exists reason :: Step(m, last).0.events == Move(m, to, reason).events by {
      var reason := if last.MarkIndeterminate? then Given("") else Canonical;
      assert Step(m, last).0.events == Move(m, to, reason).events;
    }
    hide Step;
    var reason :| Step(m, last).0.events == Move(m, to, reason).events;
    WordMove(m, to, reason);
    assert Word(Step(m, last).0) == Word(Move(m, to, reason));
  }

  const OK_CALLS := [Prepare(true, true, true, true, ""), Arm(""), Commit(true, "")]

  lemma RunPrefix(n: nat)
    requires n <= 3
    ensures var m := Run(FRESH, OK_CALLS[..n]);
      Word(m) == PATH[..n] && m.state == if n == 0 then None else Some(PATH[n - 1])
  {
    if n > 0 {
      RunPrefix(n - 1);
      RunAppend(FRESH, OK_CALLS[..n - 1], OK_CALLS[n - 1]);
      assert OK_CALLS[..n] == OK_CALLS[..n - 1] + [OK_CALLS[n - 1]];
      assert PATH[..n] == PATH[..n - 1] + [PATH[n - 1]];
      WordMove(Run(FRESH, OK_CALLS[..n - 1]), PATH[n - 1], Canonical);
    }
  }

  lemma {:induction false} RunAppend(m: Machine, calls: seq<Call>, last: Call)
    ensures Run(m, calls + [last]) == Step(Run(m, calls), last).0
    decreases calls
  {
    if calls != [] {
      RunAppend(Step(m, calls[0]).0, calls[1..], last);
      assert (calls + [last])[1..] == calls[1..] + [last];
    } else {
      assert (calls + [last])[1..] == [];
    }
  }

  /** Terminal states absorb: whatever is called, the log, the state and the recorded reasons stay. */
  lemma {:induction false} TerminalAbsorbs(m: Machine, calls: seq<Call>)
    requires m.state.Some? && Terminal(m.state.get)
    ensures
      var n := Run(m, calls);
      n.state == m.state && n.events == m.events && n.characterization == m.characterization
      && n.indeterminateReason == m.indeterminateReason && |n.refusals| == |m.refusals| + |calls|
    decreases calls
  {
    if calls != [] {
      TerminalAbsorbs(Step(m, calls[0]).0, calls[1..]);
    }
  }

  /** Which calls move the machine, and where to; every other call is refused, but for the hard stop. */
  lemma MovesExactly(m: Machine, call: Call)
    ensures
      var (n, r) := Step(m, call);
      var live := m.state == Some(Prepared) || m.state == Some(Armed) || m.state == Some(CommitAttempted);
      && (r.Moved? <==>
        match call
        case Prepare(oracle, lease, context, recovery, _) => m.state == None && oracle && lease && context && recovery
        case Arm(_) => m.state == Some(Prepared)
        case Commit(declared, _) => declared && m.state == Some(Armed)
        case Resolve(_, _, _, _) => m.state == Some(CommitAttempted)
        case MarkIndeterminate(_) => live)
      && (r.HardStop? <==> call.Commit? && !call.declared && live)
      && (r.Moved? ==>
        match call
        case Prepare(_, _, _, _, _) => n.state == Some(Prepared)
        case Arm(_) => n.state == Some(Armed)
        case Commit(_, _) => n.state == Some(CommitAttempted)
        case Resolve(satisfied, reproduced, _, _) =>
          && (n.state == Some(Disproven) <==> !satisfied)
          && (n.state == Some(Verified) <==> satisfied && reproduced)
          && (n.state == Some(Indeterminate) <==> satisfied && !reproduced)
        case MarkIndeterminate(_) => n.state == Some(Indeterminate))
  {
  }

  /** Each event says where the machine was, where it went, and why; an empty reason leaves the machine its own wording. */
  lemma EventsSay(m: Machine, call: Call)
    requires Step(m, call).1.Moved?
    ensures
      var (n, r) := Step(m, call);
      && r.event.from == m.state && Some(r.event.to) == n.state && r.event.sequence == |m.events| + 1 && n.events == m.events + [r.event]
      && (call.MarkIndeterminate? || call.reason != "" ==> r.event.reason == Given(call.reason))
      && (!call.MarkIndeterminate? && call.reason == "" ==> r.event.reason == Canonical)
      && (n.state == Some(Disproven) ==> n.characterization == Some(call.characterization))
      && (n.state == Some(Indeterminate) ==> n.indeterminateReason == Some(r.event.reason))
  {
  }

  /** The guard a refusal names: a terminal or repeated state, a missing precondition, or the wrong state. */
  lemma RefusalsSay(m: Machine, call: Call)
    requires Step(m, call).1.Refused?
    ensures
      var (n, r) := Step(m, call);
      && (r.guard == GuardPrepare <==> call.Prepare? && m.state == None)
      && (r.guard == GuardTerminal ==> m.state == Some(Verified) || m.state == Some(Disproven) || m.state == Some(Indeterminate))
      && (call.MarkIndeterminate? ==> (r.guard == GuardTerminal <==> m.state != None))
      && (call.Resolve? ==> r.guard == GuardState)
      && (call.Arm? ==> (r.guard == GuardReplay <==> m.state != None && m.state != Some(Armed)))
      && (call.Commit? && call.declared ==>
        (r.guard == GuardReplay <==> m.state == Some(Verified) || m.state == Some(Disproven) || m.state == Some(Indeterminate)))
      && n.refusals == m.refusals + [r.guard] && n.events == m.events && n.state == m.state
  {
  }

  /** Each call adds one event or one refusal; only the hard stop adds one of each. */
  lemma EachCallIsAccounted(m: Machine, call: Call)
    ensures
      var (n, r) := Step(m, call);
      var events, refusals := |n.events| - |m.events|, |n.refusals| - |m.refusals|;
      (r.Moved? ==> events == 1 && refusals == 0 && r.event == n.events[|m.events|])
      && (r.Refused? ==> n == Refuse(m, r.guard))
      && (r.HardStop? ==> events == 1 && refusals == 1 && n.state == Some(Indeterminate))
      && (r.HardStop? <==> call.Commit? && !call.declared && m.state.Some? && !Terminal(m.state.get))
  {
  }
}
