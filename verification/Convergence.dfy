/** Polling to a stable state, freezing it, asserting it, and reproducing it. */
module Convergence {
  import opened Options
  import opened Values
  import opened Predicates
  import opened Envelopes
  import Footprint

  const MAX_CONVERGE_POLLS := 10000

  datatype Cause = PollBound | WindowExpired | FrozenFailed | FrozenUnclear | NotReproduced | NoCause

  datatype ConvergenceResult = ConvergenceResult(
    status: Status,
    cause: Cause,
    assertion: Option<Assertion>,
    polls: nat,
    reproduced: nat,
    frozen: Option<Facts>,
    observed: nat)   // how many times the observer was called

  // `obs(i)` is the i-th observation; `ticks(0)` is the clock at the start and `ticks(n)` the reading
  // taken after the n-th poll.

  /** After `n` polls the last two observations are equal on every normalized key. */
  predicate Stable(e: Envelope, obs: nat -> Facts, n: nat) {
    n >= 2 && SameFrozen(e, obs(n - 1), obs(n - 2))
  }

  predicate Expired(e: Envelope, ticks: nat -> real, n: nat) {
    n >= MAX_CONVERGE_POLLS || ticks(n) + e.convergence.poll > ticks(0) + e.convergence.window
  }

  /** `n` polls are taken: the first number after which the loop has a reason to stop. */
  predicate StopsAt(e: Envelope, obs: nat -> Facts, ticks: nat -> real, n: nat) {
    n >= 1 && (Stable(e, obs, n) || Expired(e, ticks, n))
    && forall j: nat :: 1 <= j < n ==> !Stable(e, obs, j) && !Expired(e, ticks, j)
  }

  /** The first `m` observations after the frozen one reproduce it. */
  predicate Reproduces(e: Envelope, obs: nat -> Facts, n: nat, m: nat)
    requires n >= 1
  {
    forall j: nat :: n <= j < n + m ==> SameFrozen(e, obs(j), obs(n - 1))
  }

  ghost function FrozenVerdict(e: Envelope, pre: Facts, categories: map<string, string>, obs: nat -> Facts, n: nat): Option<Status>
    requires n >= 1
  {
    Verdict(e, pre, obs(n - 1), categories)
  }

  ghost predicate Converged(e: Envelope, pre: Facts, categories: map<string, string>, obs: nat -> Facts, ticks: nat -> real,
                            r: ConvergenceResult)
  {
    var n := r.polls;
    StopsAt(e, obs, ticks, n)
    && r.observed == n + r.reproduced
    && (!Stable(e, obs, n) ==>
      r.status == StIndeterminate && r.reproduced == 0 && r.frozen == None && r.assertion == None
      && r.cause == if n >= MAX_CONVERGE_POLLS then PollBound else WindowExpired)
    && (Stable(e, obs, n) ==>
      r.frozen == Some(Normalized(e, obs(n - 1)))
      && r.assertion.Some? && IsAssertion(r.assertion.get, e, pre, obs(n - 1), categories)
      && (FrozenVerdict(e, pre, categories, obs, n) == Some(StDisproven) ==>
        r.status == StDisproven && r.reproduced == 0 && r.cause == FrozenFailed)
      && (FrozenVerdict(e, pre, categories, obs, n) == Some(StIndeterminate) ==>
        r.status == StIndeterminate && r.reproduced == 0 && r.cause == FrozenUnclear)
      && (FrozenVerdict(e, pre, categories, obs, n) == Some(StSatisfied) ==>
        if Reproduces(e, obs, n, e.convergence.reproduce) then
          r.status == StSatisfied && r.reproduced == e.convergence.reproduce && r.cause == NoCause
        else
          r.status == StIndeterminate && r.cause == NotReproduced && 1 <= r.reproduced <= e.convergence.reproduce
          && Reproduces(e, obs, n, r.reproduced - 1) && !Reproduces(e, obs, n, r.reproduced)))
  }

  /** `None` when asserting the frozen state raises; the caller sees that exception. */
  method Converge(e: Envelope, pre: Facts, categories: map<string, string>, obs: nat -> Facts, ticks: nat -> real)
    returns (r: Option<ConvergenceResult>)
    ensures r.Some? ==> Converged(e, pre, categories, obs, ticks, r.get)
    ensures r.None? ==> exists n: nat :: StopsAt(e, obs, ticks, n) && Stable(e, obs, n) && FrozenVerdict(e, pre, categories, obs, n) == None
  {
    hide SameFrozen, Verdict, IsAssertion, Normalized;
    var calls: nat := 0;
    var previous: Option<Facts> := None;
    var observation: Facts := map[];
    while true
      invariant calls <= MAX_CONVERGE_POLLS
      invariant previous == if calls == 0 then None else Some(obs(calls - 1))
      invariant forall j: nat :: 1 <= j <= calls ==> !Stable(e, obs, j) && !Expired(e, ticks, j)
      decreases MAX_CONVERGE_POLLS - calls
    {
      observation := obs(calls);
      calls := calls + 1;
      if previous.Some? && SameFrozen(e, observation, previous.get) {
        break;
      }
      previous := Some(observation);
      if calls >= MAX_CONVERGE_POLLS || ticks(calls) + e.convergence.poll > ticks(0) + e.convergence.window {
        var cause := if calls >= MAX_CONVERGE_POLLS then PollBound else WindowExpired;
        return Some(ConvergenceResult(StIndeterminate, cause, None, calls, 0, None, calls));
      }
    }
    var polls := calls;
    assert StopsAt(e, obs, ticks, polls);
    var assertion := AssertEnvelope(e, pre, observation, categories);
    if assertion.None? {
      assert FrozenVerdict(e, pre, categories, obs, polls) == None;
      return None;
    }
    StatusIsVerdict(assertion.get, e, pre, observation, categories);
    var frozen := Some(Normalized(e, observation));
    if assertion.get.status == StDisproven {
      return Some(ConvergenceResult(StDisproven, FrozenFailed, assertion, polls, 0, frozen, calls));
    }
    if assertion.get.status == StIndeterminate {
      return Some(ConvergenceResult(StIndeterminate, FrozenUnclear, assertion, polls, 0, frozen, calls));
    }
    for index := 0 to e.convergence.reproduce
      invariant calls == polls + index
      invariant Reproduces(e, obs, polls, index)
    {
      var reproduction := obs(calls);
      calls := calls + 1;
      if !SameFrozen(e, reproduction, observation) {
        assert !Reproduces(e, obs, polls, index + 1) && !Reproduces(e, obs, polls, e.convergence.reproduce);
        return Some(ConvergenceResult(StIndeterminate, NotReproduced, assertion, polls, index + 1, frozen, calls));
      }
    }
    r := Some(ConvergenceResult(StSatisfied, NoCause, assertion, polls, e.convergence.reproduce, frozen, calls));
  }

  lemma {:induction false} StatusIsVerdict(a: Assertion, e: Envelope, pre: Facts, post: Facts, categories: map<string, string>)
    requires IsAssertion(a, e, pre, post, categories)
    ensures Verdict(e, pre, post, categories) == Some(a.status)
  {
    hide Verdict, IsDelta;
  }

  // ----- what the outcome means -----

  lemma {:induction false} VerdictIsOneOfThree(e: Envelope, pre: Facts, categories: map<string, string>, obs: nat -> Facts, r: ConvergenceResult)
    requires r.polls >= 1 && r.assertion.Some?
    requires IsAssertion(r.assertion.get, e, pre, obs(r.polls - 1), categories)
    ensures var v := FrozenVerdict(e, pre, categories, obs, r.polls);
      v == Some(StSatisfied) || v == Some(StDisproven) || v == Some(StIndeterminate)
  {
    hide Verdict, IsAssertion;
    var st := r.assertion.get.status;
    StatusIsVerdict(r.assertion.get, e, pre, obs(r.polls - 1), categories);
    assert st == StSatisfied || st == StDisproven || st == StIndeterminate;
  }

  lemma StopsOnce(e: Envelope, obs: nat -> Facts, ticks: nat -> real, m: nat, n: nat)
    requires StopsAt(e, obs, ticks, m) && StopsAt(e, obs, ticks, n)
    ensures m == n
  {
    hide Stable, Expired;
  }

  /** Two results of polling the same observations are the same result: the description leaves nothing open. */
  lemma {:induction false} OutcomeDetermined(e: Envelope, pre: Facts, categories: map<string, string>, obs: nat -> Facts, ticks: nat -> real,
                                             r: ConvergenceResult, s: ConvergenceResult)
    requires Converged(e, pre, categories, obs, ticks, r) && Converged(e, pre, categories, obs, ticks, s)
    ensures r == s
  {
    hide Reproduces, Verdict, Normalized, SameFrozen, IsAssertion, StopsAt, Stable;
    assert StopsAt(e, obs, ticks, r.polls) && StopsAt(e, obs, ticks, s.polls);
    StopsOnce(e, obs, ticks, r.polls, s.polls);
    assert r.polls >= 1 by { StopsAfterOne(e, obs, ticks, r.polls); }
    if Stable(e, obs, r.polls) {
      AssertionUnique(r.assertion.get, s.assertion.get, e, pre, obs(r.polls - 1), categories);
      VerdictIsOneOfThree(e, pre, categories, obs, r);
      if r.cause == NotReproduced && s.cause == NotReproduced {
        FirstFailure(e, obs, r.polls, r.reproduced, s.reproduced);
        FirstFailure(e, obs, r.polls, s.reproduced, r.reproduced);
      }
    }
  }

  lemma StopsAfterOne(e: Envelope, obs: nat -> Facts, ticks: nat -> real, n: nat)
    requires StopsAt(e, obs, ticks, n)
    ensures n >= 1
  {
  }

  /** The first reproduction that fails does not come after one that fails. */
  lemma FirstFailure(e: Envelope, obs: nat -> Facts, n: nat, i: nat, j: nat)
    requires n >= 1 && i >= 1 && Reproduces(e, obs, n, i - 1) && !Reproduces(e, obs, n, j)
    ensures i <= j
  {
    hide SameFrozen;
  }

  /** Satisfied exactly when the first stable state satisfies the envelope and every further observation reproduces it. */
  lemma {:induction false} SatisfiedMeans(e: Envelope, pre: Facts, categories: map<string, string>, obs: nat -> Facts, ticks: nat -> real,
                                          r: ConvergenceResult)
    requires Converged(e, pre, categories, obs, ticks, r)
    ensures r.status == StSatisfied <==>
      Stable(e, obs, r.polls)
      && FrozenVerdict(e, pre, categories, obs, r.polls) == Some(StSatisfied)
      && Reproduces(e, obs, r.polls, e.convergence.reproduce)
  {
    hide Reproduces, Verdict, Normalized, SameFrozen, IsAssertion, Expired;
    assert r.polls >= 1;
    if r.assertion.Some? && Stable(e, obs, r.polls) {
      VerdictIsOneOfThree(e, pre, categories, obs, r);
    }
  }

  /** Disproven only from a frozen state that failed the assertion, so never from a timeout. */
  lemma DisprovenMeans(e: Envelope, pre: Facts, categories: map<string, string>, obs: nat -> Facts, ticks: nat -> real, r: ConvergenceResult)
    requires Converged(e, pre, categories, obs, ticks, r)
    ensures r.status == StDisproven <==>
      Stable(e, obs, r.polls) && FrozenVerdict(e, pre, categories, obs, r.polls) == Some(StDisproven)
    ensures r.cause == PollBound || r.cause == WindowExpired ==> r.status == StIndeterminate && r.frozen == None
  {
    hide Reproduces, Verdict, Normalized, SameFrozen, IsAssertion, Expired;
    assert r.polls >= 1;
    if r.assertion.Some? && Stable(e, obs, r.polls) {
      VerdictIsOneOfThree(e, pre, categories, obs, r);
    }
  }

  /** A clock that only the sleeps between polls advance, each by the poll interval. */
  ghost predicate IdealClock(e: Envelope, ticks: nat -> real) {
    forall i: nat :: i >= 1 ==> ticks(i) == ticks(0) + (i - 1) as real * e.convergence.poll
  }

  lemma TickAt(e: Envelope, ticks: nat -> real, n: nat)
    requires IdealClock(e, ticks) && n >= 1
    ensures ticks(n) == ticks(0) + (n - 1) as real * e.convergence.poll
  {
  }

  /** How many polls begin within the window, one at every interval. */
  function Fit(poll: real, window: real): int
    requires poll > 0.0
  {
    (window / poll).Floor + 1
  }

  /** When every sleep advances the clock by the poll interval, the window bounds the number of polls. */
  lemma PollsBounded(e: Envelope, obs: nat -> Facts, ticks: nat -> real, n: nat)
    requires e.convergence.poll > 0.0 && e.convergence.window > 0.0
    requires IdealClock(e, ticks)
    requires StopsAt(e, obs, ticks, n)
    ensures n <= MAX_CONVERGE_POLLS
    ensures n <= Fit(e.convergence.poll, e.convergence.window)
  {
    hide Stable;
    var poll, window := e.convergence.poll, e.convergence.window;
    var most: nat := MAX_CONVERGE_POLLS;
    assert n > most ==> !Expired(e, ticks, most);
    if n >= 2 {
      assert !Expired(e, ticks, n - 1);
      var k := (n - 1) as real;
      assert ticks(n - 1) == ticks(0) + (k - 1.0) * poll;
      assert k * poll <= window;
      assert k <= window / poll;
    }
  }

  ghost predicate NeverStable(e: Envelope, obs: nat -> Facts) {
    forall i: nat, j: nat :: j == i + 1 ==> !SameFrozen(e, obs(j), obs(i))
  }

  /** With such a clock, a run that never stabilizes takes exactly as many polls as fit, up to the bound. */
  lemma UnstablePollsExactly(e: Envelope, obs: nat -> Facts, ticks: nat -> real, n: nat)
    requires e.convergence.poll > 0.0 && e.convergence.window > 0.0
    requires IdealClock(e, ticks)
    requires NeverStable(e, obs)
    requires StopsAt(e, obs, ticks, n)
    ensures
      var fit := Fit(e.convergence.poll, e.convergence.window);
      n == if fit < 10000 then fit else 10000
  {
    PollsBounded(e, obs, ticks, n);
    UnstableFits(e, obs, ticks, n);
    hide StopsAt, NeverStable, IdealClock, Fit;
  }

  lemma UnstableFits(e: Envelope, obs: nat -> Facts, ticks: nat -> real, n: nat)
    requires e.convergence.poll > 0.0 && IdealClock(e, ticks) && NeverStable(e, obs) && StopsAt(e, obs, ticks, n)
    ensures n < 10000 ==> n >= Fit(e.convergence.poll, e.convergence.window)
  {
    hide Fit;
    UnstableExpires(e, obs, ticks, n);
    hide StopsAt, NeverStable, IdealClock, Overruns;
    if n < 10000 {
      FitsExactly(n, e.convergence.poll, e.convergence.window);
    }
  }

  /** The poll after the n-th would begin past the window. */
  predicate Overruns(n: nat, poll: real, window: real) {
    n >= 1 && (n - 1) as real * poll + poll > window
  }

  lemma UnstableExpires(e: Envelope, obs: nat -> Facts, ticks: nat -> real, n: nat)
    requires IdealClock(e, ticks)
    requires NeverStable(e, obs)
    requires StopsAt(e, obs, ticks, n)
    ensures n < 10000 ==> Overruns(n, e.convergence.poll, e.convergence.window)
  {
    assert n >= 2 ==> !SameFrozen(e, obs(n - 1), obs(n - 2));
    hide SameFrozen, IdealClock;
    assert n < 10000 ==> Expired(e, ticks, n);
    TickAt(e, ticks, n);
  }

  lemma FitsExactly(n: nat, poll: real, window: real)
    requires poll > 0.0 && Overruns(n, poll, window)
    ensures n >= Fit(poll, window)
  {
    assert (n - 1) as real * poll + poll == n as real * poll;
    assert n as real > window / poll;
  }

  /**
   Why a poll loop goes on and why it ends, on any clock: every poll but the first began within the window, an expiry is one on
   the clock, and the bound is ten thousand polls. What is frozen is the first observation equal to its predecessor.
   */
  lemma {:induction false} LoopMeans(e: Envelope, pre: Facts, categories: map<string, string>, obs: nat -> Facts, ticks: nat -> real,
                                     r: ConvergenceResult)
    requires Converged(e, pre, categories, obs, ticks, r)
    ensures 1 <= r.polls <= 10000 && r.observed == r.polls + r.reproduced
    ensures r.polls > 1 ==> ticks(r.polls - 1) + e.convergence.poll <= ticks(0) + e.convergence.window
    ensures r.cause == WindowExpired ==> ticks(r.polls) + e.convergence.poll > ticks(0) + e.convergence.window && r.polls < 10000
    ensures r.cause == PollBound ==> r.polls == 10000
    ensures forall i: nat, j: nat :: j == i + 1 && j + 1 < r.polls ==> !SameFrozen(e, obs(j), obs(i))
    ensures r.frozen.None? <==> r.cause == WindowExpired || r.cause == PollBound
    ensures r.frozen.None? ==>
      r.assertion == None && r.status == StIndeterminate && (r.polls >= 2 ==> !SameFrozen(e, obs(r.polls - 1), obs(r.polls - 2)))
    ensures r.frozen.Some? ==>
      r.polls >= 2 && SameFrozen(e, obs(r.polls - 1), obs(r.polls - 2)) && r.frozen == Some(Normalized(e, obs(r.polls - 1)))
  {
    hide SameFrozen, IsAssertion, Verdict, Normalized, Reproduces;
    StopsEarly(e, obs, ticks, r.polls);
    if Stable(e, obs, r.polls) {
      VerdictIsOneOfThree(e, pre, categories, obs, r);
    }
  }

  lemma StopsEarly(e: Envelope, obs: nat -> Facts, ticks: nat -> real, n: nat)
    requires StopsAt(e, obs, ticks, n)
    ensures 1 <= n <= 10000
    ensures forall i: nat, j: nat :: j == i + 1 && j + 1 < n ==> !SameFrozen(e, obs(j), obs(i))
    ensures n > 1 ==> ticks(n - 1) + e.convergence.poll <= ticks(0) + e.convergence.window
  {
    hide SameFrozen;
    var most: nat := 10000;
    assert n > most ==> !Expired(e, ticks, most);
    forall i: nat, j: nat | j == i + 1 && j + 1 < n ensures !SameFrozen(e, obs(j), obs(i)) {
      assert !Stable(e, obs, j + 1);
    }
    assert n > 1 ==> !Expired(e, ticks, n - 1);
  }

  /** Satisfied, in full: a stable observation that satisfies the envelope, and every further one freezing like it. */
  lemma {:induction false} SatisfiedInFull(e: Envelope, pre: Facts, categories: map<string, string>, obs: nat -> Facts, ticks: nat -> real,
                                           r: ConvergenceResult)
    requires Converged(e, pre, categories, obs, ticks, r)
    ensures r.status == StSatisfied <==>
      && r.polls >= 2 && SameFrozen(e, obs(r.polls - 1), obs(r.polls - 2))
      && Verdict(e, pre, obs(r.polls - 1), categories) == Some(StSatisfied)
      && forall j: nat :: r.polls <= j < r.polls + e.convergence.reproduce ==> SameFrozen(e, obs(j), obs(r.polls - 1))
    ensures r.status == StSatisfied ==> r.reproduced == e.convergence.reproduce && r.cause == NoCause
  {
    hide SameFrozen, IsAssertion, Verdict, Normalized, StopsAt;
    SatisfiedMeans(e, pre, categories, obs, ticks, r);
    assert r.polls >= 1 by { StopsAfterOne(e, obs, ticks, r.polls); }
  }

  /** A poll interval longer than the window never leaves room for a second observation. */
  lemma PollLongerThanWindow(e: Envelope, pre: Facts, categories: map<string, string>, obs: nat -> Facts, ticks: nat -> real, r: ConvergenceResult)
    requires Converged(e, pre, categories, obs, ticks, r)
    requires e.convergence.poll > e.convergence.window && ticks(1) >= ticks(0)
    ensures r.polls == 1 && r.observed == 1 && r.status == StIndeterminate && r.cause == WindowExpired
  {
    assert Expired(e, ticks, 1) && !Stable(e, obs, 1);
    hide SameFrozen, IsAssertion, Verdict, Normalized;
    assert r.polls == 1;
  }

  /** Every reproduction accepted by a satisfied run proves every clause of an envelope that observes all it reads again. */
  lemma {:induction false} ReproductionsReproveClauses(e: Envelope, pre: Facts, categories: map<string, string>, obs: nat -> Facts, ticks: nat -> real,
                                    r: ConvergenceResult, i: nat, c: Clause)
    requires Footprint.FullyObserved(e)
    requires Converged(e, pre, categories, obs, ticks, r) && r.status == StSatisfied
    requires i < e.convergence.reproduce && HasClause(e, c)
    ensures ClauseOutcome(e, pre, obs(r.polls + i), c) == Satisfied
  {
    hide ClauseOutcome, SameFrozen, Verdict, Converged, Differs, Covered, StopsAt, Footprint.FullyObserved;
    SatisfiedMeans(e, pre, categories, obs, ticks, r);
    SatisfiedExactly(e, pre, obs(r.polls - 1), categories);
    assert SameFrozen(e, obs(r.polls + i), obs(r.polls - 1));
    Footprint.FrozenStateDecidesClauses(e, pre, obs(r.polls + i), obs(r.polls - 1), c);
  }
}
