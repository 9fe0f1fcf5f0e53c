/**
 The request/response channel: one caller, client-side timeouts, and a bounded drain of the
 replies that earlier, timed-out requests left behind.
 */
module Transport {
  import opened Options

  /** A line the reader thread queues: a reply with its request number, or something that is no reply. */
  datatype Line<T> = Reply(id: nat, body: T) | NotJson | NotAnObject | Eof

  datatype Outcome<T> =
    | Answered(body: T)
    | BadBudget        // a ValueError, before anything is sent
    | StdinGone
    | TimedOut
    | Exited
    | Malformed
    | Desynced

  const MAX_STALE_DRAIN := 8

  /**
   The channel. `lines` holds every reply that is still to be read, in arrival order: the ones queued
   already and the ones the peer has yet to write. A request only sees those that arrive in time.
   */
  class SessionTransport<T> {
    var counter: nat
    var lines: seq<Line<T>>

    constructor ()
      ensures counter == 0 && lines == []
    {
      counter, lines := 0, [];
    }

    /**
     Send one request and wait for its reply. `written` is what the peer will write for it, `arriving` how many
     unread lines arrive before the deadline, `stdinOpen` whether the pipe to the peer takes the line.
     */
    method Request(budget: Option<real>, stdinOpen: bool, written: seq<Line<T>>, arriving: nat) returns (r: Outcome<T>)
      modifies this
      ensures budget.Some? && budget.get <= 0.0 ==> r == BadBudget && counter == old(counter) && lines == old(lines)
      ensures budget.None? || budget.get > 0.0 ==>
        counter == old(counter) + 1
        && if !stdinOpen then r == StdinGone && lines == old(lines)
        else (r, lines) == Await(old(lines) + written, counter, arriving, 0)
    {
      if budget.Some? && budget.get <= 0.0 {
        return BadBudget;
      }
      counter := counter + 1;
      var requestId := counter;
      if !stdinOpen {
        return StdinGone;
      }
      lines := lines + written;
      var drained := 0;
      var patience := arriving;
      while true
        invariant drained <= MAX_STALE_DRAIN
        invariant counter == old(counter) + 1 == requestId
        invariant Await(old(lines) + written, requestId, arriving, 0) == Await(lines, requestId, patience, drained)
        decreases patience
      {
        if patience == 0 || lines == [] {
          return TimedOut;
        }
        var raw := lines[0];
        lines := lines[1..];
        patience := patience - 1;
        match raw {
          case Eof => return Exited;
          case NotJson => return Malformed;
          case NotAnObject => return Malformed;
          case Reply(id, body) =>
            if id == requestId {
              return Answered(body);
            }
        }
        drained := drained + 1;
        if drained > MAX_STALE_DRAIN {
          return Desynced;
        }
      }
    }
  }

  /** Reading lines while waiting for the reply numbered `id`: how the wait ends, and what stays unread. */
  function Await<T>(lines: seq<Line<T>>, id: nat, arriving: nat, drained: nat): (Outcome<T>, seq<Line<T>>)
    decreases arriving
  {
    if arriving == 0 || lines == [] then (TimedOut, lines)
    else match lines[0]
      case Eof => (Exited, lines[1..])
      case NotJson => (Malformed, lines[1..])
      case NotAnObject => (Malformed, lines[1..])
      case Reply(k, body) =>
        if k == id then (Answered(body), lines[1..])
        else if drained + 1 > MAX_STALE_DRAIN then (Desynced, lines[1..])
        else Await(lines[1..], id, arriving - 1, drained + 1)
  }

  /** A reply, but not to request `id`. */
  predicate Stale<T>(line: Line<T>, id: nat) {
    line.Reply? && line.id != id
  }

  /**
   How a wait ends is decided by the first line that is no stale reply, if it comes after at most eight of those and in time;
   a ninth stale reply desynchronizes, and otherwise the wait times out. Nothing beyond the deciding line is read.
   */
  lemma {:induction false} AwaitExactly<T>(lines: seq<Line<T>>, id: nat, arriving: nat, k: nat)
    requires k <= |lines| && k <= arriving && forall i :: 0 <= i < k ==> Stale(lines[i], id)
    ensures k == 9 ==> Await(lines, id, arriving, 0) == (Desynced, lines[9..])
    ensures k <= 8 && (k == |lines| || k == arriving) ==> Await(lines, id, arriving, 0) == (TimedOut, lines[k..])
    ensures k <= 8 && k < |lines| && k < arriving && !Stale(lines[k], id) ==>
      Await(lines, id, arriving, 0) ==
        (match lines[k]
         case Reply(_, body) => Answered(body)
         case Eof => Exited
         case NotJson => Malformed
         case NotAnObject => Malformed,
         lines[k + 1..])
  {
    if k <= 8 {
      Drain(lines, id, arriving, 0, k);
      assert k < |lines| ==> lines[k..][0] == lines[k] && lines[k..][1..] == lines[k + 1..];
    } else if k == 9 {
      Drain(lines, id, arriving, 0, 8);
      assert lines[8..][0] == lines[8] && lines[8..][1..] == lines[9..];
    }
  }

  // ----- a peer that answers each line once, in order, with its id -----

  /** The unread lines are replies to requests up to `counter`, oldest first, each as the peer answered it. */
  ghost predicate Fifo<T>(lines: seq<Line<T>>, counter: nat, answers: nat -> T) {
    (forall i :: 0 <= i < |lines| ==> lines[i].Reply? && lines[i].id <= counter && lines[i].body == answers(lines[i].id))
    && (forall i, j :: 0 <= i < j < |lines| ==> lines[i].id < lines[j].id)
  }

  /** The state after a request to such a peer, whatever arrives in time. */
  function After<T>(lines: seq<Line<T>>, counter: nat, answers: nat -> T, arriving: nat): (Outcome<T>, seq<Line<T>>) {
    Await(lines + [Reply(counter + 1, answers(counter + 1))], counter + 1, arriving, 0)
  }

  lemma {:induction false} AwaitFifo<T>(lines: seq<Line<T>>, counter: nat, answers: nat -> T, arriving: nat, drained: nat)
    requires Fifo(lines, counter, answers)
    ensures
      var (r, rest) := Await(lines, counter, arriving, drained);
      Fifo(rest, counter, answers) && (r.Answered? ==> r.body == answers(counter) && rest == [])
    decreases arriving
  {
    if arriving > 0 && lines != [] {
      assert Fifo(lines[1..], counter, answers);
      assert |lines| > 1 ==> lines[0].id < lines[1].id <= counter;
      if lines[0].id != counter && drained + 1 <= MAX_STALE_DRAIN {
        AwaitFifo(lines[1..], counter, answers, arriving - 1, drained + 1);
      }
    }
  }

  /** With any timeout, a request is answered only with the reply to that very request, and then nothing stale is left. */
  lemma OneDelivery<T>(lines: seq<Line<T>>, counter: nat, answers: nat -> T, arriving: nat)
    requires Fifo(lines, counter, answers)
    ensures
      var (r, rest) := After(lines, counter, answers, arriving);
      Fifo(rest, counter + 1, answers) && (r.Answered? ==> r.body == answers(counter + 1) && rest == [])
  {
    var all := lines + [Reply(counter + 1, answers(counter + 1))];
    assert Fifo(all, counter + 1, answers);
    AwaitFifo(all, counter + 1, answers, arriving, 0);
  }

  /** Waiting through `k` stale lines, each of which arrives in time. */
  lemma {:induction false} Drain<T>(lines: seq<Line<T>>, id: nat, arriving: nat, drained: nat, k: nat)
    requires k <= |lines| && k <= arriving && drained + k <= MAX_STALE_DRAIN
    requires forall i :: 0 <= i < k ==> lines[i].Reply? && lines[i].id != id
    ensures Await(lines, id, arriving, drained) == Await(lines[k..], id, arriving - k, drained + k)
    decreases k
  {
    if k > 0 {
      Drain(lines[1..], id, arriving - 1, drained + 1, k - 1);
      assert lines[1..][k - 1..] == lines[k..];
    } else {
      assert lines[0..] == lines;
    }
  }

  /** With no timeout, a request over `m` stale replies succeeds exactly when `m <= 8`; otherwise it costs nine lines. */
  lemma OneRequest<T>(lines: seq<Line<T>>, counter: nat, answers: nat -> T, arriving: nat)
    requires Fifo(lines, counter, answers) && arriving > |lines|
    ensures
      var (r, rest) := After(lines, counter, answers, arriving);
      if |lines| <= 8 then r == Answered(answers(counter + 1)) && rest == [] else r == Desynced && |rest| == |lines| + 1 - 9
  {
    var m := |lines|;
    var all := lines + [Reply(counter + 1, answers(counter + 1))];
    if m <= MAX_STALE_DRAIN {
      Drain(all, counter + 1, arriving, 0, m);
      assert all[m..] == [Reply(counter + 1, answers(counter + 1))];
      assert all[m..][1..] == [];
    } else {
      Drain(all, counter + 1, arriving, 0, MAX_STALE_DRAIN);
      assert all[MAX_STALE_DRAIN..][1..] == all[MAX_STALE_DRAIN + 1..];
    }
  }

  /** The replies to `n` more requests, none of which times out. */
  function Requests<T>(lines: seq<Line<T>>, counter: nat, answers: nat -> T, n: nat): (seq<Outcome<T>>, seq<Line<T>>)
    decreases n
  {
    if n == 0 then ([], lines)
    else
      var (r, rest) := After(lines, counter, answers, |lines| + 1);
      var (rs, final) := Requests(rest, counter + 1, answers, n - 1);
      ([r] + rs, final)
  }

  /** How many requests fail before the channel is back in step: the ceiling of (m - 8) / 8, and none for m <= 8. */
  function Failures(m: nat): nat {
    if m <= MAX_STALE_DRAIN then 0 else (m - 1) / MAX_STALE_DRAIN
  }

  lemma FailuresIsCeiling(m: nat)
    ensures var k := Failures(m); m - 8 <= 8 * k && (k > 0 ==> m - 8 > 8 * (k - 1))
    ensures m > 8 ==> Failures(m) == 1 + Failures(m - 8)
  {
  }

  /** Bounded resynchronization: exactly that many desync errors, each costing nine lines, then success ever after. */
  lemma {:induction false} Resynchronizes<T>(lines: seq<Line<T>>, counter: nat, answers: nat -> T, n: nat)
    requires Fifo(lines, counter, answers)
    ensures
      var (rs, rest) := Requests(lines, counter, answers, n);
      |rs| == n
      && (forall i :: 0 <= i < n ==>
        rs[i] == if i < Failures(|lines|) then Desynced else Answered(answers(counter + 1 + i)))
      && |rest| == if n <= Failures(|lines|) then |lines| - 8 * n else 0
    decreases n
  {
    FailuresIsCeiling(|lines|);
    if n > 0 {
      OneRequest(lines, counter, answers, |lines| + 1);
      OneDelivery(lines, counter, answers, |lines| + 1);
      var (r, rest) := After(lines, counter, answers, |lines| + 1);
      FailuresIsCeiling(|rest|);
      Resynchronizes(rest, counter + 1, answers, n - 1);
    }
  }

  // ----- whole runs, with timeouts, refused requests and a peer that goes away -----

  /** One request of the caller: whether its line gets out, whether the peer lives to answer it, and how much arrives in time. */
  datatype Call = Call(budget: Option<real>, stdinOpen: bool, answered: bool, arriving: nat)

  datatype Channel<T> = Channel(lines: seq<Line<T>>, counter: nat, alive: bool)

  predicate Sent(call: Call) {
    (call.budget.Some? ==> call.budget.get > 0.0) && call.stdinOpen
  }

  /** What the peer writes for a line it is sent: its reply, the end of its output if it dies first, nothing once dead. */
  function Written<T>(c: Channel<T>, call: Call, answers: nat -> T): seq<Line<T>> {
    if !c.alive then [] else if call.answered then [Reply(c.counter + 1, answers(c.counter + 1))] else [Eof]
  }

  function Exchange<T>(c: Channel<T>, call: Call, answers: nat -> T): (Outcome<T>, Channel<T>) {
    if call.budget.Some? && call.budget.get <= 0.0 then (BadBudget, c)
    else if !call.stdinOpen then (StdinGone, c.(counter := c.counter + 1))
    else
      var (r, rest) := Await(c.lines + Written(c, call, answers), c.counter + 1, call.arriving, 0);
      (r, Channel(rest, c.counter + 1, c.alive && call.answered))
  }

  /** The number and the outcome of every call, and the channel afterwards. */
  function Run<T>(c: Channel<T>, calls: seq<Call>, answers: nat -> T): (seq<(nat, Outcome<T>)>, Channel<T>) {
    if calls == [] then ([], c)
    else
      var (rs, d) := Run(c, calls[..|calls| - 1], answers);
      var (r, e) := Exchange(d, calls[|calls| - 1], answers);
      (rs + [(e.counter, r)], e)
  }

  /** Replies to requests up to `counter`, oldest first, as the peer answered them; behind the last there may be the end. */
  ghost predicate InOrder<T>(lines: seq<Line<T>>, counter: nat, answers: nat -> T) {
    (forall i :: 0 <= i < |lines| ==>
      (lines[i].Reply? && lines[i].id <= counter && lines[i].body == answers(lines[i].id)) || (lines[i].Eof? && i == |lines| - 1))
    && (forall i, j :: 0 <= i < j < |lines| && lines[j].Reply? ==> lines[i].id < lines[j].id)
  }

  /** While the peer lives, its output has no end. */
  ghost predicate Sound<T>(c: Channel<T>, answers: nat -> T) {
    InOrder(c.lines, c.counter, answers) && (c.alive ==> Fifo(c.lines, c.counter, answers))
  }

  lemma {:induction false} AwaitInOrder<T>(lines: seq<Line<T>>, counter: nat, answers: nat -> T, arriving: nat, drained: nat)
    requires InOrder(lines, counter, answers)
    ensures
      var (r, rest) := Await(lines, counter, arriving, drained);
      InOrder(rest, counter, answers) && (r.Answered? ==> r.body == answers(counter)) && r != Malformed
    decreases arriving
  {
    if arriving > 0 && lines != [] {
      assert forall i :: 0 <= i < |lines| - 1 ==> lines[1..][i] == lines[i + 1];
      assert InOrder(lines[1..], counter, answers);
      if lines[0].Reply? && lines[0].id != counter && drained + 1 <= MAX_STALE_DRAIN {
        AwaitInOrder(lines[1..], counter, answers, arriving - 1, drained + 1);
      }
    }
  }

  lemma {:induction false} ExchangeKeepsSound<T>(c: Channel<T>, call: Call, answers: nat -> T)
    requires Sound(c, answers)
    ensures
      var (r, d) := Exchange(c, call, answers);
      && Sound(d, answers) && c.counter <= d.counter && (Sent(call) ==> d.counter == c.counter + 1)
      && (r.Answered? ==> Sent(call) && r.body == answers(d.counter)) && r != Malformed
  {
    if Sent(call) {
      var all := c.lines + Written(c, call, answers);
      assert InOrder(all, c.counter + 1, answers);
      AwaitInOrder(all, c.counter + 1, answers, call.arriving, 0);
      if c.alive && call.answered {
        assert Fifo(all, c.counter + 1, answers);
        AwaitFifo(all, c.counter + 1, answers, call.arriving, 0);
      }
    }
  }

  /**
   No misdelivery: over any run of calls on a fresh channel, whatever times out, is refused or finds the peer gone, a call is
   answered only with the peer's reply to that very call, and no two calls share a number.
   */
  lemma {:induction false} NoMisdelivery<T>(calls: seq<Call>, answers: nat -> T)
    ensures
      var (rs, c) := Run(Channel([], 0, true), calls, answers);
      && |rs| == |calls| && Sound(c, answers)
      && (forall i :: 0 <= i < |rs| ==> rs[i].0 <= c.counter && rs[i].1 != Malformed)
      && (forall i :: 0 <= i < |rs| && rs[i].1.Answered? ==> rs[i].1.body == answers(rs[i].0))
      && (forall i, j :: 0 <= i < j < |rs| && Sent(calls[j]) ==> rs[i].0 < rs[j].0)
  {
    if calls != [] {
      var n := |calls| - 1;
      NoMisdelivery(calls[..n], answers);
      var (rs, d) := Run(Channel([], 0, true), calls[..n], answers);
      ExchangeKeepsSound(d, calls[n], answers);
      hide Exchange, Sound, Sent;
      assert forall j :: 0 <= j < n ==> calls[..n][j] == calls[j];
    }
  }
}
