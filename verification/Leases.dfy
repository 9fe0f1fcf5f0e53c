/**
 The in-memory lease registry. Object identity is an issue number: two leases are the same
 object exactly when their numbers are equal, so an equal copy has another number.
 */
module Leases {
  import opened Options

  datatype Lease = Lease(id: nat, target: string, holder: string, acquiredAt: real, expiresAt: Option<real>)

  datatype Registry = Registry(leases: map<string, Lease>, issued: nat)

  const EMPTY := Registry(map[], 0)

  predicate Live(lease: Lease, now: real) {
    lease.expiresAt.None? || now < lease.expiresAt.get
  }

  predicate Registered(r: Registry, lease: Lease) {
    lease.target in r.leases && r.leases[lease.target].id == lease.id
  }

  predicate Active(r: Registry, lease: Lease, now: real) {
    Registered(r, lease) && Live(lease, now)
  }

  datatype AcquireReply = Acquired(lease: Lease) | Held(holder: string) | Invalid

  datatype Op =
    | Acquire(target: string, holder: string, ttl: Option<real>, probe: real, now: real)   // the two clock readings
    | Release(lease: Lease)

  datatype Reply = ReplyAcquire(a: AcquireReply) | ReplyRelease(ok: bool)

  function Step(r: Registry, op: Op): (Registry, Reply) {
    match op
    case Acquire(target, holder, ttl, probe, now) =>
      if target == "" || holder == "" || (ttl.Some? && ttl.get <= 0.0) then (r, ReplyAcquire(Invalid))
      else if target in r.leases && Live(r.leases[target], probe) then (r, ReplyAcquire(Held(r.leases[target].holder)))
      else
        var lease := Lease(r.issued, target, holder, now, if ttl.None? then None else Some(now + ttl.get));
        (Registry(r.leases[target := lease], r.issued + 1), ReplyAcquire(Acquired(lease)))
    case Release(lease) =>
      if Registered(r, lease) then (Registry(r.leases - {lease.target}, r.issued), ReplyRelease(true))
      else (r, ReplyRelease(false))
  }

  class LeaseRegistry {
    var leases: map<string, Lease>
    var issued: nat

    function View(): Registry
      reads this
    {
      Registry(leases, issued)
    }

    constructor ()
      ensures View() == EMPTY
    {
      leases, issued := map[], 0;
    }

    method Acquire(target: string, holder: string, ttl: Option<real>, probe: real, now: real) returns (r: AcquireReply)
      modifies this
      ensures (View(), ReplyAcquire(r)) == Step(old(View()), Op.Acquire(target, holder, ttl, probe, now))
    {
      if target == "" || holder == "" {
        return Invalid;
      }
      if ttl.Some? && ttl.get <= 0.0 {
        return Invalid;
      }
      if target in leases {
        var current := leases[target];
        if Live(current, probe) {
          return Held(current.holder);
        }
      }
      var lease := Lease(issued, target, holder, now, if ttl.None? then None else Some(now + ttl.get));
      leases := leases[target := lease];
      issued := issued + 1;
      r := Acquired(lease);
    }

    /** False for a lease the registry does not hold; nothing changes then. */
    method Release(lease: Lease) returns (ok: bool)
      modifies this
      ensures (View(), ReplyRelease(ok)) == Step(old(View()), Op.Release(lease))
    {
      if lease.target !in leases || leases[lease.target].id != lease.id {
        return false;
      }
      leases := leases - {lease.target};
      ok := true;
    }

    method HolderOf(target: string, now: real) returns (holder: Option<string>)
      ensures holder == if target in leases && Live(leases[target], now) then Some(leases[target].holder) else None
    {
      holder := None;
      if target in leases && Live(leases[target], now) {
        holder := Some(leases[target].holder);
      }
    }

    method IsActive(lease: Lease, now: real) returns (active: bool)
      ensures active == Active(View(), lease, now)
    {
      active := lease.target in leases && leases[lease.target].id == lease.id && Live(lease, now);
    }
  }

  // ----- runs under a monotone clock -----

  /** The clock never runs back: `start` precedes every reading of the run, in order. */
  predicate Monotone(start: real, ops: seq<Op>)
    decreases ops
  {
    ops == [] ||
    match ops[0]
    case Acquire(_, _, _, probe, now) => start <= probe <= now && Monotone(now, ops[1..])
    case Release(_) => Monotone(start, ops[1..])
  }

  function End(start: real, ops: seq<Op>): real
    decreases ops
  {
    if ops == [] then start
    else End(if ops[0].Acquire? then ops[0].now else start, ops[1..])
  }

  function Run(r: Registry, ops: seq<Op>): Registry
    decreases ops
  {
    if ops == [] then r else Run(Step(r, ops[0]).0, ops[1..])
  }

  predicate WellFormed(r: Registry) {
    forall t :: t in r.leases ==> r.leases[t].target == t && r.leases[t].id < r.issued
  }

  lemma {:induction false} RunWellFormed(r: Registry, ops: seq<Op>)
    requires WellFormed(r)
    ensures WellFormed(Run(r, ops)) && Run(r, ops).issued >= r.issued
    decreases ops
  {
    if ops != [] {
      RunWellFormed(Step(r, ops[0]).0, ops[1..]);
    }
  }

  /** Of all the leases a target ever had, at most one is active. */
  lemma AtMostOneActive(r: Registry, a: Lease, b: Lease, now: real)
    requires a.target == b.target && Active(r, a, now) && Active(r, b, now)
    ensures a.id == b.id
  {
  }

  /** A lease that was superseded or released stays so, and its release is refused, whatever follows. */
  lemma {:induction false} LostStaysLost(r: Registry, lease: Lease, ops: seq<Op>)
    requires WellFormed(r) && lease.id < r.issued && !Registered(r, lease)
    ensures !Registered(Run(r, ops), lease)
    ensures Step(Run(r, ops), Release(lease)) == (Run(r, ops), ReplyRelease(false))
    decreases ops
  {
    if ops != [] {
      LostStaysLost(Step(r, ops[0]).0, lease, ops[1..]);
    }
  }

  /** Once an issued lease is not active it never is again: neither the clock nor any caller can revive it. */
  lemma {:induction false} InactiveStaysInactive(r: Registry, lease: Lease, start: real, ops: seq<Op>)
    requires WellFormed(r) && lease.id < r.issued && Monotone(start, ops)
    requires !Active(r, lease, start)
    ensures !Active(Run(r, ops), lease, End(start, ops))
    decreases ops
  {
    if ops != [] {
      var then' := if ops[0].Acquire? then ops[0].now else start;
      InactiveStaysInactive(Step(r, ops[0]).0, lease, then', ops[1..]);
    }
  }

  /** Until its holder releases it, a lease without an expiry stays active, whoever else asks for its target. */
  lemma {:induction false} HeldStaysActive(r: Registry, lease: Lease, ops: seq<Op>, now: real)
    requires WellFormed(r) && Registered(r, lease) && r.leases[lease.target] == lease && lease.expiresAt.None?
    requires forall i :: 0 <= i < |ops| && ops[i].Release? ==> !(ops[i].lease.id == lease.id && ops[i].lease.target == lease.target)
    ensures Active(Run(r, ops), lease, now)
    decreases ops
  {
    if ops != [] {
      var next := Step(r, ops[0]).0;
      assert Registered(next, lease) && next.leases[lease.target] == lease;
      assert forall i :: 0 <= i < |ops| - 1 ==> ops[1..][i] == ops[i + 1];
      HeldStaysActive(next, lease, ops[1..], now);
    }
  }

  /** Acquiring is invalid exactly for an empty target or holder, or a time to live that is not positive, and then changes nothing. */
  lemma InvalidExactly(r: Registry, target: string, holder: string, ttl: Option<real>, probe: real, now: real)
    ensures var (n, reply) := Step(r, Acquire(target, holder, ttl, probe, now));
      && reply.ReplyAcquire?
      && (reply.a == Invalid <==> target == "" || holder == "" || (ttl.Some? && ttl.get <= 0.0))
      && (reply.a == Invalid ==> n == r)
      && (reply.a.Acquired? ==>
        && reply.a.lease.target == target && reply.a.lease.holder == holder && reply.a.lease.acquiredAt == now
        && reply.a.lease.expiresAt == (if ttl.None? then None else Some(now + ttl.get)) && n.leases == r.leases[target := reply.a.lease])
  {
  }

  /** A registered lease is active until, and not at, its expiry; without one it always is. */
  lemma ActiveMeans(r: Registry, lease: Lease, now: real)
    ensures Active(r, lease, now) <==>
      && lease.target in r.leases && r.leases[lease.target].id == lease.id
      && (lease.expiresAt == None || lease.expiresAt.get > now)
  {
  }

  /** A release succeeds exactly for the registered lease, which it alone takes away. */
  lemma ReleaseExactly(r: Registry, lease: Lease)
    ensures
      var (n, reply) := Step(r, Release(lease));
      var registered := lease.target in r.leases && r.leases[lease.target].id == lease.id;
      && reply == ReplyRelease(registered) && n.issued == r.issued
      && n.leases == if registered then r.leases - {lease.target} else r.leases
  {
  }

  /** Acquiring is refused exactly while the target has an active lease, and the refusal names its holder. */
  lemma AcquireRefusedExactly(r: Registry, target: string, holder: string, ttl: Option<real>, probe: real, now: real)
    requires WellFormed(r) && target != "" && holder != "" && (ttl.Some? ==> ttl.get > 0.0) && probe <= now
    ensures var (n, reply) := Step(r, Acquire(target, holder, ttl, probe, now));
      (reply.a.Held? <==> target in r.leases && Active(r, r.leases[target], probe))
      && (reply.a.Held? ==> n == r && reply.a.holder == r.leases[target].holder)
      && (!reply.a.Held? ==> reply.a.Acquired? && Active(n, reply.a.lease, now) && n.leases - {target} == r.leases - {target})
      && (!reply.a.Held? ==> forall l: Lease :: l.id < r.issued && l.target == target ==> !Registered(n, l))
  {
  }

  /** An expired lease nobody superseded is inactive, yet releasing it is still accepted. */
  lemma ExpiredLeaseCanStillBeReleased(holder: string, at: real, ttl: real)
    requires holder != "" && ttl > 0.0
    ensures
      var (r, reply) := Step(EMPTY, Acquire("t", holder, Some(ttl), at, at));
      reply.a.Acquired? && !Active(r, reply.a.lease, at + ttl) && Step(r, Release(reply.a.lease)).1 == ReplyRelease(true)
  {
  }
}
