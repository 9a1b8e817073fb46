/**
 * infrastructure/consumer_registry.py: which consumers react to an event, one
 * transaction each, and the claim-dispatch-publish loop; with the wrapper of
 * infrastructure/plugin_registry.py around a plugin's handlers.
 */
module Dispatch {
  import opened Wrappers
  import opened TimeFormat
  import opened Outbox
  import FB = FaultBoundary

  /** A registration of a first-party consumer (no plugin) or of a plugin's handler. */
  datatype Registration = Registration(consumer: string, plugin: Option<string>, handler: Handler)

  type Registry = map<string, seq<Registration>>

  function RegistrationsFor(registry: Registry, kind: string): seq<Registration> {
    if kind in registry then registry[kind] else []
  }

  function Registered(registry: Registry, kind: string, reg: Registration): Registry {
    registry[kind := RegistrationsFor(registry, kind) + [reg]]
  }

  /** The registry after these registrations, from an empty one. */
  function AfterRegistering(calls: seq<(string, Registration)>): Registry {
    if calls == [] then map[]
    else
      var (kind, reg) := calls[|calls| - 1];
      Registered(AfterRegistering(calls[..|calls| - 1]), kind, reg)
  }

  /** Those of one kind, in order. */
  function OfKind(calls: seq<(string, Registration)>, kind: string): seq<Registration> {
    if calls == [] then []
    else
      var n := |calls| - 1;
      if calls[n].0 == kind then OfKind(calls[..n], kind) + [calls[n].1] else OfKind(calls[..n], kind)
  }

  /** An event reaches every consumer registered for its kind, in the order they were registered. */
  lemma {:induction false} RegisteredInOrder(calls: seq<(string, Registration)>, kind: string)
    ensures RegistrationsFor(AfterRegistering(calls), kind) == OfKind(calls, kind)
  {
    if calls != [] {
      RegisteredInOrder(calls[..|calls| - 1], kind);
    }
  }

  /** One circuit breaker per plugin, fresh until it is used. */
  type Breakers = map<string, FB.Breaker>

  function BreakerOf(b: Breakers, plugin: string): FB.Breaker {
    if plugin in b then b[plugin] else FB.FRESH
  }

  /** The database and, beside it, the memory no rollback touches. */
  datatype System = System(store: Store, breakers: Breakers)

  /**
   * What running a registration's (wrapped) handler does. A plugin's call goes
   * through its boundary at the event's own time, and any failure the boundary
   * reports is raised again so that the transaction rolls back.
   */
  function Invoke(b: Breakers, lim: FB.Limits, reg: Registration, rows: Rows, e: Event): (Breakers, Reaction) {
    match reg.plugin
    case None => (b, reg.handler(rows, e))
    case Some(p) =>
      var breaker := BreakerOf(b, p);
      if breaker.disabled then (b, Reaction(rows, [], true, false))
      else
        var r := reg.handler(rows, e);
        var conduct := FB.Conduct(r.raised, r.slow);
        (b[p := FB.AfterCall(breaker, lim, conduct, e.createdAt)], r.(raised := FB.Faulty(conduct)))
  }

  /** One registration's turn inside dispatch: consume_event, its exception caught. */
  function Deliver(sys: System, lim: FB.Limits, id: EventId, reg: Registration, now: Instant): (System, Outcome)
    requires id < |sys.store.events|
  {
    if (id, reg.consumer) in sys.store.marks then (sys, Absorbed)
    else
      var (b, r) := Invoke(sys.breakers, lim, reg, sys.store.rows, sys.store.events[id]);
      var (store, outcome) := Consume(sys.store, id, reg.consumer, (rows, e) => r, now);
      (System(store, b), outcome)
  }

  /** The plugin's breaker is disabled, so that its handler is not run at all. */
  predicate Off(sys: System, reg: Registration) {
    reg.plugin.Some? && BreakerOf(sys.breakers, reg.plugin.value).disabled
  }

  /** Wrapping: a disabled plugin's handler is not run, a slow one counts as failed, and failures are counted per plugin. */
  lemma InvokeCases(b: Breakers, lim: FB.Limits, reg: Registration, rows: Rows, e: Event)
    ensures var (after, r) := Invoke(b, lim, reg, rows, e);
            var q := reg.handler(rows, e);
            var off := reg.plugin.Some? && BreakerOf(b, reg.plugin.value).disabled;
            && (r.raised <==> off || q.raised || (reg.plugin.Some? && q.slow))
            && (!r.raised ==> r.rows == q.rows && r.emitted == q.emitted)
            && forall p: string :: BreakerOf(after, p) ==
                 if r.raised && reg.plugin == Some(p) && !off then FB.RecordFailure(BreakerOf(b, p), lim, e.createdAt)
                 else BreakerOf(b, p)
  {
    hide FB.RecordFailure;
  }

  lemma SameEffect(before: Store, after: Store, id: EventId, consumer: string, r: Reaction, q: Reaction, now: Instant)
    requires TakesEffect(before, after, id, consumer, r, now) && r.rows == q.rows && r.emitted == q.emitted
    ensures TakesEffect(before, after, id, consumer, q, now)
  {
  }

  /**
   * A consumer takes effect exactly when the pair is unmarked and its handler, a plugin's
   * within its time, ran to its end; only a plugin's own failure is counted against it.
   */
  lemma DeliverCases(sys: System, lim: FB.Limits, id: EventId, reg: Registration, now: Instant)
    requires id < |sys.store.events|
    ensures var (after, outcome) := Deliver(sys, lim, id, reg, now);
            var e := sys.store.events[id];
            var r := reg.handler(sys.store.rows, e);
            var fails := Off(sys, reg) || r.raised || (reg.plugin.Some? && r.slow);
            && (outcome == Absorbed <==> (id, reg.consumer) in sys.store.marks)
            && (outcome == Ran <==> (id, reg.consumer) !in sys.store.marks && !fails)
            && (if outcome == Ran then TakesEffect(sys.store, after.store, id, reg.consumer, r, now)
                else after.store == sys.store)
            && forall p: string :: BreakerOf(after.breakers, p) ==
                 if outcome == Failed && reg.plugin == Some(p) && !Off(sys, reg)
                 then FB.RecordFailure(BreakerOf(sys.breakers, p), lim, e.createdAt) else BreakerOf(sys.breakers, p)
  {
    var e := sys.store.events[id];
    var r := Invoke(sys.breakers, lim, reg, sys.store.rows, e).1;
    InvokeCases(sys.breakers, lim, reg, sys.store.rows, e);
    ConsumeCases(sys.store, id, reg.consumer, (rows, e) => r, now);
    hide Invoke;
    hide Consume;
    hide TakesEffect;
    hide BreakerOf;
    if Deliver(sys, lim, id, reg, now).1 == Ran {
      SameEffect(sys.store, Deliver(sys, lim, id, reg, now).0.store, id, reg.consumer, r, reg.handler(sys.store.rows, e), now);
    }
  }

  lemma DeliverGrows(sys: System, lim: FB.Limits, id: EventId, reg: Registration, now: Instant)
    requires id < |sys.store.events|
    ensures sys.store.events <= Deliver(sys, lim, id, reg, now).0.store.events
    ensures forall k :: k in sys.store.marks ==> k in Deliver(sys, lim, id, reg, now).0.store.marks
  {
  }

  function DispatchAll(sys: System, lim: FB.Limits, id: EventId, regs: seq<Registration>, now: Instant)
    : (r: (System, seq<Outcome>))
    requires id < |sys.store.events|
    ensures sys.store.events <= r.0.store.events
    ensures |r.1| == |regs|
    decreases |regs|
  {
    if regs == [] then (sys, [])
    else
      DeliverGrows(sys, lim, id, regs[0], now);
      var (next, first) := Deliver(sys, lim, id, regs[0], now);
      var (last, rest) := DispatchAll(next, lim, id, regs[1..], now);
      (last, [first] + rest)
  }

  function CountRan(outcomes: seq<Outcome>): nat {
    if outcomes == [] then 0 else (if outcomes[0] == Ran then 1 else 0) + CountRan(outcomes[1..])
  }

  // ------------------------------------------------ a failing consumer is invisible

  /** The registrations whose turn did not fail. */
  function Sound(regs: seq<Registration>, outcomes: seq<Outcome>): seq<Registration>
    requires |regs| == |outcomes|
  {
    if regs == [] then []
    else if outcomes[0] == Failed then Sound(regs[1..], outcomes[1..])
    else [regs[0]] + Sound(regs[1..], outcomes[1..])
  }

  /** Every plugin disabled in `b` is disabled in `c`. */
  ghost predicate NoStricter(b: Breakers, c: Breakers) {
    forall p :: BreakerOf(b, p).disabled ==> BreakerOf(c, p).disabled
  }

  /** What one delivery does to the two systems that differ only in their breakers. */
  lemma DeliverAgrees(a: System, b: System, lim: FB.Limits, id: EventId, reg: Registration, now: Instant)
    requires id < |a.store.events| && a.store == b.store && NoStricter(a.breakers, b.breakers)
    ensures var (b', outcome) := Deliver(b, lim, id, reg, now);
            && NoStricter(a.breakers, b'.breakers)
            && (outcome == Failed ==> b'.store == b.store)
            && (outcome != Failed ==> Deliver(a, lim, id, reg, now).0.store == b'.store
                                      && Deliver(a, lim, id, reg, now).1 == outcome
                                      && NoStricter(Deliver(a, lim, id, reg, now).0.breakers, b'.breakers))
  {
  }

  /**
   * A failing consumer is invisible: the database after dispatch (rows, emitted
   * events and marks) is the database after dispatching only the registrations
   * that did not fail, and none of those fails on its own either. Plugins are
   * included although their failure counters have moved.
   */
  lemma {:induction false} FailureIsInvisible(a: System, b: System, lim: FB.Limits, id: EventId,
                                              regs: seq<Registration>, now: Instant)
    requires id < |a.store.events| && a.store == b.store && NoStricter(a.breakers, b.breakers)
    ensures var (after, outcomes) := DispatchAll(b, lim, id, regs, now);
            var (alone, kept) := DispatchAll(a, lim, id, Sound(regs, outcomes), now);
            alone.store == after.store && Failed !in kept && CountRan(kept) == CountRan(outcomes)
    decreases |regs|
  {
    if regs != [] {
      var reg, rest := regs[0], regs[1..];
      assert regs == [reg] + rest;
      DeliverAgrees(a, b, lim, id, reg, now);
      DispatchCons(b, lim, id, reg, rest, now);
      var (b', first) := Deliver(b, lim, id, reg, now);
      if first == Failed {
        FailureIsInvisible(a, b', lim, id, rest, now);
      } else {
        var a' := Deliver(a, lim, id, reg, now).0;
        FailureIsInvisible(a', b', lim, id, rest, now);
        DispatchCons(a, lim, id, reg, Sound(rest, DispatchAll(b', lim, id, rest, now).1), now);
      }
    }
  }

  lemma DispatchCons(sys: System, lim: FB.Limits, id: EventId, reg: Registration, rest: seq<Registration>, now: Instant)
    requires id < |sys.store.events|
    ensures id < |Deliver(sys, lim, id, reg, now).0.store.events|
    ensures var (next, first) := Deliver(sys, lim, id, reg, now);
            var (last, outcomes) := DispatchAll(next, lim, id, rest, now);
            && DispatchAll(sys, lim, id, [reg] + rest, now) == (last, [first] + outcomes)
            && ([first] + outcomes)[1..] == outcomes
            && Sound([reg] + rest, [first] + outcomes)
               == (if first == Failed then Sound(rest, outcomes) else [reg] + Sound(rest, outcomes))
            && CountRan([first] + outcomes) == (if first == Ran then 1 else 0) + CountRan(outcomes)
  {
  }

  /** One after the other: dispatching a list is dispatching its first part and then the rest. */
  lemma {:induction false} DispatchInOrder(sys: System, lim: FB.Limits, id: EventId, a: seq<Registration>,
                                           b: seq<Registration>, now: Instant)
    requires id < |sys.store.events|
    ensures var (mid, first) := DispatchAll(sys, lim, id, a, now);
            var (last, second) := DispatchAll(mid, lim, id, b, now);
            DispatchAll(sys, lim, id, a + b, now) == (last, first + second)
    decreases |a|
  {
    hide Deliver;
    hide Sound;
    hide CountRan;
    if a == [] {
      assert a + b == b && [] + DispatchAll(sys, lim, id, b, now).1 == DispatchAll(sys, lim, id, b, now).1;
    } else {
      DeliverGrows(sys, lim, id, a[0], now);
      hide DispatchAll;
      DispatchCons(sys, lim, id, a[0], a[1..] + b, now);
      DispatchCons(sys, lim, id, a[0], a[1..], now);
      assert a + b == [a[0]] + (a[1..] + b) && a == [a[0]] + a[1..];
      var (next, head) := Deliver(sys, lim, id, a[0], now);
      DispatchInOrder(next, lim, id, a[1..], b, now);
      var (mid, tail) := DispatchAll(next, lim, id, a[1..], now);
      assert [head] + (tail + DispatchAll(mid, lim, id, b, now).1) == [head] + tail + DispatchAll(mid, lim, id, b, now).1;
    }
  }

  /** The same statement for one system against itself. */
  lemma FailedRegistrationsLeaveNoTrace(sys: System, lim: FB.Limits, id: EventId, regs: seq<Registration>, now: Instant)
    requires id < |sys.store.events|
    ensures var (after, outcomes) := DispatchAll(sys, lim, id, regs, now);
            DispatchAll(sys, lim, id, Sound(regs, outcomes), now).0.store == after.store
  {
    FailureIsInvisible(sys, sys, lim, id, regs, now);
  }

  /** Every registration is attempted: afterwards each one is marked, or it failed in its turn. */
  lemma {:induction false} EveryRegistrationAttempted(sys: System, lim: FB.Limits, id: EventId,
                                                      regs: seq<Registration>, now: Instant, i: nat)
    requires id < |sys.store.events| && i < |regs|
    ensures var (after, outcomes) := DispatchAll(sys, lim, id, regs, now);
            outcomes[i] == Failed || (id, regs[i].consumer) in after.store.marks
    decreases |regs|
  {
    DeliverGrows(sys, lim, id, regs[0], now);
    var next := Deliver(sys, lim, id, regs[0], now).0;
    if i == 0 {
      MarksKept(next, lim, id, regs[1..], now);
    } else {
      EveryRegistrationAttempted(next, lim, id, regs[1..], now, i - 1);
    }
  }

  lemma {:induction false} MarksKept(sys: System, lim: FB.Limits, id: EventId, regs: seq<Registration>, now: Instant)
    requires id < |sys.store.events|
    ensures forall k :: k in sys.store.marks ==>
              k in DispatchAll(sys, lim, id, regs, now).0.store.marks
    decreases |regs|
  {
    if regs != [] {
      DeliverGrows(sys, lim, id, regs[0], now);
      MarksKept(Deliver(sys, lim, id, regs[0], now).0, lim, id, regs[1..], now);
    }
  }

  /** Dispatching an event again right away runs nothing that has taken effect already. */
  lemma {:induction false} RedeliveryAbsorbed(sys: System, lim: FB.Limits, id: EventId, regs: seq<Registration>, now: Instant)
    requires id < |sys.store.events|
    requires forall i :: 0 <= i < |regs| ==> (id, regs[i].consumer) in sys.store.marks
    ensures DispatchAll(sys, lim, id, regs, now).0 == sys
    ensures CountRan(DispatchAll(sys, lim, id, regs, now).1) == 0
    decreases |regs|
  {
    if regs != [] {
      RedeliveryAbsorbed(sys, lim, id, regs[1..], now);
      DispatchCons(sys, lim, id, regs[0], regs[1..], now);
      assert regs == [regs[0]] + regs[1..];
    }
  }

  class ConsumerRegistry {
    var registrations: Registry
    var breakers: Breakers
    const breakerLimits: FB.Limits

    constructor (lim: FB.Limits)
      ensures registrations == map[] && breakers == map[] && breakerLimits == lim
    {
      registrations, breakers, breakerLimits := map[], map[], lim;
    }

    function SystemWith(db: OutboxDatabase): System
      reads this, db
    {
      System(db.State(), breakers)
    }

    method Register(kind: string, reg: Registration)
      modifies this
      ensures registrations == Registered(old(registrations), kind, reg)
      ensures breakers == old(breakers)
    {
      registrations := registrations[kind := RegistrationsFor(registrations, kind) + [reg]];
    }

    method Dispatch(db: OutboxDatabase, id: EventId, now: Instant) returns (ran: nat)
      requires id < |db.events|
      modifies this, db
      ensures registrations == old(registrations) && old(db.events) <= db.events
      ensures var (after, outcomes) := DispatchAll(old(SystemWith(db)), breakerLimits, id,
                                          RegistrationsFor(registrations, old(db.events)[id].kind), now);
              SystemWith(db) == after && ran == CountRan(outcomes)
    {
      var regs := RegistrationsFor(registrations, db.events[id].kind);
      ghost var start := SystemWith(db);
      ran := 0;
      for i := 0 to |regs|
        invariant registrations == old(registrations) && old(db.events) <= db.events
        invariant var (after, outcomes) := DispatchAll(start, breakerLimits, id, regs, now);
                  var (last, rest) := DispatchAll(SystemWith(db), breakerLimits, id, regs[i..], now);
                  after == last && CountRan(outcomes) == ran + CountRan(rest)
      {
        assert regs[i..][1..] == regs[i + 1..];
        ghost var here := SystemWith(db);
        DeliverGrows(here, breakerLimits, id, regs[i], now);
        var (afterCall, reaction) := Invoke(breakers, breakerLimits, regs[i], db.rows, db.events[id]);
        var outcome := db.ConsumeEvent(id, regs[i].consumer, (rows, e) => reaction, now);
        if outcome != Absorbed {
          breakers := afterCall; // the boundary's memory survives the rollback
        }
        assert SystemWith(db) == Deliver(here, breakerLimits, id, regs[i], now).0;
        if outcome == Ran {
          ran := ran + 1;
        }
      }
      assert regs[|regs|..] == [];
    }
  }
}
