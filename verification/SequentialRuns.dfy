/**
 * infrastructure/consumer_registry.py: a whole call of process_pending_events is a run
 * of one publisher among many, so what holds of every interleaving holds of it.
 */
module SequentialRuns {
  import opened Wrappers
  import opened TimeFormat
  import opened Outbox
  import opened Dispatch
  import P = Publishers
  import opened PublisherLoop
  import R = Retries
  import FB = FaultBoundary

  /** Publisher p stands at place (at, reg) of its batch, over this store. */
  predicate Stands(w: P.World, p: nat, store: Store, batch: seq<EventId>, at: nat, reg: nat) {
    w.store == store && P.PublisherAt(w, p) == P.Working(batch, at, reg)
  }

  /** The steps are publisher p's own. */
  predicate OnlyBy(steps: seq<P.Step>, p: nat) {
    forall k :: 0 <= k < |steps| ==> !steps[k].Emit? && !steps[k].Crash? && steps[k].p == p
  }

  /** The ids claimed along the way, in order. */
  function ClaimedIn(steps: seq<P.Step>): seq<EventId> {
    if steps == [] then []
    else (if steps[0].Claim? then steps[0].ids else []) + ClaimedIn(steps[1..])
  }

  lemma {:induction false} ClaimedConcat(a: seq<P.Step>, b: seq<P.Step>)
    ensures ClaimedIn(a + b) == ClaimedIn(a) + ClaimedIn(b)
    decreases |a|
  {
    if a == [] {
      assert a + b == b;
    } else {
      assert (a + b)[0] == a[0] && (a + b)[1..] == a[1..] + b;
      ClaimedConcat(a[1..], b);
    }
  }

  /** A run put together from two. */
  lemma Join(w: P.World, cfg: P.Config, p: nat, a: seq<P.Step>, m: P.World, b: seq<P.Step>, last: P.World)
    returns (steps: seq<P.Step>)
    requires P.Runs(w, cfg, a, m) && P.Runs(m, cfg, b, last) && OnlyBy(a, p) && OnlyBy(b, p)
    ensures P.Runs(w, cfg, steps, last) && OnlyBy(steps, p) && ClaimedIn(steps) == ClaimedIn(a) + ClaimedIn(b)
  {
    R.RunsConcat(w, cfg, a, m, b, last);
    ClaimedConcat(a, b);
    steps := a + b;
  }

  lemma One(w: P.World, cfg: P.Config, p: nat, s: P.Step, v: P.World) returns (steps: seq<P.Step>)
    requires P.Enabled(w, cfg, s) && v == P.Apply(w, cfg, s) && !s.Emit? && !s.Crash? && s.p == p
    ensures P.Runs(w, cfg, steps, v) && OnlyBy(steps, p) && ClaimedIn(steps) == if s.Claim? then s.ids else []
  {
    R.OneStep(w, cfg, s);
    steps := [s];
    assert steps[1..] == [];
  }

  lemma Stay(w: P.World, cfg: P.Config, p: nat) returns (steps: seq<P.Step>)
    ensures P.Runs(w, cfg, steps, w) && OnlyBy(steps, p) && ClaimedIn(steps) == []
  {
    steps := [];
  }

  /** One delivery is one attempt. */
  lemma DeliverIsAttempt(w: P.World, cfg: P.Config, p: nat, sys: System, lim: FB.Limits, batch: seq<EventId>,
                         at: nat, r: nat, now: Instant)
    returns (s: P.Step)
    requires Stands(w, p, sys.store, batch, at, r) && at < |batch| && batch[at] < |sys.store.events|
    requires r < |P.RegsOf(w, cfg, batch[at])|
    ensures P.Enabled(w, cfg, s) && s.Attempt? && s.p == p
    ensures Stands(P.Apply(w, cfg, s), p, Deliver(sys, lim, batch[at], P.RegsOf(w, cfg, batch[at])[r], now).0.store,
                   batch, at, r + 1)
    ensures P.RegsOf(P.Apply(w, cfg, s), cfg, batch[at]) == P.RegsOf(w, cfg, batch[at])
    ensures |P.Apply(w, cfg, s).runs|
         == |w.runs| + if Deliver(sys, lim, batch[at], P.RegsOf(w, cfg, batch[at])[r], now).1 == Ran then 1 else 0
  {
    var reg := P.RegsOf(w, cfg, batch[at])[r];
    s := P.Attempt(p, Invoke(sys.breakers, lim, reg, sys.store.rows, sys.store.events[batch[at]]).1, now);
    hide Invoke;
  }

  /** Dispatching the registrations from r on is a run to the last of them. */
  lemma {:induction false} DispatchRuns(w: P.World, cfg: P.Config, p: nat, sys: System, lim: FB.Limits,
                                        batch: seq<EventId>, at: nat, r: nat, now: Instant)
    returns (steps: seq<P.Step>, last: P.World)
    requires Stands(w, p, sys.store, batch, at, r) && at < |batch| && batch[at] < |sys.store.events|
    requires r <= |P.RegsOf(w, cfg, batch[at])|
    ensures P.Runs(w, cfg, steps, last) && OnlyBy(steps, p) && ClaimedIn(steps) == []
    ensures var regs := P.RegsOf(w, cfg, batch[at]);
            var (after, outcomes) := DispatchAll(sys, lim, batch[at], regs[r..], now);
            Stands(last, p, after.store, batch, at, |regs|) && |last.runs| == |w.runs| + CountRan(outcomes)
    decreases |P.RegsOf(w, cfg, batch[at])| - r
  {
    var id, regs := batch[at], P.RegsOf(w, cfg, batch[at]);
    if r == |regs| {
      last := w;
      steps := Stay(w, cfg, p);
      assert regs[r..] == [];
    } else {
      hide P.Apply;
      hide P.Enabled;
      hide P.Runs;
      hide Deliver;
      hide DispatchAll;
      hide OnlyBy;
      hide ClaimedIn;
      hide CountRan;
      hide Sound;
      var s := DeliverIsAttempt(w, cfg, p, sys, lim, batch, at, r, now);
      var v, next := P.Apply(w, cfg, s), Deliver(sys, lim, id, regs[r], now).0;
      DeliverGrows(sys, lim, id, regs[r], now);
      var rest;
      rest, last := DispatchRuns(v, cfg, p, next, lim, batch, at, r + 1, now);
      assert regs[r..] == [regs[r]] + regs[r + 1..];
      DispatchCons(sys, lim, id, regs[r], regs[r + 1..], now);
      steps := One(w, cfg, p, s, v);
      steps := Join(w, cfg, p, steps, v, rest, last);
    }
  }

  lemma NextEventStep(w: P.World, cfg: P.Config, p: nat, store: Store, batch: seq<EventId>, at: nat)
    requires at < |batch| && batch[at] < |store.events| && w.store == store
    requires Stands(w, p, store, batch, at, |P.RegsOf(w, cfg, batch[at])|)
    ensures P.Enabled(w, cfg, P.NextEvent(p)) && Stands(P.Apply(w, cfg, P.NextEvent(p)), p, store, batch, at + 1, 0)
    ensures P.Apply(w, cfg, P.NextEvent(p)).runs == w.runs
  {
  }

  /** Dispatching the events of the batch from place `at` on is a run to its end. */
  lemma {:induction false} BatchRuns(w: P.World, cfg: P.Config, p: nat, sys: System, settings: Settings, batch: seq<EventId>,
                                     at: nat, now: Instant)
    returns (steps: seq<P.Step>, last: P.World)
    requires Stands(w, p, sys.store, batch, at, 0) && at <= |batch| && Ids(sys.store.events, batch)
    ensures P.Runs(w, cfg, steps, last) && OnlyBy(steps, p) && ClaimedIn(steps) == []
    ensures Stands(last, p, DispatchBatch(sys, settings, cfg.registry, batch[at..], now).0.store, batch, |batch|, 0)
    ensures |last.runs| == |w.runs| + DispatchBatch(sys, settings, cfg.registry, batch[at..], now).1
    decreases |batch| - at
  {
    if at == |batch| {
      last := w;
      steps := Stay(w, cfg, p);
      assert batch[at..] == [];
    } else {
      var id := batch[at];
      var regs := P.RegsOf(w, cfg, id);
      var first, m := DispatchRuns(w, cfg, p, sys, settings.breakerLimits, batch, at, 0, now);
      assert regs[0..] == regs;
      var next := DispatchAll(sys, settings.breakerLimits, id, regs, now).0;
      assert P.RegsOf(m, cfg, id) == regs;
      NextEventStep(m, cfg, p, next.store, batch, at);
      BatchStep(sys, settings, cfg.registry, batch, at, now);
      hide DispatchAll;
      hide DispatchBatch;
      hide P.Apply;
      hide P.Enabled;
      var rest;
      var v := P.Apply(m, cfg, P.NextEvent(p));
      rest, last := BatchRuns(v, cfg, p, next, settings, batch, at + 1, now);
      var turn := One(m, cfg, p, P.NextEvent(p), v);
      first := Join(w, cfg, p, first, m, turn, v);
      steps := Join(w, cfg, p, first, v, rest, last);
    }
  }

  lemma ClaimStep(w: P.World, cfg: P.Config, p: nat, ids: seq<EventId>, limit: int, now: Instant, expires: Instant)
    requires P.PublisherAt(w, p).Idle? && IsBatch(w.store.events, now, limit, ids) && ids != []
    requires Plus(now, cfg.lease) == Some(expires)
    ensures P.Enabled(w, cfg, P.Claim(p, ids, limit, now))
    ensures Stands(P.Apply(w, cfg, P.Claim(p, ids, limit, now)), p,
                   w.store.(events := SetClaims(w.store.events, ids, now, expires)), ids, 0, 0)
    ensures P.Apply(w, cfg, P.Claim(p, ids, limit, now)).runs == w.runs
  {
    hide IsBatch;
  }

  lemma PublishStep(w: P.World, cfg: P.Config, p: nat, store: Store, batch: seq<EventId>, now: Instant)
    requires Stands(w, p, store, batch, |batch|, 0)
    ensures P.Enabled(w, cfg, P.Publish(p, now))
    ensures var v := P.Apply(w, cfg, P.Publish(p, now));
            v.store == store.(events := SetPublished(store.events, batch, now)) && P.PublisherAt(v, p).Idle? && v.runs == w.runs
  {
  }

  /** A round is a claim, the deliveries, and the publication. */
  lemma RoundRuns(w: P.World, cfg: P.Config, p: nat, sys: System, settings: Settings, ids: seq<EventId>, now: Instant,
                  expires: Instant)
    returns (steps: seq<P.Step>, last: P.World)
    requires P.PublisherAt(w, p).Idle? && w.store == sys.store && ids != []
    requires IsBatch(sys.store.events, now, settings.limit, ids) && Plus(now, cfg.lease) == Some(expires)
    ensures P.Runs(w, cfg, steps, last) && P.PublisherAt(last, p).Idle?
    ensures OnlyBy(steps, p) && ClaimedIn(steps) == ids
    ensures last.store == Round(sys, settings, cfg.registry, ids, now, expires).0.store
    ensures |last.runs| == |w.runs| + Round(sys, settings, cfg.registry, ids, now, expires).1
  {
    hide *;
    var claim := P.Claim(p, ids, settings.limit, now);
    ClaimStep(w, cfg, p, ids, settings.limit, now, expires);
    BatchIds(sys.store.events, now, settings.limit, ids);
    RoundIs(sys, settings, cfg.registry, ids, now, expires);
    var claimed, v := ClaimedSystem(sys, ids, now, expires), P.Apply(w, cfg, claim);
    assert ids[0..] == ids;
    var mid, m := BatchRuns(v, cfg, p, claimed, settings, ids, 0, now);
    AtEnd(m, p, DispatchBatch(claimed, settings, cfg.registry, ids, now).0.store, ids);
    PublishStep(m, cfg, p, m.store, ids, now);
    last := P.Apply(m, cfg, P.Publish(p, now));
    var start := One(w, cfg, p, claim, v);
    var end := One(m, cfg, p, P.Publish(p, now), last);
    steps := Join(w, cfg, p, start, v, mid, m);
    steps := Join(w, cfg, p, steps, m, end, last);
    assert ids + [] + [] == ids;
  }

  lemma BatchIds(events: seq<Event>, now: Instant, limit: int, ids: seq<EventId>)
    requires IsBatch(events, now, limit, ids)
    ensures Ids(events, ids)
  {
  }

  function ClaimedSystem(sys: System, ids: seq<EventId>, now: Instant, expires: Instant): System {
    WithEvents(sys, SetClaims(sys.store.events, ids, now, expires))
  }

  lemma RoundIs(sys: System, settings: Settings, registry: Registry, ids: seq<EventId>, now: Instant, expires: Instant)
    requires Ids(sys.store.events, ids)
    ensures Ids(ClaimedSystem(sys, ids, now, expires).store.events, ids)
    ensures ClaimedSystem(sys, ids, now, expires).store
         == sys.store.(events := SetClaims(sys.store.events, ids, now, expires))
    ensures var (done, ran) := DispatchBatch(ClaimedSystem(sys, ids, now, expires), settings, registry, ids, now);
            && Round(sys, settings, registry, ids, now, expires).0.store
               == done.store.(events := SetPublished(done.store.events, ids, now))
            && Round(sys, settings, registry, ids, now, expires).1 == ran
  {
    hide DispatchBatch;
  }

  lemma AtEnd(m: P.World, p: nat, store: Store, ids: seq<EventId>)
    requires Stands(m, p, store, ids, |ids|, 0)
    ensures m.store == store && Stands(m, p, m.store, ids, |ids|, 0)
  {
  }

  lemma TurnIsARound(sys: System, settings: Settings, registry: Registry, now: Instant)
    requires TakeTurn(sys, settings, registry, now).Handled?
    ensures var ids := TakeTurn(sys, settings, registry, now).ids;
            && ids != [] && IsBatch(sys.store.events, now, settings.limit, ids) && Plus(now, settings.lease).Some?
            && (TakeTurn(sys, settings, registry, now).next, TakeTurn(sys, settings, registry, now).ran)
               == Round(sys, settings, registry, ids, now, Plus(now, settings.lease).value)
  {
    ChosenIsBatch(settings.choose, sys.store.events, now, settings.limit);
    hide Round;
  }

  lemma PassUnfolds(sys: System, settings: Settings, registry: Registry, now: Instant, rounds: int)
    ensures var turn, pass := TakeTurn(sys, settings, registry, now), Process(sys, settings, registry, now, rounds);
            if rounds > 0 && turn.Handled? then
              var rest := Process(turn.next, settings, registry, now, rounds - 1);
              pass.sys == rest.sys && pass.claimed == turn.ids + rest.claimed && pass.ran == turn.ran + rest.ran
            else pass.sys == sys && pass.claimed == [] && pass.ran == 0
  {
    hide TakeTurn;
  }

  /**
   * A call of process_pending_events by an idle publisher is a run of that publisher
   * alone, which claims the same events in the same order and leaves the same database;
   * what the call counts is the handler runs it committed.
   */
  lemma {:induction false} PassIsARun(w: P.World, p: nat, sys: System, settings: Settings, registry: Registry, now: Instant,
                                      rounds: int)
    returns (steps: seq<P.Step>, last: P.World)
    requires P.PublisherAt(w, p).Idle? && w.store == sys.store
    ensures P.Runs(w, P.Config(registry, settings.lease), steps, last) && P.PublisherAt(last, p).Idle?
    ensures OnlyBy(steps, p) && ClaimedIn(steps) == Process(sys, settings, registry, now, rounds).claimed
    ensures last.store == Process(sys, settings, registry, now, rounds).sys.store
    ensures |last.runs| == |w.runs| + Process(sys, settings, registry, now, rounds).ran
    decreases rounds
  {
    hide TakeTurn;
    hide Process;
    hide IsBatch;
    hide Round;
    hide P.Runs;
    hide OnlyBy;
    hide ClaimedIn;
    var cfg, turn := P.Config(registry, settings.lease), TakeTurn(sys, settings, registry, now);
    PassUnfolds(sys, settings, registry, now, rounds);
    if rounds > 0 && turn.Handled? {
      TurnIsARound(sys, settings, registry, now);
      var first, m := RoundRuns(w, cfg, p, sys, settings, turn.ids, now, Plus(now, settings.lease).value);
      var rest;
      rest, last := PassIsARun(m, p, turn.next, settings, registry, now, rounds - 1);
      steps := Join(w, cfg, p, first, m, rest, last);
    } else {
      last := w;
      steps := Stay(w, cfg, p);
    }
  }

  /**
   * So every event a call claims, at whatever point of a run it is made, has had each
   * of its registrations take its turn when the call is over.
   */
  lemma ClaimedAreDelivered(start: P.World, before: seq<P.Step>, w: P.World, p: nat, sys: System, settings: Settings,
                            registry: Registry, now: Instant, rounds: int)
    returns (steps: seq<P.Step>, last: P.World)
    requires P.Start(start) && P.Runs(start, P.Config(registry, settings.lease), before, w)
    requires P.PublisherAt(w, p).Idle? && w.store == sys.store
    ensures P.Runs(w, P.Config(registry, settings.lease), steps, last)
    ensures var cfg, pass := P.Config(registry, settings.lease), Process(sys, settings, registry, now, rounds);
            && last.store == pass.sys.store
            && forall id, r :: id in pass.claimed && id < |last.store.events| && 0 <= r < |P.RegsOf(last, cfg, id)| ==>
                 P.Delivered(start, cfg, before + steps, id, r)
  {
    var cfg := P.Config(registry, settings.lease);
    steps, last := PassIsARun(w, p, sys, settings, registry, now, rounds);
    ProcessPublishesItsClaims(sys, settings, registry, now, rounds);
    R.RunsConcat(start, cfg, before, w, steps, last);
    hide P.Runs;
    hide P.Start;
    hide Process;
    P.EveryRunIsSafe(start, cfg, before + steps, last);
    var claimed := Process(sys, settings, registry, now, rounds).claimed;
    forall id, r | id in claimed && id < |last.store.events| && 0 <= r < |P.RegsOf(last, cfg, id)|
      ensures P.Delivered(start, cfg, before + steps, id, r)
    {
      assert P.PublishedWith(last, cfg, id, r);
    }
  }
}
