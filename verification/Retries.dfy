/**
 * infrastructure/outbox.py and infrastructure/consumer_registry.py: what can still
 * happen to an event. From any state of the publishers, exactly when some further
 * run gives a consumer its effect, publishes the event, or touches a published row.
 */
module Retries {
  import opened Wrappers
  import opened TimeFormat
  import opened Outbox
  import opened Dispatch
  import opened Publishers

  // --------------------------------------------------------- what a caller can see

  /** Publisher `p` has event `id` at place i of its batch and has not passed registration r, named `name`. */
  predicate Ahead(w: World, cfg: Config, p: nat, i: nat, r: nat, id: EventId, name: string) {
    var pub := PublisherAt(w, p);
    && pub.Working? && pub.at <= i < |pub.batch| && pub.batch[i] == id && id < |w.store.events|
    && (i == pub.at ==> pub.reg <= r)
    && r < |RegsOf(w, cfg, id)| && RegsOf(w, cfg, id)[r].consumer == name
  }

  ghost predicate HeldAhead(w: World, cfg: Config, id: EventId, name: string) {
    exists p, i, r :: Ahead(w, cfg, p, i, r, id, name)
  }

  /** At `now` the row can be claimed, and the lease ends at a time that exists. */
  predicate ClaimFits(e: Event, lease: int, now: Instant) {
    Claimable(e, now) && Plus(now, lease).Some?
  }

  /** There is a time at which the row can be claimed. */
  ghost predicate Reclaimable(e: Event, lease: int) {
    exists now :: ClaimFits(e, lease, now)
  }

  ghost predicate Registered(w: World, cfg: Config, id: EventId, name: string)
    requires id < |w.store.events|
  {
    exists r :: 0 <= r < |RegsOf(w, cfg, id)| && RegsOf(w, cfg, id)[r].consumer == name
  }

  /** Some publisher still has the registration before it, or the event can be claimed again. */
  ghost predicate EffectAhead(w: World, cfg: Config, id: EventId, name: string)
    requires id < |w.store.events|
  {
    HeldAhead(w, cfg, id, name) || (Registered(w, cfg, id, name) && Reclaimable(w.store.events[id], cfg.lease))
  }

  ghost predicate CanReach(w: World, cfg: Config, goal: World -> bool) {
    exists steps, last :: Runs(w, cfg, steps, last) && goal(last)
  }

  function Marked(id: EventId, name: string): World -> bool {
    (w: World) => (id, name) in w.store.marks
  }

  function Published(id: EventId): World -> bool {
    (w: World) => id < |w.store.events| && w.store.events[id].publishedAt.Some?
  }

  function RowDiffers(id: EventId, e: Event): World -> bool {
    (w: World) => id < |w.store.events| && w.store.events[id] != e
  }

  /** With a lease that is not negative: until when a row can be claimed, in closed form. */
  lemma ReclaimableIff(e: Event, lease: int)
    requires lease >= 0
    ensures Reclaimable(e, lease) <==>
            && e.publishedAt.None?
            && match e.claimedAt {
                 case None => lease < SECONDS * MICROS_PER_SECOND
                 case Some(_) =>
                   e.claimExpires.Some?
                   && Second(e.claimExpires.value) * MICROS_PER_SECOND + lease < SECONDS * MICROS_PER_SECOND
               }
  {
    if e.publishedAt.None? && e.claimedAt.None? && lease < SECONDS * MICROS_PER_SECOND {
      assert ClaimFits(e, lease, 0);
    }
    if e.publishedAt.None? && e.claimedAt.Some? && e.claimExpires.Some? {
      var whole := Second(e.claimExpires.value) * MICROS_PER_SECOND;
      assert Whole(whole) && Second(whole) == Second(e.claimExpires.value);
      if whole + lease < SECONDS * MICROS_PER_SECOND {
        assert ClaimFits(e, lease, whole);
      }
    }
  }

  // ------------------------------------------------------------ what closes for good

  lemma SameRegistrations(w: World, cfg: Config, s: Step, id: EventId)
    requires Enabled(w, cfg, s) && id < |w.store.events|
    ensures id < |Apply(w, cfg, s).store.events| && RegsOf(Apply(w, cfg, s), cfg, id) == RegsOf(w, cfg, id)
  {
    StepGrows(w, cfg, s);
  }

  /** A claim of the event needs it to be reclaimable. */
  lemma ClaimNeedsReclaimable(w: World, cfg: Config, s: Step, id: EventId)
    requires Enabled(w, cfg, s) && s.Claim? && id in s.ids && id < |w.store.events|
    ensures Reclaimable(w.store.events[id], cfg.lease)
  {
    assert ClaimFits(w.store.events[id], cfg.lease, s.now);
  }

  /** Apart from a claim of the event and a publication by a holder, its row stays. */
  lemma RowStays(w: World, cfg: Config, s: Step, id: EventId)
    requires Enabled(w, cfg, s) && id < |w.store.events|
    requires s.Claim? ==> id !in s.ids
    requires s.Publish? ==> id !in PublisherAt(w, s.p).batch
    ensures id < |Apply(w, cfg, s).store.events| && Apply(w, cfg, s).store.events[id] == w.store.events[id]
  {
    hide IsBatch;
  }

  lemma NotReclaimableStays(w: World, cfg: Config, s: Step, id: EventId)
    requires Enabled(w, cfg, s) && id < |w.store.events| && !Reclaimable(w.store.events[id], cfg.lease)
    ensures id < |Apply(w, cfg, s).store.events| && !Reclaimable(Apply(w, cfg, s).store.events[id], cfg.lease)
  {
    StepGrows(w, cfg, s);
    if s.Claim? && id in s.ids {
      ClaimNeedsReclaimable(w, cfg, s, id);
    } else if s.Publish? && id in PublisherAt(w, s.p).batch {
      assert Apply(w, cfg, s).store.events[id].publishedAt.Some?;
    } else {
      RowStays(w, cfg, s, id);
    }
  }

  /** Publishers only move on: what lies ahead of one after a step lay ahead before, or was claimed by it. */
  lemma AheadCameFrom(w: World, cfg: Config, s: Step, p: nat, i: nat, r: nat, id: EventId, name: string)
    requires Enabled(w, cfg, s) && id < |w.store.events|
    requires Ahead(Apply(w, cfg, s), cfg, p, i, r, id, name)
    ensures Ahead(w, cfg, p, i, r, id, name)
            || (s.Claim? && id in s.ids && Registered(w, cfg, id, name) && Reclaimable(w.store.events[id], cfg.lease))
  {
    hide IsBatch;
    SameRegistrations(w, cfg, s, id);
    assert RegsOf(w, cfg, id)[r].consumer == name;
    if s.Claim? && p == s.p && s.ids != [] {
      assert s.ids[i] in s.ids;
      ClaimNeedsReclaimable(w, cfg, s, id);
    }
  }

  lemma NoEffectOutOfReach(w: World, cfg: Config, s: Step, id: EventId, name: string)
    requires Enabled(w, cfg, s) && id < |w.store.events|
    requires (id, name) !in w.store.marks && !HeldAhead(w, cfg, id, name)
    ensures (id, name) !in Apply(w, cfg, s).store.marks
  {
    hide IsBatch;
    if s.Attempt? {
      var pub := PublisherAt(w, s.p);
      assert !Ahead(w, cfg, s.p, pub.at, pub.reg, id, name);
    }
  }

  /** Without the condition no step brings it back, and none gives the effect. */
  lemma NoWayBack(w: World, cfg: Config, s: Step, id: EventId, name: string)
    requires Enabled(w, cfg, s) && id < |w.store.events|
    requires (id, name) !in w.store.marks && !EffectAhead(w, cfg, id, name)
    ensures id < |Apply(w, cfg, s).store.events|
    ensures (id, name) !in Apply(w, cfg, s).store.marks && !EffectAhead(Apply(w, cfg, s), cfg, id, name)
  {
    NoEffectOutOfReach(w, cfg, s, id, name);
    SameRegistrations(w, cfg, s, id);
    if !Reclaimable(w.store.events[id], cfg.lease) {
      NotReclaimableStays(w, cfg, s, id);
    }
    var v := Apply(w, cfg, s);
    hide Apply;
    hide Enabled;
    if HeldAhead(v, cfg, id, name) {
      var p, i, r :| Ahead(v, cfg, p, i, r, id, name);
      AheadCameFrom(w, cfg, s, p, i, r, id, name);
    }
  }

  lemma {:induction false} NoRunBack(w: World, cfg: Config, steps: seq<Step>, last: World, id: EventId, name: string)
    requires Runs(w, cfg, steps, last) && id < |w.store.events|
    requires (id, name) !in w.store.marks && !EffectAhead(w, cfg, id, name)
    ensures (id, name) !in last.store.marks
    decreases |steps|
  {
    hide EffectAhead;
    hide Apply;
    hide Enabled;
    if steps != [] {
      NoWayBack(w, cfg, steps[0], id, name);
      NoRunBack(Apply(w, cfg, steps[0]), cfg, steps[1..], last, id, name);
    }
  }

  // -------------------------------------------------------------- runs that get there

  lemma {:induction false} RunsConcat(w: World, cfg: Config, a: seq<Step>, m: World, b: seq<Step>, last: World)
    requires Runs(w, cfg, a, m) && Runs(m, cfg, b, last)
    ensures Runs(w, cfg, a + b, last)
    decreases |a|
  {
    hide Apply;
    hide Enabled;
    if a == [] {
      assert a + b == b;
    } else {
      RunsConcat(Apply(w, cfg, a[0]), cfg, a[1..], m, b, last);
      assert (a + b)[0] == a[0] && (a + b)[1..] == a[1..] + b;
    }
  }

  lemma OneStep(w: World, cfg: Config, s: Step)
    requires Enabled(w, cfg, s)
    ensures Runs(w, cfg, [s], Apply(w, cfg, s))
  {
    assert [s][1..] == [];
  }

  /** A publisher at a place of a batch of real events. */
  predicate OnTrack(w: World, cfg: Config, p: nat) {
    var pub := PublisherAt(w, p);
    pub.Working? && Ids(w.store.events, pub.batch) && pub.at <= |pub.batch|
    && (pub.at < |pub.batch| ==> pub.reg <= |RegsOf(w, cfg, pub.batch[pub.at])|)
  }

  /** Place (i, r) of its batch is not behind the publisher. */
  predicate Reaches(w: World, cfg: Config, p: nat, i: nat, r: nat)
    requires OnTrack(w, cfg, p)
  {
    var pub := PublisherAt(w, p);
    && pub.at <= i <= |pub.batch| && (i == pub.at && i < |pub.batch| ==> pub.reg <= r)
    && (if i < |pub.batch| then r <= |RegsOf(w, cfg, pub.batch[i])| else true)
  }

  function NextStep(w: World, cfg: Config, p: nat): Step
    requires OnTrack(w, cfg, p) && PublisherAt(w, p).at < |PublisherAt(w, p).batch|
  {
    var pub := PublisherAt(w, p);
    if pub.reg < |RegsOf(w, cfg, pub.batch[pub.at])| then Attempt(p, Reaction(w.store.rows, [], true, false), 0)
    else NextEvent(p)
  }

  /** One step on, every handler raising: the store stays. */
  lemma StepOn(w: World, cfg: Config, p: nat)
    requires OnTrack(w, cfg, p) && PublisherAt(w, p).at < |PublisherAt(w, p).batch|
    ensures var s, pub := NextStep(w, cfg, p), PublisherAt(w, p);
            && Enabled(w, cfg, s) && Apply(w, cfg, s).store == w.store
            && OnTrack(Apply(w, cfg, s), cfg, p)
            && PublisherAt(Apply(w, cfg, s), p)
               == (if pub.reg < |RegsOf(w, cfg, pub.batch[pub.at])| then pub.(reg := pub.reg + 1)
                   else Working(pub.batch, pub.at + 1, 0))
  {
  }

  /** A publisher can be brought to any place of its batch it has not passed, and nothing else happens. */
  lemma {:induction false} Advance(w: World, cfg: Config, p: nat, i: nat, r: nat) returns (steps: seq<Step>, last: World)
    requires OnTrack(w, cfg, p) && Reaches(w, cfg, p, i, r)
    ensures Runs(w, cfg, steps, last) && last.store == w.store
    ensures PublisherAt(last, p).Working? && PublisherAt(last, p).batch == PublisherAt(w, p).batch
    ensures PublisherAt(last, p).at == i && (i < |PublisherAt(w, p).batch| ==> PublisherAt(last, p).reg == r)
    decreases i - PublisherAt(w, p).at,
              if PublisherAt(w, p).at == i then r - PublisherAt(w, p).reg
              else |RegsOf(w, cfg, PublisherAt(w, p).batch[PublisherAt(w, p).at])| - PublisherAt(w, p).reg
  {
    var pub := PublisherAt(w, p);
    if pub.at == i && (i == |pub.batch| || pub.reg == r) {
      steps, last := [], w;
    } else {
      StepOn(w, cfg, p);
      var s := NextStep(w, cfg, p);
      var v := Apply(w, cfg, s);
      OneStep(w, cfg, s);
      hide Apply;
      hide Enabled;
      var rest;
      rest, last := Advance(v, cfg, p, i, r);
      steps := [s] + rest;
      RunsConcat(w, cfg, [s], v, rest, last);
    }
  }

  lemma WorkingIsOnTrack(w: World, cfg: Config, p: nat)
    requires Inv(w, cfg) && PublisherAt(w, p).Working?
    ensures OnTrack(w, cfg, p)
  {
    assert PublisherSound(w, cfg, PublisherAt(w, p));
  }

  /** A process that just claimed the event, others being where they were. */
  lemma Reclaim(w: World, cfg: Config, id: EventId) returns (steps: seq<Step>, v: World, i: nat)
    requires id < |w.store.events| && Reclaimable(w.store.events[id], cfg.lease)
    ensures Runs(w, cfg, steps, v) && v.store.marks == w.store.marks
    ensures OnTrack(v, cfg, 0) && PublisherAt(v, 0).at == 0 && PublisherAt(v, 0).reg == 0
    ensures i < |PublisherAt(v, 0).batch| && PublisherAt(v, 0).batch[i] == id
    ensures |v.store.events| == |w.store.events| && RegsOf(v, cfg, id) == RegsOf(w, cfg, id)
  {
    var now :| ClaimFits(w.store.events[id], cfg.lease, now);
    var idle := Apply(w, cfg, Crash(0));
    var ids := Select(w.store.events, now, -1);
    SelectIsBatch(w.store.events, now, -1);
    assert id in ids;
    i :| 0 <= i < |ids| && ids[i] == id;
    var s := Claim(0, ids, -1, now);
    assert Enabled(idle, cfg, s);
    OneStep(w, cfg, Crash(0));
    OneStep(idle, cfg, s);
    v := Apply(idle, cfg, s);
    steps := [Crash(0)] + [s];
    hide IsBatch;
    RunsConcat(w, cfg, [Crash(0)], idle, [s], v);
  }

  lemma RunRegistration(w: World, cfg: Config, p: nat, i: nat, r: nat, id: EventId, name: string)
    returns (steps: seq<Step>, last: World)
    requires OnTrack(w, cfg, p) && Ahead(w, cfg, p, i, r, id, name) && (id, name) !in w.store.marks
    ensures Runs(w, cfg, steps, last) && (id, name) in last.store.marks
  {
    var before, v := Advance(w, cfg, p, i, r);
    assert RegsOf(v, cfg, id) == RegsOf(w, cfg, id);
    var s := Attempt(p, Reaction(v.store.rows, [], false, false), 0);
    assert Enabled(v, cfg, s);
    OneStep(v, cfg, s);
    last, steps := Apply(v, cfg, s), before + [s];
    RunsConcat(w, cfg, before, v, [s], last);
  }

  lemma PublishBatch(w: World, cfg: Config, p: nat, now: Instant) returns (steps: seq<Step>, last: World)
    requires OnTrack(w, cfg, p)
    ensures Runs(w, cfg, steps, last)
    ensures last.store.events == SetPublished(w.store.events, PublisherAt(w, p).batch, now)
  {
    var before, v := Advance(w, cfg, p, |PublisherAt(w, p).batch|, 0);
    var s := Publish(p, now);
    OneStep(v, cfg, s);
    last, steps := Apply(v, cfg, s), before + [s];
    RunsConcat(w, cfg, before, v, [s], last);
  }

  // ---------------------------------------------------------------- main results

  /**
   * A consumer without its effect on an event can still get it, in some run, exactly
   * when a publisher holding the event has one of the consumer's registrations still
   * before it, or the consumer is registered and the event can be claimed again.
   */
  lemma RetryPossibleIff(w: World, cfg: Config, id: EventId, name: string)
    requires Inv(w, cfg) && id < |w.store.events| && (id, name) !in w.store.marks
    ensures CanReach(w, cfg, Marked(id, name)) <==> EffectAhead(w, cfg, id, name)
  {
    if HeldAhead(w, cfg, id, name) {
      var p, i, r :| Ahead(w, cfg, p, i, r, id, name);
      WorkingIsOnTrack(w, cfg, p);
      var steps, last := RunRegistration(w, cfg, p, i, r, id, name);
      assert Marked(id, name)(last);
    } else if EffectAhead(w, cfg, id, name) {
      var r :| 0 <= r < |RegsOf(w, cfg, id)| && RegsOf(w, cfg, id)[r].consumer == name;
      var before, v, i := Reclaim(w, cfg, id);
      assert Ahead(v, cfg, 0, i, r, id, name);
      var after, last := RunRegistration(v, cfg, 0, i, r, id, name);
      RunsConcat(w, cfg, before, v, after, last);
      assert Marked(id, name)(last);
    } else if CanReach(w, cfg, Marked(id, name)) {
      var steps, last :| Runs(w, cfg, steps, last) && Marked(id, name)(last);
      NoRunBack(w, cfg, steps, last, id, name);
    }
  }

  /**
   * So a consumer that failed is not retried: once the event is published and no
   * process holds it before the consumer's turn, its dedup rows never change again.
   */
  lemma PublishedIsFinal(w: World, cfg: Config, steps: seq<Step>, last: World, id: EventId, name: string)
    requires Runs(w, cfg, steps, last) && id < |w.store.events| && (id, name) !in w.store.marks
    requires w.store.events[id].publishedAt.Some? && !HeldAhead(w, cfg, id, name)
    ensures (id, name) !in last.store.marks
  {
    NoRunBack(w, cfg, steps, last, id, name);
  }

  /**
   * No unpublished event is lost when its publisher dies: it can be published in
   * some run exactly when somebody holds it or it can be claimed again.
   */
  lemma PublishableIff(w: World, cfg: Config, id: EventId)
    requires Inv(w, cfg) && id < |w.store.events| && w.store.events[id].publishedAt.None?
    ensures CanReach(w, cfg, Published(id)) <==> Held(w, id) || Reclaimable(w.store.events[id], cfg.lease)
  {
    if Held(w, id) {
      var p :| PublisherAt(w, p).Working? && id in PublisherAt(w, p).batch;
      WorkingIsOnTrack(w, cfg, p);
      var steps, last := PublishBatch(w, cfg, p, 0);
      assert Published(id)(last);
    } else if Reclaimable(w.store.events[id], cfg.lease) {
      var before, v, i := Reclaim(w, cfg, id);
      var after, last := PublishBatch(v, cfg, 0, 0);
      RunsConcat(w, cfg, before, v, after, last);
      assert Published(id)(last);
    } else if CanReach(w, cfg, Published(id)) {
      var steps, last :| Runs(w, cfg, steps, last) && Published(id)(last);
      StuckStays(w, cfg, steps, last, id);
    }
  }

  lemma NotHeldStays(w: World, cfg: Config, s: Step, id: EventId)
    requires Enabled(w, cfg, s) && id < |w.store.events| && !Held(w, id)
    requires s.Claim? ==> id !in s.ids
    ensures !Held(Apply(w, cfg, s), id)
  {
    hide IsBatch;
    var v := Apply(w, cfg, s);
    forall p ensures PublisherAt(v, p).Working? ==> id !in PublisherAt(v, p).batch {
      assert PublisherAt(w, p).Working? ==> id !in PublisherAt(w, p).batch;
    }
  }

  lemma {:induction false} StuckStays(w: World, cfg: Config, steps: seq<Step>, last: World, id: EventId)
    requires Runs(w, cfg, steps, last) && id < |w.store.events| && !Held(w, id)
    requires !Reclaimable(w.store.events[id], cfg.lease)
    ensures id < |last.store.events| && last.store.events[id] == w.store.events[id]
    decreases |steps|
  {
    hide Reclaimable;
    hide Held;
    if steps != [] {
      var s := steps[0];
      UntouchedStays(w, cfg, s, id);
      StuckStays(Apply(w, cfg, s), cfg, steps[1..], last, id);
    }
  }

  /** A row nobody holds and nobody can claim stays that way. */
  lemma UntouchedStays(w: World, cfg: Config, s: Step, id: EventId)
    requires Enabled(w, cfg, s) && id < |w.store.events| && !Held(w, id) && !Reclaimable(w.store.events[id], cfg.lease)
    ensures id < |Apply(w, cfg, s).store.events| && Apply(w, cfg, s).store.events[id] == w.store.events[id]
    ensures !Held(Apply(w, cfg, s), id)
  {
    if s.Claim? && id in s.ids {
      ClaimNeedsReclaimable(w, cfg, s, id);
    }
    RowStays(w, cfg, s, id);
    NotHeldStays(w, cfg, s, id);
  }

  /** A published event's row can still change, in some run, exactly while a process holds the event. */
  lemma PublishedRowChangesIff(w: World, cfg: Config, id: EventId)
    requires Inv(w, cfg) && id < |w.store.events| && w.store.events[id].publishedAt.Some?
    ensures CanReach(w, cfg, RowDiffers(id, w.store.events[id])) <==> Held(w, id)
  {
    var e := w.store.events[id];
    if Held(w, id) {
      var p :| PublisherAt(w, p).Working? && id in PublisherAt(w, p).batch;
      WorkingIsOnTrack(w, cfg, p);
      var steps, last := PublishBatch(w, cfg, p, if e.publishedAt == Some(0) then 1 else 0);
      assert RowDiffers(id, e)(last);
    } else if CanReach(w, cfg, RowDiffers(id, e)) {
      var steps, last :| Runs(w, cfg, steps, last) && RowDiffers(id, e)(last);
      assert !Reclaimable(e, cfg.lease);
      StuckStays(w, cfg, steps, last, id);
    }
  }

  // ------------------------------------------------------------- two such runs

  /** One event in an otherwise empty database. */
  function Lone(e: Event, publishers: map<nat, Publisher>, attempted: set<(EventId, nat)>,
                claims: seq<(EventId, Instant)>): World
  {
    World(Store([e], map[], map[]), publishers, [], attempted, claims)
  }

  function ClaimedAt(e: Event, now: Instant, expires: Instant): Event {
    e.(claimedAt := Some(now), claimExpires := Some(expires))
  }

  lemma LoneClaim(w: World, cfg: Config, p: nat, now: Instant, expires: Instant)
    requires |w.store.events| == 1 && w == Lone(w.store.events[0], w.publishers, w.attempted, w.claims)
    requires Claimable(w.store.events[0], now) && Plus(now, cfg.lease) == Some(expires) && PublisherAt(w, p).Idle?
    ensures Enabled(w, cfg, Claim(p, [0], -1, now))
    ensures Apply(w, cfg, Claim(p, [0], -1, now))
         == Lone(ClaimedAt(w.store.events[0], now, expires), w.publishers[p := Working([0], 0, 0)], w.attempted,
                 w.claims + [(0, now)])
  {
    assert IsBatch(w.store.events, now, -1, [0]);
    assert SetClaims(w.store.events, [0], now, expires) == [ClaimedAt(w.store.events[0], now, expires)];
    assert LogClaims([0], now) == [(0, now)];
  }

  lemma LonePublish(w: World, cfg: Config, p: nat, now: Instant)
    requires |w.store.events| == 1 && w == Lone(w.store.events[0], w.publishers, w.attempted, w.claims)
    requires PublisherAt(w, p) == Working([0], 1, 0)
    ensures Enabled(w, cfg, Publish(p, now))
    ensures Apply(w, cfg, Publish(p, now))
         == Lone(w.store.events[0].(publishedAt := Some(now)), w.publishers[p := Idle], w.attempted, w.claims)
  {
    assert SetPublished(w.store.events, [0], now) == [w.store.events[0].(publishedAt := Some(now))];
  }

  lemma LoneFailure(w: World, cfg: Config, p: nat)
    requires |w.store.events| == 1 && w == Lone(w.store.events[0], w.publishers, w.attempted, w.claims)
    requires PublisherAt(w, p) == Working([0], 0, 0) && |RegsOf(w, cfg, 0)| == 1
    ensures var s := Attempt(p, Reaction(map[], [], true, false), 0);
            && Enabled(w, cfg, s)
            && Apply(w, cfg, s) == w.(publishers := w.publishers[p := Working([0], 0, 1)], attempted := w.attempted + {(0, 0)})
  {
  }

  lemma LoneNext(w: World, cfg: Config, p: nat)
    requires |w.store.events| == 1 && PublisherAt(w, p) == Working([0], 0, |RegsOf(w, cfg, 0)|)
    ensures Enabled(w, cfg, NextEvent(p))
    ensures Apply(w, cfg, NextEvent(p)) == w.(publishers := w.publishers[p := Working([0], 1, 0)])
  {
  }

  /** Claim, a handler that raises, and publication. */
  lemma FailedRun(e: Event, reg: Registration, lease: int) returns (w: World, steps: seq<Step>, last: World)
    requires NeverClaimed(e) && 0 <= lease < SECONDS * MICROS_PER_SECOND
    ensures Start(w) && w.store.events == [e] && Runs(w, Config(map[e.kind := [reg]], lease), steps, last)
    ensures last == Lone(ClaimedAt(e, 0, lease).(publishedAt := Some(0)), map[0 := Idle], {(0, 0)}, [(0, 0)])
  {
    hide Apply;
    hide Enabled;
    var cfg, claimed := Config(map[e.kind := [reg]], lease), ClaimedAt(e, 0, lease);
    w := Lone(e, map[], {}, []);
    var w1 := Lone(claimed, map[0 := Working([0], 0, 0)], {}, [(0, 0)]);
    LoneClaim(w, cfg, 0, 0, lease);
    steps, last := FailedDelivery(w1, cfg);
    steps := OneMore(w, cfg, Claim(0, [0], -1, 0), w1, steps, last);
  }

  /** From the claim on. */
  lemma FailedDelivery(w1: World, cfg: Config) returns (steps: seq<Step>, last: World)
    requires |w1.store.events| == 1 && w1 == Lone(w1.store.events[0], map[0 := Working([0], 0, 0)], {}, [(0, 0)])
    requires |RegsOf(w1, cfg, 0)| == 1
    ensures Runs(w1, cfg, steps, last)
    ensures last == Lone(w1.store.events[0].(publishedAt := Some(0)), map[0 := Idle], {(0, 0)}, [(0, 0)])
  {
    hide Apply;
    hide Enabled;
    var e := w1.store.events[0];
    var w2 := Lone(e, map[0 := Working([0], 0, 1)], {(0, 0)}, [(0, 0)]);
    var w3 := Lone(e, map[0 := Working([0], 1, 0)], {(0, 0)}, [(0, 0)]);
    last := Lone(e.(publishedAt := Some(0)), map[0 := Idle], {(0, 0)}, [(0, 0)]);
    LoneFailure(w1, cfg, 0);
    LoneNext(w2, cfg, 0);
    LonePublish(w3, cfg, 0, 0);
    hide RegsOf;
    hide PublisherAt;
    NoStep(last, cfg);
    hide Runs;
    steps := OneMore(w3, cfg, Publish(0, 0), last, [], last);
    steps := OneMore(w2, cfg, NextEvent(0), w3, steps, last);
    steps := OneMore(w1, cfg, Attempt(0, Reaction(map[], [], true, false), 0), w2, steps, last);
  }

  /** A handler that raised: its event is published all the same, and its effect is out of reach. */
  lemma FailedConsumerIsLost(e: Event, reg: Registration, lease: int) returns (w: World, steps: seq<Step>, last: World)
    requires NeverClaimed(e) && 0 <= lease < SECONDS * MICROS_PER_SECOND
    ensures var cfg := Config(map[e.kind := [reg]], lease);
            && Start(w) && w.store.events == [e] && Runs(w, cfg, steps, last) && |last.store.events| == 1
            && (0, 0) in last.attempted && (0, reg.consumer) !in last.store.marks
            && last.store.events[0].publishedAt.Some?
            && !CanReach(last, cfg, Marked(0, reg.consumer))
  {
    var cfg := Config(map[e.kind := [reg]], lease);
    w, steps, last := FailedRun(e, reg, lease);
    StartIsSound(w, cfg);
    hide Runs;
    hide Start;
    hide Inv;
    RunKeepsInv(w, cfg, steps, last);
    NobodyAhead(last, cfg, 0, reg.consumer);
    hide EffectAhead;
    RetryPossibleIff(last, cfg, 0, reg.consumer);
  }

  lemma StartIsSound(w: World, cfg: Config)
    requires Start(w)
    ensures Inv(w, cfg)
  {
  }

  /** A published event of idle publishers. */
  lemma NobodyAhead(w: World, cfg: Config, id: EventId, name: string)
    requires id < |w.store.events| && w.store.events[id].publishedAt.Some?
    requires forall p :: p in w.publishers ==> w.publishers[p].Idle?
    ensures !EffectAhead(w, cfg, id, name)
  {
  }

  lemma NoStep(w: World, cfg: Config)
    ensures Runs(w, cfg, [], w)
  {
  }

  /** A step put before a run. */
  lemma OneMore(w: World, cfg: Config, s: Step, v: World, rest: seq<Step>, last: World) returns (steps: seq<Step>)
    requires Enabled(w, cfg, s) && v == Apply(w, cfg, s) && Runs(v, cfg, rest, last)
    ensures Runs(w, cfg, steps, last)
  {
    steps := [s] + rest;
    assert steps[1..] == rest;
  }

  /**
   * published_at is not set exactly once: two processes that claimed an event a lease
   * apart both publish it, each with its own clock, and the second stamp stays.
   */
  lemma TwoHoldersPublishTwice(e: Event)
    returns (w: World, before: seq<Step>, first: World, after: seq<Step>, last: World)
    requires NeverClaimed(e)
    ensures var cfg := Config(map[], MICROS_PER_SECOND);
            && Start(w) && w.store.events == [e] && Runs(w, cfg, before, first) && Runs(first, cfg, after, last)
            && |first.store.events| == |last.store.events| == 1
            && first.store.events[0].publishedAt == Some(2_000_000)
            && last.store.events[0].publishedAt == Some(3_000_000)
  {
    hide Apply;
    hide Enabled;
    var cfg := Config(map[], MICROS_PER_SECOND);
    var p0 := Working([0], 0, 0);
    w := Lone(e, map[], {}, []);
    var w1 := Lone(ClaimedAt(e, 0, 1_000_000), map[0 := p0], {}, [(0, 0)]);
    var twice := ClaimedAt(ClaimedAt(e, 0, 1_000_000), 1_000_000, 2_000_000);
    var w2 := Lone(twice, map[0 := p0, 1 := p0], {}, [(0, 0), (0, 1_000_000)]);
    assert SECONDS >= 365 * SECONDS_PER_DAY;
    LoneClaim(w, cfg, 0, 0, 1_000_000);
    LoneClaim(w1, cfg, 1, 1_000_000, 2_000_000);
    hide PublisherAt;
    hide Runs;
    before, first, after, last := TwoPublications(w2, twice);
    before := OneMore(w1, cfg, Claim(1, [0], -1, 1_000_000), w2, before, first);
    before := OneMore(w, cfg, Claim(0, [0], -1, 0), w1, before, first);
  }

  /** Two processes at the same event without consumers, publishing one after the other. */
  lemma TwoPublications(w2: World, e: Event)
    returns (before: seq<Step>, first: World, after: seq<Step>, last: World)
    requires w2 == Lone(e, map[0 := Working([0], 0, 0), 1 := Working([0], 0, 0)], {}, w2.claims)
    ensures var cfg := Config(map[], MICROS_PER_SECOND);
            && Runs(w2, cfg, before, first) && Runs(first, cfg, after, last)
            && |first.store.events| == |last.store.events| == 1
            && first.store.events[0].publishedAt == Some(2_000_000)
            && last.store.events[0].publishedAt == Some(3_000_000)
  {
    hide Apply;
    hide Enabled;
    assert SECONDS >= 365 * SECONDS_PER_DAY;
    var cfg, claims := Config(map[], MICROS_PER_SECOND), w2.claims;
    var p0, p1 := Working([0], 0, 0), Working([0], 1, 0);
    var w3 := Lone(e, map[0 := p1, 1 := p0], {}, claims);
    var w4 := Lone(e, map[0 := p1, 1 := p1], {}, claims);
    var published := e.(publishedAt := Some(2_000_000));
    first := Lone(published, map[0 := Idle, 1 := p1], {}, claims);
    last := Lone(published.(publishedAt := Some(3_000_000)), map[0 := Idle, 1 := Idle], {}, claims);
    LoneNext(w2, cfg, 0);
    LoneNext(w3, cfg, 1);
    LonePublish(w4, cfg, 0, 2_000_000);
    LonePublish(first, cfg, 1, 3_000_000);
    hide RegsOf;
    hide PublisherAt;
    NoStep(last, cfg);
    NoStep(first, cfg);
    hide Runs;
    after := OneMore(first, cfg, Publish(1, 3_000_000), last, [], last);
    before := OneMore(w4, cfg, Publish(0, 2_000_000), first, [], first);
    before := OneMore(w3, cfg, NextEvent(1), w4, before, first);
    before := OneMore(w2, cfg, NextEvent(0), w3, before, first);
  }
}
