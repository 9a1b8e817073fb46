/**
 * Several publisher processes running process_pending_events against one
 * database, each transaction one step, any interleaving, each able to crash
 * between claim, consume and publish. Handlers are arbitrary: a step is given
 * what the handler did. Every publisher reads its own clock, which need not agree
 * with the others.
 */
module Publishers {
  import opened Wrappers
  import opened TimeFormat
  import opened Outbox
  import opened Dispatch

  /** A process between two of its transactions; `reg` is the registration it runs next. */
  datatype Publisher = Idle | Working(batch: seq<EventId>, at: nat, reg: nat)

  /** The database, the processes, and three logs of what has happened. */
  datatype World = World(
    store: Store,
    publishers: map<nat, Publisher>,
    runs: seq<(EventId, string)>,
    attempted: set<(EventId, nat)>,
    claims: seq<(EventId, Instant)>)

  datatype Config = Config(registry: Registry, lease: int)

  datatype Step =
    | Emit(draft: Draft)
    | Claim(p: nat, ids: seq<EventId>, limit: int, now: Instant)
    | Attempt(p: nat, reaction: Reaction, now: Instant)
    | NextEvent(p: nat)
    | Publish(p: nat, now: Instant)
    | Crash(p: nat)

  function PublisherAt(w: World, p: nat): Publisher {
    if p in w.publishers then w.publishers[p] else Idle
  }

  function RegsOf(w: World, cfg: Config, id: EventId): seq<Registration>
    requires id < |w.store.events|
  {
    RegistrationsFor(cfg.registry, w.store.events[id].kind)
  }

  /** Working on an event, and not past its last registration. */
  predicate Busy(w: World, cfg: Config, p: nat) {
    var pub := PublisherAt(w, p);
    pub.Working? && pub.at < |pub.batch| && pub.batch[pub.at] < |w.store.events|
    && pub.reg <= |RegsOf(w, cfg, pub.batch[pub.at])|
  }

  ghost predicate Enabled(w: World, cfg: Config, s: Step) {
    match s
    case Emit(_) => true
    case Claim(p, ids, limit, now) =>
      && PublisherAt(w, p).Idle? && IsBatch(w.store.events, now, limit, ids)
      && (ids != [] ==> Plus(now, cfg.lease).Some?)
    case Attempt(p, _, _) =>
      Busy(w, cfg, p) && PublisherAt(w, p).reg < |RegsOf(w, cfg, PublisherAt(w, p).batch[PublisherAt(w, p).at])|
    case NextEvent(p) =>
      Busy(w, cfg, p) && PublisherAt(w, p).reg == |RegsOf(w, cfg, PublisherAt(w, p).batch[PublisherAt(w, p).at])|
    case Publish(p, _) => PublisherAt(w, p).Working? && PublisherAt(w, p).at == |PublisherAt(w, p).batch|
    case Crash(_) => true
  }

  function LogClaims(ids: seq<EventId>, now: Instant): (r: seq<(EventId, Instant)>)
    ensures |r| == |ids| && forall i :: 0 <= i < |ids| ==> r[i] == (ids[i], now)
  {
    seq(|ids|, i requires 0 <= i < |ids| => (ids[i], now))
  }

  ghost function Apply(w: World, cfg: Config, s: Step): World
    requires Enabled(w, cfg, s)
  {
    match s
    case Emit(d) => w.(store := w.store.(events := w.store.events + [NewRow(d)]))
    case Claim(p, ids, _, now) =>
      if ids == [] then w
      else w.(store := w.store.(events := SetClaims(w.store.events, ids, now, Plus(now, cfg.lease).value)),
              publishers := w.publishers[p := Working(ids, 0, 0)],
              claims := w.claims + LogClaims(ids, now))
    case Attempt(p, r, now) =>
      var pub := PublisherAt(w, p);
      var id := pub.batch[pub.at];
      var name := RegsOf(w, cfg, id)[pub.reg].consumer;
      var (store, outcome) := Consume(w.store, id, name, (rows, e) => r, now);
      w.(store := store, runs := if outcome == Ran then w.runs + [(id, name)] else w.runs,
         attempted := w.attempted + {(id, pub.reg)}, publishers := w.publishers[p := pub.(reg := pub.reg + 1)])
    case NextEvent(p) =>
      var pub := PublisherAt(w, p);
      w.(publishers := w.publishers[p := Working(pub.batch, pub.at + 1, 0)])
    case Publish(p, now) =>
      w.(store := w.store.(events := SetPublished(w.store.events, PublisherAt(w, p).batch, now)),
         publishers := w.publishers[p := Idle])
    case Crash(p) => w.(publishers := w.publishers[p := Idle])
  }

  ghost predicate Runs(w: World, cfg: Config, steps: seq<Step>, last: World)
    decreases |steps|
  {
    if steps == [] then w == last
    else Enabled(w, cfg, steps[0]) && Runs(Apply(w, cfg, steps[0]), cfg, steps[1..], last)
  }

  /** Rows written but never claimed, no process at work, nothing logged. */
  ghost predicate Start(w: World) {
    && (forall i :: 0 <= i < |w.store.events| ==> NeverClaimed(w.store.events[i]))
    && w.store.marks == map[] && w.publishers == map[] && w.runs == [] && w.attempted == {} && w.claims == []
  }

  predicate NeverClaimed(e: Event) {
    e.claimedAt.None? && e.claimExpires.None? && e.publishedAt.None?
  }

  // ---------------------------------------------------------------- invariant

  /** The committed handler runs are the dedup rows, each once. */
  ghost predicate RunsAreMarks(w: World) {
    Distinct(w.runs) && forall k :: k in w.runs <==> k in w.store.marks
  }

  /** The first `n` registrations of the event's type have been attempted. */
  ghost predicate AttemptedUpTo(w: World, id: EventId, n: nat) {
    forall r :: 0 <= r < n ==> (id, r) in w.attempted
  }

  ghost predicate PublishedWereAttempted(w: World, cfg: Config) {
    forall id :: 0 <= id < |w.store.events| && w.store.events[id].publishedAt.Some? ==>
      AttemptedUpTo(w, id, |RegsOf(w, cfg, id)|)
  }

  ghost predicate PublisherSound(w: World, cfg: Config, pub: Publisher) {
    pub.Working? ==>
      && Ids(w.store.events, pub.batch) && pub.at <= |pub.batch|
      && (forall i :: 0 <= i < pub.at ==> AttemptedUpTo(w, pub.batch[i], |RegsOf(w, cfg, pub.batch[i])|))
      && (pub.at < |pub.batch| ==>
            pub.reg <= |RegsOf(w, cfg, pub.batch[pub.at])| && AttemptedUpTo(w, pub.batch[pub.at], pub.reg))
  }

  ghost predicate PublishersSound(w: World, cfg: Config) {
    forall p :: PublisherSound(w, cfg, PublisherAt(w, p))
  }

  /** The logged claim lies a lease before the row's present deadline, or more. */
  predicate BeforeDeadline(events: seq<Event>, lease: int, claim: (EventId, Instant)) {
    && claim.0 < |events| && events[claim.0].claimedAt.Some? && events[claim.0].claimExpires.Some?
    && claim.1 + lease <= events[claim.0].claimExpires.value
  }

  ghost predicate ClaimsBeforeDeadline(w: World, cfg: Config) {
    forall k :: 0 <= k < |w.claims| ==> BeforeDeadline(w.store.events, cfg.lease, w.claims[k])
  }

  /** Two claims of one event: how far apart. */
  predicate Spaced(first: Instant, second: Instant, lease: int) {
    && second - first > lease - MICROS_PER_SECOND
    && (!Whole(second) ==> second - first >= lease)
  }

  ghost predicate ClaimsSpaced(w: World, cfg: Config) {
    forall i, j :: 0 <= i < j < |w.claims| && w.claims[i].0 == w.claims[j].0 ==>
      Spaced(w.claims[i].1, w.claims[j].1, cfg.lease)
  }

  /** A claimed row is in the log of claims and its lease runs from the claim. */
  predicate ClaimLogged(w: World, cfg: Config, id: EventId)
    requires id < |w.store.events|
  {
    var e := w.store.events[id];
    e.claimedAt.Some? ==>
      (id, e.claimedAt.value) in w.claims && e.claimExpires.Some? && e.claimExpires.value == e.claimedAt.value + cfg.lease
  }

  ghost predicate ClaimsLogged(w: World, cfg: Config) {
    forall id :: 0 <= id < |w.store.events| ==> ClaimLogged(w, cfg, id)
  }

  ghost predicate Inv(w: World, cfg: Config) {
    && RunsAreMarks(w) && PublishedWereAttempted(w, cfg) && PublishersSound(w, cfg) && ClaimsLogged(w, cfg)
    && (cfg.lease >= MICROS_PER_SECOND ==> ClaimsBeforeDeadline(w, cfg) && ClaimsSpaced(w, cfg))
  }

  // ------------------------------------------------- what each step keeps

  /** Rows keep their type and stay published; the log of attempts grows. */
  ghost predicate Grows(w: World, v: World) {
    && |w.store.events| <= |v.store.events| && w.attempted <= v.attempted
    && (forall id :: 0 <= id < |w.store.events| ==>
          && v.store.events[id].kind == w.store.events[id].kind
          && (w.store.events[id].publishedAt.Some? ==> v.store.events[id].publishedAt.Some?))
  }

  lemma StepGrows(w: World, cfg: Config, s: Step)
    requires Enabled(w, cfg, s)
    ensures Grows(w, Apply(w, cfg, s))
  {
  }

  lemma StepKeepsRuns(w: World, cfg: Config, s: Step)
    requires Enabled(w, cfg, s) && RunsAreMarks(w)
    ensures RunsAreMarks(Apply(w, cfg, s))
  {
    hide IsBatch;
    if s.Attempt? {
      var v := Apply(w, cfg, s);
      var pub := PublisherAt(w, s.p);
      var key := (pub.batch[pub.at], RegsOf(w, cfg, pub.batch[pub.at])[pub.reg].consumer);
      if v.runs != w.runs {
        assert v.runs == w.runs + [key] && key !in w.runs;
      }
    }
  }

  lemma SoundGrows(w: World, v: World, cfg: Config, pub: Publisher)
    requires Grows(w, v) && PublisherSound(w, cfg, pub)
    ensures PublisherSound(v, cfg, pub)
  {
  }

  lemma StepKeepsPublishers(w: World, cfg: Config, s: Step)
    requires Enabled(w, cfg, s) && PublishersSound(w, cfg)
    ensures PublishersSound(Apply(w, cfg, s), cfg)
  {
    var v := Apply(w, cfg, s);
    StepGrows(w, cfg, s);
    forall p ensures PublisherSound(v, cfg, PublisherAt(v, p)) {
      var pub := PublisherAt(w, p);
      SoundGrows(w, v, cfg, pub);
      if PublisherAt(v, p) != pub && PublisherAt(v, p).Working? {
        assert !s.Emit? && s.p == p;
        MoverSound(w, cfg, s);
      }
    }
  }

  lemma MoverSound(w: World, cfg: Config, s: Step)
    requires Enabled(w, cfg, s) && PublishersSound(w, cfg) && (s.Claim? || s.Attempt? || s.NextEvent?)
    ensures PublisherSound(Apply(w, cfg, s), cfg, PublisherAt(Apply(w, cfg, s), s.p))
  {
    var v := Apply(w, cfg, s);
    var pub := PublisherAt(w, s.p);
    StepGrows(w, cfg, s);
    assert PublisherSound(w, cfg, pub);
    SoundGrows(w, v, cfg, pub);
    match s
    case Claim(_, ids, _, _) =>
    case Attempt(_, _, _) =>
      var id := pub.batch[pub.at];
      assert AttemptedUpTo(v, id, pub.reg + 1) by {
        assert AttemptedUpTo(w, id, pub.reg);
      }
    case NextEvent(_) =>
      var id := pub.batch[pub.at];
      assert AttemptedUpTo(v, id, |RegsOf(v, cfg, id)|);
  }

  lemma StepKeepsPublished(w: World, cfg: Config, s: Step)
    requires Enabled(w, cfg, s) && PublishedWereAttempted(w, cfg) && PublishersSound(w, cfg)
    ensures PublishedWereAttempted(Apply(w, cfg, s), cfg)
  {
  }

  /** What the claim test lets through, in time. */
  lemma ClaimableIsSpaced(events: seq<Event>, lease: int, now: Instant, claim: (EventId, Instant))
    requires BeforeDeadline(events, lease, claim) && Claimable(events[claim.0], now)
    ensures Spaced(claim.1, now, lease)
  {
  }

  /** A logged claim stays before the deadline when rows are claimed again, which only moves it on. */
  lemma OldClaimKept(events: seq<Event>, lease: int, claim: (EventId, Instant), ids: seq<EventId>, now: Instant,
                     expires: Instant)
    requires BeforeDeadline(events, lease, claim) && lease >= MICROS_PER_SECOND && expires == now + lease
    requires claim.0 in ids ==> Claimable(events[claim.0], now)
    ensures BeforeDeadline(SetClaims(events, ids, now, expires), lease, claim)
  {
    if claim.0 in ids {
      ClaimableIsSpaced(events, lease, now, claim);
    }
    hide Claimable;
    hide SqlLe;
  }

  lemma ClaimKeepsDeadline(w: World, cfg: Config, s: Step)
    requires s.Claim? && Enabled(w, cfg, s) && s.ids != [] && cfg.lease >= MICROS_PER_SECOND
    requires ClaimsBeforeDeadline(w, cfg)
    ensures ClaimsBeforeDeadline(Apply(w, cfg, s), cfg)
  {
    hide Claimable;
    var v, n, expires := Apply(w, cfg, s), |w.claims|, Plus(s.now, cfg.lease).value;
    assert v.store.events == SetClaims(w.store.events, s.ids, s.now, expires);
    assert v.claims == w.claims + LogClaims(s.ids, s.now);
    hide Apply;
    hide BeforeDeadline;
    forall k | 0 <= k < |v.claims| ensures BeforeDeadline(v.store.events, cfg.lease, v.claims[k]) {
      if k < n {
        OldClaimKept(w.store.events, cfg.lease, w.claims[k], s.ids, s.now, expires);
      } else {
        NewClaimKept(w.store.events, cfg.lease, s.ids, k - n, s.now, expires);
      }
    }
  }

  lemma NewClaimKept(events: seq<Event>, lease: int, ids: seq<EventId>, i: nat, now: Instant, expires: Instant)
    requires i < |ids| && ids[i] < |events| && expires == now + lease
    ensures BeforeDeadline(SetClaims(events, ids, now, expires), lease, (ids[i], now))
  {
    assert ids[i] in ids;
  }

  lemma ClaimKeepsSpacing(w: World, cfg: Config, s: Step)
    requires s.Claim? && Enabled(w, cfg, s) && s.ids != []
    requires ClaimsBeforeDeadline(w, cfg) && ClaimsSpaced(w, cfg)
    ensures ClaimsSpaced(Apply(w, cfg, s), cfg)
  {
  }

  lemma StepKeepsSpacing(w: World, cfg: Config, s: Step)
    requires Enabled(w, cfg, s) && cfg.lease >= MICROS_PER_SECOND
    requires ClaimsBeforeDeadline(w, cfg) && ClaimsSpaced(w, cfg)
    ensures ClaimsBeforeDeadline(Apply(w, cfg, s), cfg) && ClaimsSpaced(Apply(w, cfg, s), cfg)
  {
    if s.Claim? && s.ids != [] {
      ClaimKeepsDeadline(w, cfg, s);
      ClaimKeepsSpacing(w, cfg, s);
    } else {
      var v := Apply(w, cfg, s);
      assert v.claims == w.claims && |w.store.events| <= |v.store.events|;
      assert forall id :: 0 <= id < |w.store.events| ==>
          v.store.events[id].claimedAt == w.store.events[id].claimedAt
          && v.store.events[id].claimExpires == w.store.events[id].claimExpires;
      forall k | 0 <= k < |v.claims| ensures BeforeDeadline(v.store.events, cfg.lease, v.claims[k]) {
        assert BeforeDeadline(w.store.events, cfg.lease, w.claims[k]);
      }
    }
  }

  /** A row's claim changes only by a claim of it, and a claim of it stamps and logs it. */
  lemma ClaimsAreLogged(w: World, cfg: Config, s: Step, id: EventId)
    requires Enabled(w, cfg, s) && id < |w.store.events|
    ensures id < |Apply(w, cfg, s).store.events| && w.claims <= Apply(w, cfg, s).claims
    ensures var before, after := w.store.events[id], Apply(w, cfg, s).store.events[id];
            if s.Claim? && id in s.ids
            then after.claimedAt == Some(s.now) && after.claimExpires.Some? && after.claimExpires.value == s.now + cfg.lease
                 && (id, s.now) in Apply(w, cfg, s).claims[|w.claims|..]
            else after.claimedAt == before.claimedAt && after.claimExpires == before.claimExpires
  {
    hide IsBatch;
    if s.Claim? && id in s.ids {
      var i :| 0 <= i < |s.ids| && s.ids[i] == id;
      assert Apply(w, cfg, s).claims[|w.claims|..][i] == (id, s.now);
    }
  }

  /** Rows arrive unclaimed. */
  lemma NewRowsUnclaimed(w: World, cfg: Config, s: Step, id: EventId)
    requires Enabled(w, cfg, s) && |w.store.events| <= id < |Apply(w, cfg, s).store.events|
    ensures Apply(w, cfg, s).store.events[id].claimedAt.None?
  {
    hide IsBatch;
  }

  lemma StepKeepsLogged(w: World, cfg: Config, s: Step)
    requires Enabled(w, cfg, s) && ClaimsLogged(w, cfg)
    ensures ClaimsLogged(Apply(w, cfg, s), cfg)
  {
    var v := Apply(w, cfg, s);
    hide Apply;
    hide Enabled;
    forall id | 0 <= id < |v.store.events| ensures ClaimLogged(v, cfg, id) {
      if id < |w.store.events| {
        assert ClaimLogged(w, cfg, id);
        ClaimsAreLogged(w, cfg, s, id);
      } else {
        NewRowsUnclaimed(w, cfg, s, id);
      }
    }
  }

  /** The step is some publisher's turn at registration r of the event, which raised or left its mark. */
  ghost predicate Delivers(w: World, cfg: Config, s: Step, id: EventId, r: nat) {
    && Enabled(w, cfg, s) && s.Attempt? && id < |w.store.events| && r < |RegsOf(w, cfg, id)|
    && PublisherAt(w, s.p).batch[PublisherAt(w, s.p).at] == id && PublisherAt(w, s.p).reg == r
    && (s.reaction.raised || (id, RegsOf(w, cfg, id)[r].consumer) in Apply(w, cfg, s).store.marks)
  }

  /** An attempt is logged by a delivery only. */
  lemma AttemptsAreReal(w: World, cfg: Config, s: Step, id: EventId, r: nat)
    requires Enabled(w, cfg, s) && (id, r) in Apply(w, cfg, s).attempted && (id, r) !in w.attempted
    ensures Delivers(w, cfg, s, id, r)
  {
    hide IsBatch;
  }

  /** Somewhere in the run registration r got its turn at the event. */
  ghost predicate Delivered(w: World, cfg: Config, steps: seq<Step>, id: EventId, r: nat)
    decreases |steps|
  {
    && steps != [] && Enabled(w, cfg, steps[0])
    && (Delivers(w, cfg, steps[0], id, r) || Delivered(Apply(w, cfg, steps[0]), cfg, steps[1..], id, r))
  }

  lemma {:induction false} AttemptedWasDelivered(w: World, cfg: Config, steps: seq<Step>, last: World, id: EventId, r: nat)
    requires Runs(w, cfg, steps, last) && (id, r) in last.attempted && (id, r) !in w.attempted
    ensures Delivered(w, cfg, steps, id, r)
    decreases |steps|
  {
    hide Apply;
    hide Enabled;
    hide Delivers;
    if steps != [] {
      var v := Apply(w, cfg, steps[0]);
      if (id, r) in v.attempted {
        AttemptsAreReal(w, cfg, steps[0], id, r);
      } else {
        AttemptedWasDelivered(v, cfg, steps[1..], last, id, r);
      }
    }
  }

  predicate ClaimOf(s: Step, id: EventId) { s.Claim? && id in s.ids }

  /** A claim in the run, of an event claimed before the run. */
  lemma {:induction false} LaterClaimSpaced(w: World, cfg: Config, steps: seq<Step>, last: World, c: nat, k: nat)
    requires Runs(w, cfg, steps, last) && cfg.lease >= MICROS_PER_SECOND
    requires ClaimsBeforeDeadline(w, cfg) && ClaimsSpaced(w, cfg)
    requires c < |w.claims| && k < |steps| && ClaimOf(steps[k], w.claims[c].0)
    ensures Spaced(w.claims[c].1, steps[k].now, cfg.lease)
    decreases |steps|
  {
    if k == 0 {
      assert BeforeDeadline(w.store.events, cfg.lease, w.claims[c]);
      assert Claimable(w.store.events[w.claims[c].0], steps[0].now);
      ClaimableIsSpaced(w.store.events, cfg.lease, steps[0].now, w.claims[c]);
    } else {
      var v := Apply(w, cfg, steps[0]);
      StepKeepsSpacing(w, cfg, steps[0]);
      assert w.claims <= v.claims;
      hide Apply;
      hide Enabled;
      hide ClaimsSpaced;
      hide ClaimsBeforeDeadline;
      hide Spaced;
      LaterClaimSpaced(v, cfg, steps[1..], last, c, k - 1);
    }
  }

  /** Two claims of one event in the run. */
  lemma {:induction false} ClaimStepsSpaced(w: World, cfg: Config, steps: seq<Step>, last: World, id: EventId, j: nat, k: nat)
    requires Runs(w, cfg, steps, last) && cfg.lease >= MICROS_PER_SECOND
    requires ClaimsBeforeDeadline(w, cfg) && ClaimsSpaced(w, cfg)
    requires j < k < |steps| && ClaimOf(steps[j], id) && ClaimOf(steps[k], id)
    ensures Spaced(steps[j].now, steps[k].now, cfg.lease)
    decreases |steps|
  {
    hide Apply;
    hide Enabled;
    hide ClaimsBeforeDeadline;
    hide ClaimsSpaced;
    hide Spaced;
    var v := Apply(w, cfg, steps[0]);
    StepKeepsSpacing(w, cfg, steps[0]);
    if j == 0 {
      var c := ClaimIsLogged(w, cfg, steps[0], id);
      hide ClaimOf;
      LaterClaimSpaced(v, cfg, steps[1..], last, c, k - 1);
    } else {
      hide ClaimOf;
      ClaimStepsSpaced(v, cfg, steps[1..], last, id, j - 1, k - 1);
    }
  }

  lemma ClaimIsLogged(w: World, cfg: Config, s: Step, id: EventId) returns (c: nat)
    requires Enabled(w, cfg, s) && ClaimOf(s, id)
    ensures c < |Apply(w, cfg, s).claims| && Apply(w, cfg, s).claims[c] == (id, s.now)
  {
    assert id < |w.store.events|;
    ClaimsAreLogged(w, cfg, s, id);
    hide Apply;
    c :| |w.claims| <= c < |Apply(w, cfg, s).claims| && Apply(w, cfg, s).claims[c] == (id, s.now);
  }

  lemma StepKeepsInv(w: World, cfg: Config, s: Step)
    requires Enabled(w, cfg, s) && Inv(w, cfg)
    ensures Inv(Apply(w, cfg, s), cfg)
  {
    StepKeepsRuns(w, cfg, s);
    StepKeepsPublishers(w, cfg, s);
    StepKeepsPublished(w, cfg, s);
    StepKeepsLogged(w, cfg, s);
    if cfg.lease >= MICROS_PER_SECOND {
      StepKeepsSpacing(w, cfg, s);
    }
  }

  lemma {:induction false} RunKeepsInv(w: World, cfg: Config, steps: seq<Step>, last: World)
    requires Inv(w, cfg) && Runs(w, cfg, steps, last)
    ensures Inv(last, cfg)
    decreases |steps|
  {
    hide Inv;
    if steps != [] {
      StepKeepsInv(w, cfg, steps[0]);
      RunKeepsInv(Apply(w, cfg, steps[0]), cfg, steps[1..], last);
    }
  }

  // ------------------------------------------------------------- main results

  /** The event is published and has a registration r. */
  predicate PublishedWith(w: World, cfg: Config, id: EventId, r: nat) {
    id < |w.store.events| && w.store.events[id].publishedAt.Some? && r < |RegsOf(w, cfg, id)|
  }

  /**
   * After any run: every handler's committed effect happened at most once per event
   * and consumer name and has its dedup row; at a published event every registration
   * of its type had its turn, which raised or left its mark; and with a lease of at
   * least a second two claims of an event are more than the lease minus one second
   * apart, and the whole lease apart when the later one does not fall on a whole second.
   */
  lemma EveryRunIsSafe(w: World, cfg: Config, steps: seq<Step>, last: World)
    requires Start(w) && Runs(w, cfg, steps, last)
    ensures RunsAreMarks(last)
    ensures forall id, r :: PublishedWith(last, cfg, id, r) ==> Delivered(w, cfg, steps, id, r)
    ensures cfg.lease >= MICROS_PER_SECOND ==>
              forall id, j, k :: 0 <= j < k < |steps| && ClaimOf(steps[j], id) && ClaimOf(steps[k], id) ==>
                Spaced(steps[j].now, steps[k].now, cfg.lease)
  {
    RunKeepsInv(w, cfg, steps, last);
    forall id, r | PublishedWith(last, cfg, id, r) ensures Delivered(w, cfg, steps, id, r) {
      assert AttemptedUpTo(last, id, |RegsOf(last, cfg, id)|);
      AttemptedWasDelivered(w, cfg, steps, last, id, r);
    }
    if cfg.lease >= MICROS_PER_SECOND {
      forall id, j, k | 0 <= j < k < |steps| && ClaimOf(steps[j], id) && ClaimOf(steps[k], id)
        ensures Spaced(steps[j].now, steps[k].now, cfg.lease)
      {
        ClaimStepsSpaced(w, cfg, steps, last, id, j, k);
      }
    }
  }

  /** The step publisher p takes next in its batch, whatever a handler does and whatever the clock says. */
  function OwnStep(w: World, cfg: Config, p: nat, r: Reaction, now: Instant): Step
    requires PublishersSound(w, cfg) && PublisherAt(w, p).Working?
  {
    assert PublisherSound(w, cfg, PublisherAt(w, p));
    var pub := PublisherAt(w, p);
    if pub.at == |pub.batch| then Publish(p, now)
    else if pub.reg == |RegsOf(w, cfg, pub.batch[pub.at])| then NextEvent(p)
    else Attempt(p, r, now)
  }

  /**
   * Nothing waits for anything: events can always be emitted, a process at work always has its
   * next step, and an idle one can claim whatever batch the query gives, empty or of a lease
   * that ends within the calendar.
   */
  lemma NobodyWaits(w: World, cfg: Config, p: nat, r: Reaction, d: Draft, limit: int, ids: seq<EventId>, now: Instant)
    requires PublishersSound(w, cfg)
    ensures Enabled(w, cfg, Emit(d)) && Enabled(w, cfg, Crash(p))
    ensures PublisherAt(w, p).Working? ==> Enabled(w, cfg, OwnStep(w, cfg, p, r, now))
    ensures Enabled(w, cfg, Claim(p, ids, limit, now)) <==>
            && PublisherAt(w, p).Idle? && IsBatch(w.store.events, now, limit, ids)
            && (ids != [] ==> 0 <= now + cfg.lease < SECONDS * MICROS_PER_SECOND)
  {
    hide IsBatch;
    assert PublisherSound(w, cfg, PublisherAt(w, p));
  }

  // --------------------------------------- what a run leaves in the database

  function DraftOf(e: Event): Draft { Draft(e.kind, e.source, e.payload, e.createdAt) }

  function Drafts(events: seq<Event>): (r: seq<Draft>)
    ensures |r| == |events| && forall i :: 0 <= i < |r| ==> r[i] == DraftOf(events[i])
  {
    seq(|events|, i requires 0 <= i < |events| => DraftOf(events[i]))
  }

  /** The events as they were emitted, the marks, and every other table. */
  datatype Content = Content(drafts: seq<Draft>, marks: map<(EventId, string), Instant>, rows: Rows)

  function ContentOf(s: Store): Content { Content(Drafts(s.events), s.marks, s.rows) }

  /** The event and consumer whose turn an attempt is. */
  ghost function TurnOf(w: World, cfg: Config, s: Step): (EventId, string)
    requires Enabled(w, cfg, s) && s.Attempt?
  {
    var pub := PublisherAt(w, s.p);
    (pub.batch[pub.at], RegsOf(w, cfg, pub.batch[pub.at])[pub.reg].consumer)
  }

  /** A reaction of an unmarked pair that returned adds its writes, its events and its mark; an emission its event. */
  ghost function Contributed(c: Content, w: World, cfg: Config, s: Step): Content
    requires Enabled(w, cfg, s)
  {
    match s
    case Emit(d) => c.(drafts := c.drafts + [d])
    case Attempt(p, r, now) =>
      if r.raised || TurnOf(w, cfg, s) in c.marks then c
      else Content(c.drafts + r.emitted, c.marks[TurnOf(w, cfg, s) := now], r.rows)
    case _ => c
  }

  ghost function ContentAfter(c: Content, w: World, cfg: Config, steps: seq<Step>): Content
    decreases |steps|
  {
    if steps == [] || !Enabled(w, cfg, steps[0]) then c
    else ContentAfter(Contributed(c, w, cfg, steps[0]), Apply(w, cfg, steps[0]), cfg, steps[1..])
  }

  lemma StepContributes(w: World, cfg: Config, s: Step)
    requires Enabled(w, cfg, s)
    ensures ContentOf(Apply(w, cfg, s).store) == Contributed(ContentOf(w.store), w, cfg, s)
  {
    hide IsBatch;
    var before, after := w.store.events, Apply(w, cfg, s).store.events;
    match s
    case Emit(d) => DraftsAppend(before, [d]);
    case Attempt(_, r, _) => DraftsAppend(before, r.emitted);
    case _ => SameDrafts(before, after);
  }

  lemma DraftsAppend(events: seq<Event>, ds: seq<Draft>)
    ensures Drafts(events + NewRows(ds)) == Drafts(events) + ds
    ensures |ds| == 1 ==> Drafts(events + [NewRow(ds[0])]) == Drafts(events) + ds
  {
  }

  lemma SameDrafts(a: seq<Event>, b: seq<Event>)
    requires |a| == |b| && forall i :: 0 <= i < |a| ==> DraftOf(a[i]) == DraftOf(b[i])
    ensures Drafts(a) == Drafts(b)
  {
  }

  /** What a run leaves is what its emissions and its successful reactions contributed, in order. */
  lemma {:induction false} RunIsItsContributions(w: World, cfg: Config, steps: seq<Step>, last: World)
    requires Runs(w, cfg, steps, last)
    ensures ContentOf(last.store) == ContentAfter(ContentOf(w.store), w, cfg, steps)
    decreases |steps|
  {
    hide ContentOf;
    hide Contributed;
    hide Apply;
    hide Enabled;
    if steps != [] {
      StepContributes(w, cfg, steps[0]);
      RunIsItsContributions(Apply(w, cfg, steps[0]), cfg, steps[1..], last);
    }
  }

  datatype Delivery = Delivery(claimedAt: Option<Instant>, claimExpires: Option<Instant>, publishedAt: Option<Instant>)

  /** The delivery columns of a row, empty until there is one. */
  function DeliveryOf(w: World, id: EventId): Delivery {
    if id < |w.store.events|
    then Delivery(w.store.events[id].claimedAt, w.store.events[id].claimExpires, w.store.events[id].publishedAt)
    else Delivery(None, None, None)
  }

  /** A claim sets both its columns, a publisher done with its batch the third; nothing else does. */
  ghost function Stamped(d: Delivery, w: World, cfg: Config, s: Step, id: EventId): Delivery {
    match s
    case Claim(_, ids, _, now) =>
      if id in ids then Delivery(Some(now), Plus(now, cfg.lease), d.publishedAt) else d
    case Publish(p, now) =>
      if PublisherAt(w, p).Working? && id in PublisherAt(w, p).batch then d.(publishedAt := Some(now)) else d
    case _ => d
  }

  ghost function DeliveryAfter(d: Delivery, w: World, cfg: Config, steps: seq<Step>, id: EventId): Delivery
    decreases |steps|
  {
    if steps == [] || !Enabled(w, cfg, steps[0]) then d
    else DeliveryAfter(Stamped(d, w, cfg, steps[0], id), Apply(w, cfg, steps[0]), cfg, steps[1..], id)
  }

  lemma StepStamps(w: World, cfg: Config, s: Step, id: EventId)
    requires Enabled(w, cfg, s) && PublishersSound(w, cfg)
    ensures DeliveryOf(Apply(w, cfg, s), id) == Stamped(DeliveryOf(w, id), w, cfg, s, id)
  {
    if s.Publish? {
      assert PublisherSound(w, cfg, PublisherAt(w, s.p));
    }
  }

  /** The delivery columns are those of the latest claim and the latest publication. */
  lemma {:induction false} RunIsItsStamps(w: World, cfg: Config, steps: seq<Step>, last: World, id: EventId)
    requires Runs(w, cfg, steps, last) && PublishersSound(w, cfg)
    ensures DeliveryOf(last, id) == DeliveryAfter(DeliveryOf(w, id), w, cfg, steps, id)
    decreases |steps|
  {
    hide PublishersSound;
    hide DeliveryOf;
    hide Stamped;
    hide Apply;
    hide Enabled;
    if steps != [] {
      StepStamps(w, cfg, steps[0], id);
      StepKeepsPublishers(w, cfg, steps[0]);
      RunIsItsStamps(Apply(w, cfg, steps[0]), cfg, steps[1..], last, id);
    }
  }

  /**
   * When the text comparison lets an event be claimed again before its lease is over:
   * exactly in the whole second in which a lease with a fraction ends.
   */
  lemma ReclaimedEarlyIff(w: World, cfg: Config, s: Step, id: EventId)
    requires Inv(w, cfg) && Enabled(w, cfg, s) && ClaimOf(s, id) && id < |w.store.events|
    requires w.store.events[id].claimedAt.Some?
    ensures var end := w.store.events[id].claimedAt.value + cfg.lease;
            && 0 <= end < SECONDS * MICROS_PER_SECOND
            && (s.now < end <==> Second(s.now) == Second(end) && Whole(s.now) && !Whole(end))
  {
    assert ClaimLogged(w, cfg, id) && Claimable(w.store.events[id], s.now);
    hide IsBatch;
    hide Apply;
  }

  /** Once published, in no continuation is an event unpublished or claimed again. */
  lemma {:induction false} PublishedNeverReclaimed(w: World, cfg: Config, steps: seq<Step>, last: World, id: EventId)
    requires Runs(w, cfg, steps, last)
    requires id < |w.store.events| && w.store.events[id].publishedAt.Some?
    ensures id < |last.store.events| && last.store.events[id].publishedAt.Some?
    ensures last.store.events[id].claimedAt == w.store.events[id].claimedAt
    ensures last.store.events[id].claimExpires == w.store.events[id].claimExpires
    ensures forall k :: 0 <= k < |steps| ==> !ClaimOf(steps[k], id)
    decreases |steps|
  {
    if steps != [] {
      var s, v := steps[0], Apply(w, cfg, steps[0]);
      StepGrows(w, cfg, s);
      assert !ClaimOf(s, id);
      ClaimsAreLogged(w, cfg, s, id);
      hide Apply;
      hide Enabled;
      PublishedNeverReclaimed(v, cfg, steps[1..], last, id);
      forall k | 0 <= k < |steps| ensures !ClaimOf(steps[k], id) {
        if k > 0 {
          assert steps[k] == steps[1..][k - 1];
        }
      }
    }
  }

  ghost predicate Held(w: World, id: EventId) {
    exists p :: PublisherAt(w, p).Working? && id in PublisherAt(w, p).batch
  }

  /**
   * The second lost by comparing texts is real: an event claimed half a second
   * past, with a five-minute lease, can be claimed again half a second early.
   */
  lemma LeaseCanEndEarly(e: Event)
    requires e.publishedAt.None? && e.claimedAt == Some(500_000) && e.claimExpires == Some(300_500_000)
    ensures 300_000_000 < SECONDS * MICROS_PER_SECOND && Claimable(e, 300_000_000)
    ensures Plus(500_000, 300_000_000) == Some(300_500_000)
    ensures !Claimable(e, 300_499_999)
  {
  }
}
