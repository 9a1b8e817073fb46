/**
 * infrastructure/consumer_registry.py, process_pending_events: claim, dispatch
 * and publish in rounds until a claim comes back empty.
 */
module PublisherLoop {
  import opened Wrappers
  import opened TimeFormat
  import opened Outbox
  import opened Dispatch
  import FB = FaultBoundary

  /** `choose` is how the database answers the query where it leaves a choice. */
  datatype Settings = Settings(limit: int, lease: int, breakerLimits: FB.Limits, choose: Chooser)

  datatype Stop = Drained | RoundsUsed | ClaimRaised

  /** What one call leaves, every id it claimed in order, and why it stopped. */
  datatype Pass = Pass(sys: System, claimed: seq<EventId>, claims: nat, ran: nat, stop: Stop)

  function WithEvents(sys: System, events: seq<Event>): System {
    sys.(store := sys.store.(events := events))
  }

  /** Dispatch the claimed events one after the other. */
  function DispatchBatch(sys: System, cfg: Settings, registry: Registry, ids: seq<EventId>, now: Instant)
    : (r: (System, nat))
    requires Ids(sys.store.events, ids)
    ensures sys.store.events <= r.0.store.events
    decreases |ids|
  {
    if ids == [] then (sys, 0)
    else
      var regs := RegistrationsFor(registry, sys.store.events[ids[0]].kind);
      var (next, outcomes) := DispatchAll(sys, cfg.breakerLimits, ids[0], regs, now);
      var (last, ran) := DispatchBatch(next, cfg, registry, ids[1..], now);
      (last, CountRan(outcomes) + ran)
  }

  /** One round after a non-empty claim: mark the claims, dispatch, publish. */
  function Round(sys: System, cfg: Settings, registry: Registry, ids: seq<EventId>, now: Instant, expires: Instant)
    : (System, nat)
    requires Ids(sys.store.events, ids)
  {
    var (done, ran) :=
      DispatchBatch(WithEvents(sys, SetClaims(sys.store.events, ids, now, expires)), cfg, registry, ids, now);
    (WithEvents(done, SetPublished(done.store.events, ids, now)), ran)
  }

  /** One turn of the loop body. */
  datatype Turn = NothingClaimed | ClaimFailed | Handled(next: System, ids: seq<EventId>, ran: nat)

  function TakeTurn(sys: System, cfg: Settings, registry: Registry, now: Instant): Turn {
    var ids := cfg.choose(sys.store.events, now, cfg.limit);
    ChosenIsBatch(cfg.choose, sys.store.events, now, cfg.limit);
    if ids == [] then NothingClaimed
    else
      match Plus(now, cfg.lease)
      case None => ClaimFailed
      case Some(expires) =>
        var (next, ran) := Round(sys, cfg, registry, ids, now, expires);
        Handled(next, ids, ran)
  }

  /** `for _round in range(rounds)` over any loop body. */
  function Loop(turn: System -> Turn, sys: System, rounds: int): Pass
    decreases rounds
  {
    if rounds <= 0 then Pass(sys, [], 0, 0, RoundsUsed)
    else
      match turn(sys)
      case NothingClaimed => Pass(sys, [], 1, 0, Drained)
      case ClaimFailed => Pass(sys, [], 1, 0, ClaimRaised)
      case Handled(next, ids, ran) =>
        var rest := Loop(turn, next, rounds - 1);
        Pass(rest.sys, ids + rest.claimed, 1 + rest.claims, ran + rest.ran, rest.stop)
  }

  function Body(cfg: Settings, registry: Registry, now: Instant): System -> Turn {
    sys => TakeTurn(sys, cfg, registry, now)
  }

  function Process(sys: System, cfg: Settings, registry: Registry, now: Instant, rounds: int): Pass {
    Loop(Body(cfg, registry, now), sys, rounds)
  }

  method ProcessPendingEvents(db: OutboxDatabase, registry: ConsumerRegistry, cfg: Settings, now: Instant,
                              maxCascadeRounds: int)
    returns (totalRan: nat, raised: bool)
    requires registry.breakerLimits == cfg.breakerLimits && db.choose == cfg.choose
    modifies db, registry
    ensures registry.registrations == old(registry.registrations)
    ensures var pass := Process(old(registry.SystemWith(db)), cfg, registry.registrations, now, maxCascadeRounds);
            && registry.SystemWith(db) == pass.sys
            && (raised <==> pass.stop == ClaimRaised)
            && (!raised ==> totalRan == pass.ran)
  {
    hide TakeTurn;
    totalRan, raised := 0, false;
    ghost var turn := Body(cfg, registry.registrations, now);
    ghost var here := registry.SystemWith(db);
    ghost var pass := Loop(turn, here, maxCascadeRounds);
    var round := maxCascadeRounds;
    while round > 0
      invariant registry.registrations == old(registry.registrations)
      invariant here == registry.SystemWith(db)
      invariant var rest := Loop(turn, here, round);
                pass.sys == rest.sys && pass.ran == totalRan + rest.ran && pass.stop == rest.stop
      decreases round
    {
      ghost var t := turn(here);
      LoopStep(turn, here, round);
      var claimed, ran := RunRound(db, registry, cfg, now, t);
      here := registry.SystemWith(db);
      if claimed.Failure? {
        raised := true;
        return;
      }
      if claimed.value == [] {
        return;
      }
      totalRan := totalRan + ran;
      round := round - 1;
    }
  }

  lemma LoopStep(turn: System -> Turn, sys: System, rounds: int)
    requires rounds > 0
    ensures var pass := Loop(turn, sys, rounds);
            match turn(sys)
            case NothingClaimed => pass.sys == sys && pass.ran == 0 && pass.stop == Drained
            case ClaimFailed => pass.sys == sys && pass.ran == 0 && pass.stop == ClaimRaised
            case Handled(next, _, ran) =>
              var rest := Loop(turn, next, rounds - 1);
              pass.sys == rest.sys && pass.ran == ran + rest.ran && pass.stop == rest.stop
  {
  }

  /** The body of one round: claim; dispatch each claimed event; mark them published. */
  method RunRound(db: OutboxDatabase, registry: ConsumerRegistry, cfg: Settings, now: Instant, ghost t: Turn)
    returns (claimed: Result<seq<EventId>, ClaimError>, ran: nat)
    requires registry.breakerLimits == cfg.breakerLimits && db.choose == cfg.choose
    requires t == TakeTurn(registry.SystemWith(db), cfg, registry.registrations, now)
    modifies db, registry
    ensures registry.registrations == old(registry.registrations)
    ensures match t
            case NothingClaimed => claimed == Success([]) && registry.SystemWith(db) == old(registry.SystemWith(db))
            case ClaimFailed => claimed.Failure? && registry.SystemWith(db) == old(registry.SystemWith(db))
            case Handled(next, ids, n) =>
              ids != [] && claimed == Success(ids) && ran == n && registry.SystemWith(db) == next
  {
    ran := 0;
    claimed := db.ClaimPendingEvents(cfg.limit, now, cfg.lease);
    if claimed.Success? && claimed.value != [] {
      ran := DispatchClaimed(db, registry, cfg, claimed.value, now);
      db.MarkPublished(claimed.value, now);
    }
  }

  /** `for event in claimed: total_ran += registry.dispatch(...)`. */
  method DispatchClaimed(db: OutboxDatabase, registry: ConsumerRegistry, cfg: Settings, ids: seq<EventId>, now: Instant)
    returns (ran: nat)
    requires registry.breakerLimits == cfg.breakerLimits && Ids(db.events, ids)
    modifies db, registry
    ensures registry.registrations == old(registry.registrations) && old(db.events) <= db.events
    ensures (registry.SystemWith(db), ran)
         == DispatchBatch(old(registry.SystemWith(db)), cfg, registry.registrations, ids, now)
  {
    hide DispatchAll;
    ran := 0;
    ghost var whole := DispatchBatch(registry.SystemWith(db), cfg, registry.registrations, ids, now);
    for i := 0 to |ids|
      invariant registry.registrations == old(registry.registrations) && old(db.events) <= db.events
      invariant Ids(db.events, ids)
      invariant var rest := DispatchBatch(registry.SystemWith(db), cfg, registry.registrations, ids[i..], now);
                whole == (rest.0, ran + rest.1)
    {
      BatchStep(registry.SystemWith(db), cfg, registry.registrations, ids, i, now);
      var n := registry.Dispatch(db, ids[i], now);
      ran := ran + n;
    }
    assert ids[|ids|..] == [];
  }

  lemma BatchStep(sys: System, cfg: Settings, registry: Registry, ids: seq<EventId>, i: nat, now: Instant)
    requires Ids(sys.store.events, ids) && i < |ids|
    ensures var (next, outcomes) := DispatchAll(sys, cfg.breakerLimits, ids[i],
                                      RegistrationsFor(registry, sys.store.events[ids[i]].kind), now);
            var rest := DispatchBatch(next, cfg, registry, ids[i + 1..], now);
            DispatchBatch(sys, cfg, registry, ids[i..], now) == (rest.0, CountRan(outcomes) + rest.1)
  {
    hide DispatchAll;
    var tail := ids[i..];
    assert tail[0] == ids[i] && tail[1..] == ids[i + 1..] && Ids(sys.store.events, tail);
  }

  // ------------------------------------------------------------ what a round does

  /** A row as write_event leaves it. */
  predicate Unclaimed(e: Event) {
    e.claimedAt.None? && e.claimExpires.None? && e.publishedAt.None?
  }

  /** `after` is `before` with rows added that nobody has touched. */
  ghost predicate Extends(before: seq<Event>, after: seq<Event>) {
    before <= after && forall i :: |before| <= i < |after| ==> Unclaimed(after[i])
  }

  lemma DeliverExtends(sys: System, lim: FB.Limits, id: EventId, reg: Registration, now: Instant)
    requires id < |sys.store.events|
    ensures Extends(sys.store.events, Deliver(sys, lim, id, reg, now).0.store.events)
  {
  }

  lemma {:induction false} DispatchExtends(sys: System, lim: FB.Limits, id: EventId, regs: seq<Registration>, now: Instant)
    requires id < |sys.store.events|
    ensures Extends(sys.store.events, DispatchAll(sys, lim, id, regs, now).0.store.events)
    decreases |regs|
  {
    if regs != [] {
      DeliverExtends(sys, lim, id, regs[0], now);
      DispatchExtends(Deliver(sys, lim, id, regs[0], now).0, lim, id, regs[1..], now);
    }
  }

  lemma {:induction false} BatchExtends(sys: System, cfg: Settings, registry: Registry, ids: seq<EventId>, now: Instant)
    requires Ids(sys.store.events, ids)
    ensures Extends(sys.store.events, DispatchBatch(sys, cfg, registry, ids, now).0.store.events)
    decreases |ids|
  {
    if ids != [] {
      var regs := RegistrationsFor(registry, sys.store.events[ids[0]].kind);
      DispatchExtends(sys, cfg.breakerLimits, ids[0], regs, now);
      BatchExtends(DispatchAll(sys, cfg.breakerLimits, ids[0], regs, now).0, cfg, registry, ids[1..], now);
    }
  }

  /** The events after a round: the batch published now, the others as they were, the new ones untouched. */
  lemma RoundEvents(sys: System, cfg: Settings, registry: Registry, ids: seq<EventId>, now: Instant, expires: Instant)
    requires Ids(sys.store.events, ids)
    ensures var before, after := sys.store.events, Round(sys, cfg, registry, ids, now, expires).0.store.events;
            && |before| <= |after|
            && (forall i :: 0 <= i < |before| ==>
                  after[i] == if i !in ids then before[i]
                              else before[i].(claimedAt := Some(now), claimExpires := Some(expires), publishedAt := Some(now)))
            && (forall i :: |before| <= i < |after| ==> Unclaimed(after[i]))
  {
    var claimed := WithEvents(sys, SetClaims(sys.store.events, ids, now, expires));
    BatchExtends(claimed, cfg, registry, ids, now);
    hide DispatchBatch;
    var n, done := |sys.store.events|, DispatchBatch(claimed, cfg, registry, ids, now).0.store.events;
    forall i | 0 <= i < n ensures done[i] == claimed.store.events[i] {
    }
  }

  // --------------------------------------------------------- what a whole call does

  /**
   * At most max_cascade_rounds claims; no event is claimed twice; everything
   * claimed was unpublished before and is published now; every other event that
   * existed keeps its row.
   */
  lemma ProcessPublishesItsClaims(sys: System, cfg: Settings, registry: Registry, now: Instant, rounds: int)
    ensures var pass := Process(sys, cfg, registry, now, rounds);
            && pass.claims <= (if rounds < 0 then 0 else rounds)
            && PublishedExactly(sys.store.events, pass.sys.store.events, pass.claimed, now)
  {
    forall s: System | TakeTurn(s, cfg, registry, now).Handled? ensures TurnPublishes(s, TakeTurn(s, cfg, registry, now), now) {
      RoundPublishes(s, cfg, registry, now);
    }
    LoopPublishes(Body(cfg, registry, now), sys, rounds, now);
  }

  /** How many claims: all the rounds that are allowed, unless a claim was empty or raised; that one is the last. */
  lemma ClaimsCounted(sys: System, cfg: Settings, registry: Registry, now: Instant, rounds: int)
    ensures var pass := Process(sys, cfg, registry, now, rounds);
            && (pass.stop == RoundsUsed ==> pass.claims == (if rounds < 0 then 0 else rounds))
            && (pass.stop != RoundsUsed ==> 1 <= pass.claims <= rounds)
            && pass.claims <= |pass.claimed| + (if pass.stop == RoundsUsed then 0 else 1)
  {
    forall s: System | TakeTurn(s, cfg, registry, now).Handled? ensures TakeTurn(s, cfg, registry, now).ids != [] {
      HandledClaims(s, cfg, registry, now);
    }
    LoopCounts(Body(cfg, registry, now), sys, rounds);
  }

  lemma HandledClaims(s: System, cfg: Settings, registry: Registry, now: Instant)
    requires TakeTurn(s, cfg, registry, now).Handled?
    ensures TakeTurn(s, cfg, registry, now).ids != []
  {
    hide Round;
  }

  lemma {:induction false} LoopCounts(turn: System -> Turn, sys: System, rounds: int)
    requires forall s :: turn(s).Handled? ==> turn(s).ids != []
    ensures var pass := Loop(turn, sys, rounds);
            && (pass.stop == RoundsUsed ==> pass.claims == (if rounds < 0 then 0 else rounds))
            && (pass.stop != RoundsUsed ==> 1 <= pass.claims <= rounds)
            && pass.claims <= |pass.claimed| + (if pass.stop == RoundsUsed then 0 else 1)
    decreases rounds
  {
    if rounds > 0 && turn(sys).Handled? {
      LoopCounts(turn, turn(sys).next, rounds - 1);
    }
  }

  ghost predicate TurnPublishes(before: System, t: Turn, now: Instant) {
    t.Handled? ==> PublishedExactly(before.store.events, t.next.store.events, t.ids, now)
  }

  lemma {:induction false} LoopPublishes(turn: System -> Turn, sys: System, rounds: int, now: Instant)
    requires forall s :: TurnPublishes(s, turn(s), now)
    ensures var pass := Loop(turn, sys, rounds);
            && pass.claims <= (if rounds < 0 then 0 else rounds)
            && PublishedExactly(sys.store.events, pass.sys.store.events, pass.claimed, now)
    decreases rounds
  {
    if rounds > 0 && turn(sys).Handled? {
      var next, ids := turn(sys).next, turn(sys).ids;
      assert TurnPublishes(sys, turn(sys), now);
      hide PublishedExactly;
      LoopPublishes(turn, next, rounds - 1, now);
      var rest := Loop(turn, next, rounds - 1);
      PublishedCompose(sys.store.events, next.store.events, rest.sys.store.events, ids, rest.claimed, now);
    }
  }

  /**
   * From `before` to `after` exactly the claimed rows were published, each once, each
   * at `now`; the others are as they were, or as they were written.
   */
  ghost predicate PublishedExactly(before: seq<Event>, after: seq<Event>, claimed: seq<EventId>, now: Instant) {
    && |before| <= |after| && Distinct(claimed) && Ids(after, claimed)
    && (forall id :: id in claimed ==> after[id].publishedAt == Some(now))
    && (forall id :: 0 <= id < |before| && id in claimed ==> before[id].publishedAt.None?)
    && (forall id :: 0 <= id < |before| && id !in claimed ==> after[id] == before[id])
    && (forall id :: |before| <= id < |after| && id !in claimed ==> Unclaimed(after[id]))
  }

  lemma RoundPublishes(sys: System, cfg: Settings, registry: Registry, now: Instant)
    requires TakeTurn(sys, cfg, registry, now).Handled?
    ensures TurnPublishes(sys, TakeTurn(sys, cfg, registry, now), now)
  {
    ChosenIsBatch(cfg.choose, sys.store.events, now, cfg.limit);
    RoundEvents(sys, cfg, registry, cfg.choose(sys.store.events, now, cfg.limit), now, Plus(now, cfg.lease).value);
  }

  lemma PublishedCompose(a: seq<Event>, b: seq<Event>, c: seq<Event>, first: seq<EventId>, second: seq<EventId>, now: Instant)
    requires PublishedExactly(a, b, first, now) && PublishedExactly(b, c, second, now)
    ensures PublishedExactly(a, c, first + second, now)
  {
    forall id | id in first ensures id !in second && c[id].publishedAt == Some(now) {
      assert b[id].publishedAt == Some(now);
    }
    var all := first + second;
    forall i, j | 0 <= i < j < |all| ensures all[i] != all[j] {
      if i < |first| && j >= |first| {
        assert first[i] in first && second[j - |first|] in second;
      }
    }
  }

  /**
   * Stopping on an empty claim leaves nothing to claim exactly unless the call was
   * asked for batches of size zero while there was something to claim.
   */
  lemma DrainedMeansNothingClaimable(sys: System, cfg: Settings, registry: Registry, now: Instant, rounds: int)
    requires Process(sys, cfg, registry, now, rounds).stop == Drained
    ensures NothingClaimable(Process(sys, cfg, registry, now, rounds).sys, now) <==>
            cfg.limit != 0 || NothingClaimable(sys, now)
  {
    if cfg.limit == 0 {
      ZeroBatchStopsAtOnce(sys, cfg, registry, now, rounds);
    } else {
      var turn := Body(cfg, registry, now);
      DrainedLoopEndsEmpty(turn, sys, rounds);
      var last := Loop(turn, sys, rounds).sys;
      assert TakeTurn(last, cfg, registry, now).NothingClaimed?;
      EmptySelection(last, cfg, now);
    }
  }

  /** With batches of size zero the first claim is empty, whatever is waiting: one claim, and nothing is done. */
  lemma ZeroBatchStopsAtOnce(sys: System, cfg: Settings, registry: Registry, now: Instant, rounds: int)
    requires cfg.limit == 0 && rounds > 0
    ensures Process(sys, cfg, registry, now, rounds) == Pass(sys, [], 1, 0, Drained)
  {
    ChosenIsBatch(cfg.choose, sys.store.events, now, 0);
    assert TakeTurn(sys, cfg, registry, now).NothingClaimed?;
  }

  lemma {:induction false} DrainedLoopEndsEmpty(turn: System -> Turn, sys: System, rounds: int)
    requires Loop(turn, sys, rounds).stop == Drained
    ensures turn(Loop(turn, sys, rounds).sys).NothingClaimed?
    decreases rounds
  {
    if turn(sys).Handled? {
      DrainedLoopEndsEmpty(turn, turn(sys).next, rounds - 1);
    }
  }

  lemma EmptySelection(sys: System, cfg: Settings, now: Instant)
    requires cfg.choose(sys.store.events, now, cfg.limit) == []
    ensures cfg.limit == 0 || NothingClaimable(sys, now)
  {
    ChosenIsBatch(cfg.choose, sys.store.events, now, cfg.limit);
    EmptyBatch(sys.store.events, now, cfg.limit);
  }

  ghost predicate NothingClaimable(sys: System, now: Instant) {
    forall i :: 0 <= i < |sys.store.events| ==> !Claimable(sys.store.events[i], now)
  }

  // ------------------------------------------------------------- draining a cascade

  type Rank = string -> nat

  ghost predicate EmitsBelow(emitted: seq<Draft>, rank: Rank, r: nat) {
    forall i :: 0 <= i < |emitted| ==> rank(emitted[i].kind) < r
  }

  /** Handlers emit only events of strictly lower rank than the one they handle. */
  ghost predicate Lowering(registry: Registry, rank: Rank) {
    forall kind: string, reg: Registration, rows: Rows, e: Event ::
      reg in RegistrationsFor(registry, kind) && e.kind == kind ==> EmitsBelow((reg.handler)(rows, e).emitted, rank, rank(kind))
  }

  /** Rows from `from` on have rank below `r`. */
  ghost predicate NewRanksBelow(events: seq<Event>, from: nat, rank: Rank, r: nat) {
    forall i :: from <= i < |events| ==> rank(events[i].kind) < r
  }

  ghost predicate ClaimableRanksBelow(sys: System, now: Instant, rank: Rank, r: nat) {
    forall i :: 0 <= i < |sys.store.events| && Claimable(sys.store.events[i], now) ==> rank(sys.store.events[i].kind) < r
  }

  /** No more events are claimable than a batch may hold. */
  predicate BacklogWithin(events: seq<Event>, now: Instant, limit: int) {
    limit < 0 || |Queue(events, now, |events|)| <= limit
  }

  /** So it is at the start of each of the next rounds. */
  ghost predicate BacklogFits(turn: System -> Turn, sys: System, limit: int, now: Instant, rounds: int)
    decreases rounds
  {
    rounds > 0 ==>
      && BacklogWithin(sys.store.events, now, limit)
      && (turn(sys).Handled? ==> BacklogFits(turn, turn(sys).next, limit, now, rounds - 1))
  }

  function Members(ids: seq<EventId>): set<EventId> {
    set id | id in ids
  }

  lemma MembersSnoc(ids: seq<EventId>)
    requires ids != []
    ensures Members(ids) == Members(ids[..|ids| - 1]) + {ids[|ids| - 1]}
  {
    var last, rest := ids[|ids| - 1], ids[..|ids| - 1];
    assert ids == rest + [last];
  }

  lemma {:induction false} DistinctCount(ids: seq<EventId>)
    requires Distinct(ids)
    ensures |Members(ids)| == |ids|
  {
    if ids != [] {
      MembersSnoc(ids);
      DistinctCount(ids[..|ids| - 1]);
      assert ids[|ids| - 1] !in Members(ids[..|ids| - 1]);
      hide Members;
    }
  }

  /** Distinct members of `all` that leave one out are fewer. */
  lemma FewerThanAll(ids: seq<EventId>, all: seq<EventId>, c: EventId)
    requires Distinct(ids) && Distinct(all) && c in all && c !in ids && forall id :: id in ids ==> id in all
    ensures |ids| < |all|
  {
    DistinctCount(ids);
    DistinctCount(all);
    hide Distinct;
    assert c !in Members(ids) && Members(ids) + {c} <= Members(all);
    hide Members;
    SubsetCount(Members(ids) + {c}, Members(all));
  }

  /** A batch of a backlog that fits it holds all that is claimable. */
  lemma BatchTakesAll(events: seq<Event>, now: Instant, limit: int, ids: seq<EventId>, c: EventId)
    requires IsBatch(events, now, limit, ids) && BacklogWithin(events, now, limit)
    requires c < |events| && Claimable(events[c], now)
    ensures c in ids
  {
    hide Claimable;
    hide Distinct;
    hide Ordered;
    hide Queue;
    if c !in ids {
      QueueFacts(events, now, |events|);
      FewerThanAll(ids, Queue(events, now, |events|), c);
    }
  }

  lemma {:induction false} SubsetCount(a: set<EventId>, b: set<EventId>)
    requires a <= b
    ensures |a| <= |b|
  {
    assert b == a + (b - a);
  }

  lemma {:induction false} DispatchLowers(sys: System, lim: FB.Limits, id: EventId, regs: seq<Registration>, now: Instant,
                                          registry: Registry, rank: Rank, r: nat, from: nat)
    requires id < |sys.store.events| && from <= |sys.store.events|
    requires Lowering(registry, rank) && rank(sys.store.events[id].kind) <= r
    requires forall reg :: reg in regs ==> reg in RegistrationsFor(registry, sys.store.events[id].kind)
    requires NewRanksBelow(sys.store.events, from, rank, r)
    ensures NewRanksBelow(DispatchAll(sys, lim, id, regs, now).0.store.events, from, rank, r)
    decreases |regs|
  {
    if regs != [] {
      DeliverGrows(sys, lim, id, regs[0], now);
      DeliverLowers(sys, lim, id, regs[0], now, registry, rank, r);
      hide Deliver;
      hide Lowering;
      DispatchLowers(Deliver(sys, lim, id, regs[0], now).0, lim, id, regs[1..], now, registry, rank, r, from);
    }
  }

  /** What one registration emits ranks below the event it handles. */
  lemma DeliverLowers(sys: System, lim: FB.Limits, id: EventId, reg: Registration, now: Instant,
                      registry: Registry, rank: Rank, r: nat)
    requires id < |sys.store.events| && Lowering(registry, rank) && rank(sys.store.events[id].kind) <= r
    requires reg in RegistrationsFor(registry, sys.store.events[id].kind)
    ensures NewRanksBelow(Deliver(sys, lim, id, reg, now).0.store.events, |sys.store.events|, rank, r)
  {
    var e, after := sys.store.events[id], Deliver(sys, lim, id, reg, now).0.store.events;
    var emitted := (reg.handler)(sys.store.rows, e).emitted;
    assert EmitsBelow(emitted, rank, rank(e.kind));
    assert after == sys.store.events || after == sys.store.events + NewRows(emitted);
  }

  lemma {:induction false} BatchLowers(sys: System, cfg: Settings, registry: Registry, ids: seq<EventId>, now: Instant,
                                       rank: Rank, r: nat, from: nat)
    requires Ids(sys.store.events, ids) && from <= |sys.store.events| && Lowering(registry, rank)
    requires forall k :: 0 <= k < |ids| ==> rank(sys.store.events[ids[k]].kind) <= r
    requires NewRanksBelow(sys.store.events, from, rank, r)
    ensures NewRanksBelow(DispatchBatch(sys, cfg, registry, ids, now).0.store.events, from, rank, r)
    decreases |ids|
  {
    if ids != [] {
      var regs := RegistrationsFor(registry, sys.store.events[ids[0]].kind);
      DispatchLowers(sys, cfg.breakerLimits, ids[0], regs, now, registry, rank, r, from);
      var next := DispatchAll(sys, cfg.breakerLimits, ids[0], regs, now).0;
      BatchLowers(next, cfg, registry, ids[1..], now, rank, r, from);
    }
  }

  /** A round over everything claimable lowers the highest claimable rank. */
  lemma RoundLowers(sys: System, cfg: Settings, registry: Registry, ids: seq<EventId>, now: Instant, expires: Instant,
                    rank: Rank, r: nat)
    requires Lowering(registry, rank) && ClaimableRanksBelow(sys, now, rank, r + 1) && Ids(sys.store.events, ids)
    requires forall id :: 0 <= id < |sys.store.events| ==> (id in ids <==> Claimable(sys.store.events[id], now))
    ensures ClaimableRanksBelow(Round(sys, cfg, registry, ids, now, expires).0, now, rank, r)
  {
    forall id | id in ids ensures id < |sys.store.events| && rank(sys.store.events[id].kind) <= r {
    }
    RoundEvents(sys, cfg, registry, ids, now, expires);
    RoundRanks(sys, cfg, registry, ids, now, expires, rank, r);
    hide Round;
    hide Lowering;
    var after := Round(sys, cfg, registry, ids, now, expires).0.store.events;
    forall i | 0 <= i < |sys.store.events| ensures !Claimable(after[i], now) {
      assert i in ids <==> Claimable(sys.store.events[i], now);
    }
  }

  /** The rows a round adds, when no claimed event ranks above `r`. */
  lemma RoundRanks(sys: System, cfg: Settings, registry: Registry, ids: seq<EventId>, now: Instant, expires: Instant,
                   rank: Rank, r: nat)
    requires Ids(sys.store.events, ids) && Lowering(registry, rank)
    requires forall id :: id in ids ==> rank(sys.store.events[id].kind) <= r
    ensures NewRanksBelow(Round(sys, cfg, registry, ids, now, expires).0.store.events, |sys.store.events|, rank, r)
  {
    hide Lowering;
    var claimed := WithEvents(sys, SetClaims(sys.store.events, ids, now, expires));
    forall k | 0 <= k < |ids| ensures rank(claimed.store.events[ids[k]].kind) <= r {
      assert ids[k] in ids;
    }
    BatchLowers(claimed, cfg, registry, ids, now, rank, r, |sys.store.events|);
    hide DispatchBatch;
  }

  /**
   * A sole publisher drains a cascade of claimable rank below `r` in `r` rounds,
   * and one more claim sees that it is drained.
   */
  lemma CascadeDrains(sys: System, cfg: Settings, registry: Registry, now: Instant, rounds: int, rank: Rank, r: nat)
    requires Lowering(registry, rank) && ClaimableRanksBelow(sys, now, rank, r)
    requires BacklogFits(Body(cfg, registry, now), sys, cfg.limit, now, rounds)
    requires Plus(now, cfg.lease).Some? && rounds >= r
    ensures NothingClaimable(Process(sys, cfg, registry, now, rounds).sys, now)
    ensures rounds > r ==> Process(sys, cfg, registry, now, rounds).stop == Drained
  {
    var turn := Body(cfg, registry, now);
    forall s: System, k: nat | BacklogWithin(s.store.events, now, cfg.limit) && ClaimableRanksBelow(s, now, rank, k)
      ensures TurnLowers(s, turn(s), now, rank, k)
    {
      WholeTurnLowers(s, cfg, registry, now, rank, k);
    }
    LoopDrains(turn, sys, cfg.limit, now, rounds, rank, r);
  }

  /** A turn that saw everything claimable found nothing, or left only lower ranks. */
  ghost predicate TurnLowers(before: System, t: Turn, now: Instant, rank: Rank, r: nat) {
    match t
    case NothingClaimed => NothingClaimable(before, now)
    case ClaimFailed => false
    case Handled(next, _, _) => r > 0 && ClaimableRanksBelow(next, now, rank, r - 1)
  }

  lemma {:induction false} LoopDrains(turn: System -> Turn, sys: System, limit: int, now: Instant, rounds: int,
                                      rank: Rank, r: nat)
    requires forall s: System, k: nat ::
               (BacklogWithin(s.store.events, now, limit) && ClaimableRanksBelow(s, now, rank, k)) ==> TurnLowers(s, turn(s), now, rank, k)
    requires ClaimableRanksBelow(sys, now, rank, r) && rounds >= r
    requires BacklogFits(turn, sys, limit, now, rounds)
    ensures NothingClaimable(Loop(turn, sys, rounds).sys, now)
    ensures rounds > r ==> Loop(turn, sys, rounds).stop == Drained
    decreases rounds
  {
    if rounds > 0 {
      assert TurnLowers(sys, turn(sys), now, rank, r);
      if turn(sys).Handled? {
        LoopDrains(turn, turn(sys).next, limit, now, rounds - 1, rank, r - 1);
      }
    }
  }

  lemma WholeTurnLowers(sys: System, cfg: Settings, registry: Registry, now: Instant, rank: Rank, r: nat)
    requires Lowering(registry, rank) && ClaimableRanksBelow(sys, now, rank, r) && Plus(now, cfg.lease).Some?
    requires BacklogWithin(sys.store.events, now, cfg.limit)
    ensures TurnLowers(sys, TakeTurn(sys, cfg, registry, now), now, rank, r)
  {
    var ids := cfg.choose(sys.store.events, now, cfg.limit);
    ChosenIsBatch(cfg.choose, sys.store.events, now, cfg.limit);
    forall id | 0 <= id < |sys.store.events| ensures id in ids <==> Claimable(sys.store.events[id], now) {
      if Claimable(sys.store.events[id], now) {
        BatchTakesAll(sys.store.events, now, cfg.limit, ids, id);
      }
    }
    hide IsBatch;
    hide Claimable;
    if ids != [] {
      assert ids[0] in ids;
      RoundLowers(sys, cfg, registry, ids, now, Plus(now, cfg.lease).value, rank, r - 1);
    }
  }
}
