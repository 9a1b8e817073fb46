/**
 * goal_management/repository.py over whole runs: what any sequence of calls, those
 * that raise included, keeps true of the goals, versions, proposals and events.
 */
module GoalBooks {
  import opened Wrappers
  import opened TimeFormat
  import opened Goals

  // ------------------------------------------------------------ selecting rows

  /** The rows that satisfy `p`, in order. */
  function Where<T(!new)>(s: seq<T>, p: T -> bool): (r: seq<nat>)
    ensures forall i :: 0 <= i < |r| ==> r[i] < |s| && p(s[r[i]])
    ensures forall i, j :: 0 <= i < j < |r| ==> r[i] < r[j]
    ensures forall k :: 0 <= k < |s| && p(s[k]) ==> k in r
  {
    if s == [] then []
    else
      var n := |s| - 1;
      var before := Where(s[..n], p);
      if p(s[n]) then before + [n] else before
  }

  lemma WhereAppend<T(!new)>(s: seq<T>, x: T, p: T -> bool)
    ensures Where(s + [x], p) == Where(s, p) + if p(x) then [|s|] else []
  {
  }

  lemma {:induction false} WhereUpdate<T(!new)>(s: seq<T>, k: nat, x: T, p: T -> bool)
    requires k < |s|
    ensures p(s[k]) == p(x) ==> Where(s[k := x], p) == Where(s, p)
    ensures !p(s[k]) && p(x) ==> |Where(s[k := x], p)| == |Where(s, p)| + 1
  {
    var n := |s| - 1;
    if k < n {
      WhereUpdate(s[..n], k, x, p);
      assert s[k := x][..n] == s[..n][k := x];
    } else {
      assert s[k := x][..n] == s[..n];
    }
  }

  lemma {:induction false} WhereSame<T(!new)>(s: seq<T>, t: seq<T>, p: T -> bool)
    requires |s| == |t| && forall k :: 0 <= k < |s| ==> p(s[k]) == p(t[k])
    ensures Where(s, p) == Where(t, p)
  {
    if s != [] {
      WhereSame(s[..|s| - 1], t[..|t| - 1], p);
    }
  }

  lemma {:induction false} WhereNone<T(!new)>(s: seq<T>, p: T -> bool)
    requires forall k :: 0 <= k < |s| ==> !p(s[k])
    ensures Where(s, p) == []
  {
    if s != [] {
      WhereNone(s[..|s| - 1], p);
    }
  }

  function OfGoal(g: GoalId): Version -> bool { (v: Version) => v.goal == g }

  function SucceedsGoal(g: GoalId): Goal -> bool { (x: Goal) => x.predecessor == Some(g) }

  function AcceptedFor(g: GoalId, c: Change): Proposal -> bool {
    (p: Proposal) => p.goal == g && p.change == c && p.status == ACCEPTED
  }

  function VersionsOf(vs: seq<Version>, g: GoalId): seq<VersionId> { Where(vs, OfGoal(g)) }

  function SuccessorsOf(gs: seq<Goal>, g: GoalId): seq<GoalId> { Where(gs, SucceedsGoal(g)) }

  /** How many proposals to change goal `g` by `c` were accepted. */
  function Accepted(ps: seq<Proposal>, g: GoalId, c: Change): nat { |Where(ps, AcceptedFor(g, c))| }

  // ---------------------------------------------------------------- the promises

  /** The i-th of a goal's versions: numbered, linked to the one before, in the first one's trust domain. */
  predicate LinkOk(vs: seq<Version>, line: seq<VersionId>, i: nat)
    requires i < |line|
  {
    && line[i] < |vs| && line[0] < |vs|
    && vs[line[i]].number == i + 1
    && vs[line[i]].supersedes == (if i == 0 then None else Some(line[i - 1]))
    && vs[line[i]].trustDomain == vs[line[0]].trustDomain
  }

  /** `line` is numbered 1..n, each superseding the one before, and ends at `current`. */
  predicate IsChain(vs: seq<Version>, line: seq<VersionId>, current: VersionId) {
    line != [] && line[|line| - 1] == current && forall i :: 0 <= i < |line| ==> LinkOk(vs, line, i)
  }

  predicate VersionsOk(gs: seq<Goal>, vs: seq<Version>) {
    && (forall v :: 0 <= v < |vs| ==> vs[v].goal < |gs|)
    && (forall g :: 0 <= g < |gs| ==> IsChain(vs, VersionsOf(vs, g), gs[g].current))
  }

  /** A goal is REPLACED iff it has exactly one successor; the others have none. */
  predicate LineOk(gs: seq<Goal>, g: GoalId)
    requires g < |gs|
  {
    && (gs[g].predecessor.Some? ==> gs[g].predecessor.value < g)
    && |SuccessorsOf(gs, g)| == if gs[g].status == REPLACED then 1 else 0
  }

  predicate LinesOk(gs: seq<Goal>) {
    forall g :: 0 <= g < |gs| ==> LineOk(gs, g)
  }

  /** A replacement keeps the trust domain of the goal it replaces. */
  predicate DomainOk(gs: seq<Goal>, vs: seq<Version>, g: GoalId)
    requires g < |gs|
  {
    gs[g].predecessor.Some? ==>
      && gs[g].predecessor.value < |gs| && gs[g].current < |vs| && gs[gs[g].predecessor.value].current < |vs|
      && vs[gs[g].current].trustDomain == vs[gs[gs[g].predecessor.value].current].trustDomain
  }

  predicate DomainsOk(gs: seq<Goal>, vs: seq<Version>) {
    forall g :: 0 <= g < |gs| ==> DomainOk(gs, vs, g)
  }

  /** Accepted proposals account for every further version, successor and abandonment. */
  predicate CountOk(db: Db, g: GoalId)
    requires g < |db.goals|
  {
    && |VersionsOf(db.versions, g)| == Accepted(db.proposals, g, ADAPT_TARGET) + 1
    && |SuccessorsOf(db.goals, g)| == Accepted(db.proposals, g, PROPOSE_REPLACEMENT)
    && Accepted(db.proposals, g, PROPOSE_ABANDONMENT) == if db.goals[g].status == ABANDONED then 1 else 0
  }

  predicate CountsOk(db: Db) {
    forall g :: 0 <= g < |db.goals| ==> CountOk(db, g)
  }

  predicate Books(db: Db) {
    && Refs(db) && VersionsOk(db.goals, db.versions) && LinesOk(db.goals)
    && DomainsOk(db.goals, db.versions) && CountsOk(db)
  }

  // ------------------------------------------------------------------------ runs

  datatype Call =
    | CallCreate(title: string, target: string, trustDomain: string, via: string)
    | CallMove(g: GoalId, move: Move)
    | CallArchive(g: GoalId)
    | CallObserve(evidence: Evidence)
    | CallEvaluate(evaluation: Evaluation, triggers: seq<nat>)
    | CallPropose(evaluationId: Option<nat>, g: GoalId, change: Change, expiresAt: Instant, content: Content)
    | CallAccept(p: ProposalId)
    | CallDecline(p: ProposalId)
    | CallExpire(p: ProposalId) // one iteration of the recovery loop, at any time

  datatype Timed = Timed(call: Call, now: Instant)

  function Do(db: Db, c: Timed): Outcome
    requires Refs(db)
  {
    match c.call
    case CallCreate(title, target, trustDomain, via) => Create(db, title, target, trustDomain, via, c.now)
    case CallMove(g, move) => Transition(db, g, move, c.now)
    case CallArchive(g) => Archive(db, g, c.now)
    case CallObserve(e) => Observe(db, e, c.now)
    case CallEvaluate(e, triggers) => Evaluate(db, e, triggers, c.now)
    case CallPropose(e, g, change, expiresAt, content) => Propose(db, e, g, change, expiresAt, content, c.now)
    case CallAccept(p) => Accept(db, p, c.now)
    case CallDecline(p) => Resolve(db, p, DECLINED, c.now)
    case CallExpire(p) => Resolve(db, p, EXPIRED, c.now)
  }

  lemma EffectKeepsRefs(db: Db, p: ProposalId, now: Instant)
    requires Refs(db) && p < |db.proposals|
    ensures Refs(Effect(db, p, now).db)
  {
  }

  lemma AcceptKeepsRefs(db: Db, p: ProposalId, now: Instant)
    requires Refs(db)
    ensures Refs(Accept(db, p, now).db)
  {
    if p < |db.proposals| {
      EffectKeepsRefs(SetProposal(db, p, ACCEPTED, now), p, now);
    }
    hide Effect;
  }

  lemma InsertKeepsRefs(db: Db, c: Timed)
    requires Refs(db) && (c.call.CallCreate? || c.call.CallPropose?)
    ensures Refs(Do(db, c).db)
  {
    hide Accept;
    hide Transition;
    hide Resolve;
    hide Archive;
    hide Observe;
    hide Evaluate;
  }

  lemma GoalRowKeepsRefs(db: Db, c: Timed)
    requires Refs(db) && (c.call.CallMove? || c.call.CallArchive? || c.call.CallObserve? || c.call.CallEvaluate?)
    ensures Refs(Do(db, c).db)
  {
    hide Accept;
    hide Create;
    hide Resolve;
    hide Propose;
  }

  lemma ResolveKeepsRefs(db: Db, p: ProposalId, status: ProposalStatus, now: Instant)
    requires Refs(db)
    ensures Refs(Resolve(db, p, status, now).db)
  {
  }

  lemma DoKeepsRefs(db: Db, c: Timed)
    requires Refs(db)
    ensures Refs(Do(db, c).db)
  {
    hide Refs;
    hide Accept;
    hide Resolve;
    match c.call
    case CallAccept(p) => AcceptKeepsRefs(db, p, c.now);
    case CallDecline(p) => ResolveKeepsRefs(db, p, DECLINED, c.now);
    case CallExpire(p) => ResolveKeepsRefs(db, p, EXPIRED, c.now);
    case CallCreate(_, _, _, _) => InsertKeepsRefs(db, c);
    case CallPropose(_, _, _, _, _) => InsertKeepsRefs(db, c);
    case _ => GoalRowKeepsRefs(db, c);
  }

  function After(db: Db, calls: seq<Timed>): (r: Db)
    requires Refs(db)
    ensures Refs(r)
    decreases |calls|
  {
    if calls == [] then db
    else
      DoKeepsRefs(db, calls[0]);
      After(Do(db, calls[0]).db, calls[1..])
  }

  // ------------------------------------------------------------ replaying the log

  /** What can be rebuilt of a proposal: not its deadline, evaluation or content. */
  datatype ProposalView = ProposalView(
    goal: GoalId, change: Change, status: ProposalStatus, createdAt: Instant, resolvedAt: Option<Instant>)

  /** `awaiting` holds a replacement announced but not yet created: (successor, replaced). */
  datatype Replayed = Replayed(goals: seq<Goal>, proposals: seq<ProposalView>, awaiting: Option<(GoalId, GoalId)>)

  function WithStatus(r: Replayed, g: GoalId, s: Status, t: Instant): Replayed {
    if g < |r.goals| then r.(goals := r.goals[g := r.goals[g].(status := s, statusChangedAt := t)]) else r
  }

  function ReplayEntry(r: Replayed, e: Entry): Replayed {
    var t := e.occurredAt;
    match e.event
    case GoalCreated(g, v, _) =>
      var predecessor := if r.awaiting.Some? && r.awaiting.value.0 == g then Some(r.awaiting.value.1) else None;
      if g == |r.goals| then r.(goals := r.goals + [Goal(v, ACTIVE, t, t, predecessor, None)], awaiting := None) else r
    case GoalPaused(g, _) => WithStatus(r, g, PAUSED, t)
    case GoalResumed(g) => WithStatus(r, g, ACTIVE, t)
    case GoalCompleted(g, _) => WithStatus(r, g, COMPLETED, t)
    case GoalAbandoned(g) => WithStatus(r, g, ABANDONED, t)
    case GoalReplaced(g, s) => WithStatus(r, g, REPLACED, t).(awaiting := Some((s, g)))
    case GoalAdapted(g, v, _) =>
      if g < |r.goals| then r.(goals := r.goals[g := r.goals[g].(current := v)]) else r
    case GoalArchived(g) =>
      if g < |r.goals| then r.(goals := r.goals[g := r.goals[g].(archivedAt := Some(t))]) else r
    case EvidenceRecorded(_, _, _) => r
    case EvaluationRecorded(_, _, _) => r
    case ProposalCreated(p, g, c) =>
      if p == |r.proposals| then r.(proposals := r.proposals + [ProposalView(g, c, PENDING, t, None)]) else r
    case ProposalResolved(p, _, s) =>
      if p < |r.proposals| then r.(proposals := r.proposals[p := r.proposals[p].(status := s, resolvedAt := Some(t))]) else r
  }

  function Replay(log: seq<Entry>): Replayed {
    if log == [] then Replayed([], [], None)
    else ReplayEntry(Replay(log[..|log| - 1]), log[|log| - 1])
  }

  function ViewOf(p: Proposal): ProposalView { ProposalView(p.goal, p.change, p.status, p.createdAt, p.resolvedAt) }

  function Views(ps: seq<Proposal>): (r: seq<ProposalView>)
    ensures |r| == |ps| && forall p :: 0 <= p < |ps| ==> r[p] == ViewOf(ps[p])
  {
    seq(|ps|, i requires 0 <= i < |ps| => ViewOf(ps[i]))
  }

  /** The log alone rebuilds every goal row and every proposal's state. */
  predicate LogRebuilds(db: Db) {
    Replay(db.log) == Replayed(db.goals, Views(db.proposals), None)
  }

  lemma ReplayOne(log: seq<Entry>, e: Entry)
    ensures Replay(log + [e]) == ReplayEntry(Replay(log), e)
  {
  }

  lemma ViewsUpdate(ps: seq<Proposal>, k: nat, p: Proposal)
    requires k < |ps|
    ensures Views(ps[k := p]) == Views(ps)[k := ViewOf(p)]
  {
  }

  /** The parts of an outcome that replay depends on. */
  predicate Rebuilds(before: Db, after: Db, entries: seq<Entry>) {
    && after.log == before.log + entries
    && ReplayAll(Replayed(before.goals, Views(before.proposals), None), entries)
       == Replayed(after.goals, Views(after.proposals), None)
  }

  function ReplayAll(r: Replayed, entries: seq<Entry>): Replayed
    decreases |entries|
  {
    if entries == [] then r else ReplayAll(ReplayEntry(r, entries[0]), entries[1..])
  }

  lemma {:induction false} ReplayMore(log: seq<Entry>, entries: seq<Entry>)
    ensures Replay(log + entries) == ReplayAll(Replay(log), entries)
    decreases |entries|
  {
    hide ReplayEntry;
    if entries == [] {
      assert log + entries == log;
    } else {
      ReplayOne(log, entries[0]);
      ReplayMore(log + [entries[0]], entries[1..]);
      assert log + entries == (log + [entries[0]]) + entries[1..];
    }
  }

  lemma RebuildsStep(before: Db, after: Db, entries: seq<Entry>)
    requires LogRebuilds(before) && Rebuilds(before, after, entries)
    ensures LogRebuilds(after)
  {
    ReplayMore(before.log, entries);
  }

  /** The effect's own events rebuild its change of the goals, whatever the proposals are. */
  lemma EffectReplays(db: Db, p: ProposalId, now: Instant, q: seq<ProposalView>) returns (entries: seq<Entry>)
    requires Refs(db) && p < |db.proposals|
    ensures var r := Effect(db, p, now);
            r.error.None? ==>
              && r.db.log == db.log + entries && r.db.proposals == db.proposals
              && ReplayAll(Replayed(db.goals, q, None), entries) == Replayed(r.db.goals, q, None)
  {
    var r := Effect(db, p, now);
    entries := [];
    if r.error.None? {
      match db.proposals[p].change {
        case PROPOSE_REPLACEMENT =>
          entries := ReplacementReplays(db, db.proposals[p].goal, db.contents[p], now, q);
        case INCREASE_SUPPORT =>
        case NO_CHANGE =>
        case _ =>
          hide Replace;
          entries := [r.db.log[|db.log|]];
          ReplaySingle(Replayed(db.goals, q, None), entries[0]);
      }
    }
  }

  lemma ReplacementReplays(db: Db, g: GoalId, c: Content, now: Instant, q: seq<ProposalView>)
    returns (entries: seq<Entry>)
    requires Refs(db) && g < |db.goals| && Replace(db, g, c, now).error.None?
    ensures var after := Replace(db, g, c, now).db;
            && after.log == db.log + entries && after.proposals == db.proposals
            && ReplayAll(Replayed(db.goals, q, None), entries) == Replayed(after.goals, q, None)
  {
    var first, second := Entry(GoalReplaced(g, |db.goals|), now),
                         Entry(GoalCreated(|db.goals|, |db.versions|, db.versions[db.goals[g].current].trustDomain), now);
    entries := [first, second];
    ReplayTwo(Replayed(db.goals, q, None), first, second);
  }

  lemma ReplaySingle(r: Replayed, e: Entry)
    ensures ReplayAll(r, [e]) == ReplayEntry(r, e)
  {
  }

  lemma ReplayTwo(r: Replayed, e: Entry, f: Entry)
    ensures ReplayAll(r, [e, f]) == ReplayEntry(ReplayEntry(r, e), f)
  {
    assert [e, f][1..] == [f];
    ReplaySingle(ReplayEntry(r, e), f);
  }

  lemma {:induction false} ReplayLast(r: Replayed, entries: seq<Entry>, e: Entry)
    ensures ReplayAll(r, entries + [e]) == ReplayEntry(ReplayAll(r, entries), e)
    decreases |entries|
  {
    hide ReplayEntry;
    if entries == [] {
      ReplaySingle(r, e);
      assert entries + [e] == [e];
    } else {
      ReplayLast(ReplayEntry(r, entries[0]), entries[1..], e);
      assert (entries + [e])[0] == entries[0] && (entries + [e])[1..] == entries[1..] + [e];
    }
  }

  lemma AcceptRebuilds(db: Db, p: ProposalId, now: Instant)
    requires Refs(db) && LogRebuilds(db)
    ensures LogRebuilds(Accept(db, p, now).db)
  {
    if p < |db.proposals| && db.proposals[p].status == PENDING {
      var mid, q := SetProposal(db, p, ACCEPTED, now), Views(db.proposals);
      var resolved := Entry(ProposalResolved(p, db.proposals[p].goal, ACCEPTED), now);
      var entries := EffectReplays(mid, p, now, q);
      hide Effect;
      var r := Effect(mid, p, now);
      if r.error.None? {
        var after := Accept(db, p, now).db;
        assert after.log == db.log + (entries + [resolved]);
        ReplayLast(Replayed(db.goals, q, None), entries, resolved);
        ViewsUpdate(db.proposals, p, mid.proposals[p]);
        RebuildsStep(db, after, entries + [resolved]);
      }
    }
  }

  /** A call that writes one event, whose replay makes the same change. */
  lemma OneEntryRebuilds(db: Db, after: Db, e: Entry)
    requires LogRebuilds(db) && after.log == db.log + [e]
    requires ReplayEntry(Replayed(db.goals, Views(db.proposals), None), e)
          == Replayed(after.goals, Views(after.proposals), None)
    ensures LogRebuilds(after)
  {
  }

  lemma TransitionRebuilds(db: Db, g: GoalId, m: Move, now: Instant)
    requires LogRebuilds(db)
    ensures LogRebuilds(Transition(db, g, m, now).db)
  {
  }

  lemma ResolveRebuilds(db: Db, p: ProposalId, status: ProposalStatus, now: Instant)
    requires LogRebuilds(db)
    ensures LogRebuilds(Resolve(db, p, status, now).db)
  {
  }

  lemma ProposeRebuilds(db: Db, e: Option<nat>, g: GoalId, change: Change, expiresAt: Instant, c: Content, now: Instant)
    requires LogRebuilds(db)
    ensures LogRebuilds(Propose(db, e, g, change, expiresAt, c, now).db)
  {
  }

  lemma DoRebuilds(db: Db, c: Timed)
    requires Refs(db) && LogRebuilds(db)
    ensures LogRebuilds(Do(db, c).db)
  {
    hide Accept;
    hide Transition;
    hide Resolve;
    hide Propose;
    hide Refs;
    match c.call
    case CallAccept(p) => AcceptRebuilds(db, p, c.now);
    case CallMove(g, move) => TransitionRebuilds(db, g, move, c.now);
    case CallPropose(e, g, change, expiresAt, content) => ProposeRebuilds(db, e, g, change, expiresAt, content, c.now);
    case CallDecline(p) => ResolveRebuilds(db, p, DECLINED, c.now);
    case CallExpire(p) => ResolveRebuilds(db, p, EXPIRED, c.now);
    case _ => PlainRebuilds(db, c);
  }

  lemma PlainRebuilds(db: Db, c: Timed)
    requires Refs(db) && LogRebuilds(db)
    requires c.call.CallCreate? || c.call.CallArchive? || c.call.CallObserve? || c.call.CallEvaluate?
    ensures LogRebuilds(Do(db, c).db)
  {
    hide LogRebuilds;
    hide Refs;
    if Do(db, c).error.None? {
      var after := Do(db, c).db;
      OneEntryRebuilds(db, after, after.log[|db.log|]);
    }
  }

  // ------------------------------------------------------- the books are kept

  predicate SameLinks(a: seq<Goal>, b: seq<Goal>) {
    |a| == |b| && forall g :: 0 <= g < |a| ==> a[g].current == b[g].current && a[g].predecessor == b[g].predecessor
  }

  lemma SameSuccessors(a: seq<Goal>, b: seq<Goal>, g: GoalId)
    requires SameLinks(a, b)
    ensures SuccessorsOf(a, g) == SuccessorsOf(b, g)
  {
    WhereSame(a, b, SucceedsGoal(g));
  }

  /** Rows that keep their links and REPLACED marks keep chains, lines and domains. */
  lemma LinksKept(a: seq<Goal>, b: seq<Goal>, vs: seq<Version>)
    requires SameLinks(a, b) && VersionsOk(a, vs) && LinesOk(a) && DomainsOk(a, vs)
    requires forall g :: 0 <= g < |a| ==> (a[g].status == REPLACED <==> b[g].status == REPLACED)
    ensures VersionsOk(b, vs) && LinesOk(b) && DomainsOk(b, vs)
  {
    forall g | 0 <= g < |b| ensures LineOk(b, g) && DomainOk(b, vs, g) {
      assert LineOk(a, g) && DomainOk(a, vs, g);
      SameSuccessors(a, b, g);
    }
  }

  ghost predicate SameCounts(ps: seq<Proposal>, qs: seq<Proposal>) {
    forall g: GoalId, c :: Accepted(ps, g, c) == Accepted(qs, g, c)
  }

  lemma CountsKept(db: Db, after: Db)
    requires CountsOk(db) && SameLinks(db.goals, after.goals) && db.versions == after.versions
    requires SameCounts(db.proposals, after.proposals)
    requires forall g :: 0 <= g < |db.goals| ==> (db.goals[g].status == ABANDONED <==> after.goals[g].status == ABANDONED)
    ensures CountsOk(after)
  {
    forall g | 0 <= g < |after.goals| ensures CountOk(after, g) {
      assert CountOk(db, g);
      SameSuccessors(db.goals, after.goals, g);
    }
  }

  /** A new pending proposal, or one resolved without acceptance, counts for nothing. */
  lemma QuietProposals(ps: seq<Proposal>, p: nat, row: Proposal)
    requires p <= |ps| && row.status != ACCEPTED && (p < |ps| ==> ps[p].status != ACCEPTED)
    ensures SameCounts(ps, if p < |ps| then ps[p := row] else ps + [row])
  {
    forall g: GoalId, ch
      ensures Accepted(ps, g, ch) == Accepted(if p < |ps| then ps[p := row] else ps + [row], g, ch)
    {
      if p < |ps| {
        WhereUpdate(ps, p, row, AcceptedFor(g, ch));
      } else {
        WhereAppend(ps, row, AcceptedFor(g, ch));
      }
    }
  }

  /** A change of rows that moves no link and no REPLACED or ABANDONED mark. */
  predicate SameMarks(a: seq<Goal>, b: seq<Goal>) {
    SameLinks(a, b) && forall g :: 0 <= g < |a| ==> SameMark(a[g].status, b[g].status)
  }

  predicate SameMark(a: Status, b: Status) {
    (a == REPLACED <==> b == REPLACED) && (a == ABANDONED <==> b == ABANDONED)
  }

  lemma QuietCall(db: Db, after: Db)
    requires Books(db) && Refs(after) && db.versions == after.versions
    requires SameMarks(db.goals, after.goals) && SameCounts(db.proposals, after.proposals)
    ensures Books(after)
  {
    forall g | 0 <= g < |db.goals|
      ensures (db.goals[g].status == REPLACED <==> after.goals[g].status == REPLACED)
      ensures (db.goals[g].status == ABANDONED <==> after.goals[g].status == ABANDONED)
    {
      assert SameMark(db.goals[g].status, after.goals[g].status);
    }
    LinksKept(db.goals, after.goals, db.versions);
    CountsKept(db, after);
  }

  /** What one acceptance of `p` adds to goal `g`'s count of `c`. */
  function Grows(p: Proposal, g: GoalId, c: Change): nat {
    if p.goal == g && p.change == c then 1 else 0
  }

  /** The one acceptance, on its own goal's count of its own kind of change. */
  lemma AcceptanceCounts(db: Db, p: ProposalId, now: Instant, g: GoalId, ch: Change)
    requires p < |db.proposals| && db.proposals[p].status == PENDING
    ensures Accepted(SetProposal(db, p, ACCEPTED, now).proposals, g, ch)
         == Accepted(db.proposals, g, ch) + Grows(db.proposals[p], g, ch)
  {
    WhereUpdate(db.proposals, p, SetProposal(db, p, ACCEPTED, now).proposals[p], AcceptedFor(g, ch));
  }

  lemma NoVersions(gs: seq<Goal>, vs: seq<Version>, g: GoalId)
    requires VersionsOk(gs, vs) && g >= |gs|
    ensures VersionsOf(vs, g) == []
  {
    WhereNone(vs, OfGoal(g));
  }

  lemma ChainStays(vs: seq<Version>, row: Version, line: seq<VersionId>, current: VersionId)
    requires IsChain(vs, line, current)
    ensures IsChain(vs + [row], line, current)
  {
    forall i | 0 <= i < |line| ensures LinkOk(vs + [row], line, i) {
      assert LinkOk(vs, line, i);
    }
  }

  /** A goal and its first version, added together. */
  lemma NewGoalChains(gs: seq<Goal>, vs: seq<Version>, goal: Goal, row: Version)
    requires VersionsOk(gs, vs)
    requires goal.current == |vs| && row.goal == |gs| && row.number == 1 && row.supersedes.None?
    ensures VersionsOk(gs + [goal], vs + [row])
    ensures |VersionsOf(vs + [row], |gs|)| == 1
    ensures forall g :: 0 <= g < |gs| ==> VersionsOf(vs + [row], g) == VersionsOf(vs, g)
  {
    forall g | 0 <= g <= |gs|
      ensures IsChain(vs + [row], VersionsOf(vs + [row], g), (gs + [goal])[g].current)
      ensures g < |gs| ==> VersionsOf(vs + [row], g) == VersionsOf(vs, g)
      ensures g == |gs| ==> |VersionsOf(vs + [row], g)| == 1
    {
      WhereAppend(vs, row, OfGoal(g));
      if g < |gs| {
        ChainStays(vs, row, VersionsOf(vs, g), gs[g].current);
      } else {
        NoVersions(gs, vs, g);
        assert LinkOk(vs + [row], [|vs|], 0);
      }
    }
  }

  lemma NoSuccessors(gs: seq<Goal>, g: GoalId)
    requires LinesOk(gs) && g >= |gs|
    ensures SuccessorsOf(gs, g) == []
  {
    forall k | 0 <= k < |gs| ensures !SucceedsGoal(g)(gs[k]) {
      assert LineOk(gs, k);
    }
    WhereNone(gs, SucceedsGoal(g));
  }

  lemma CreateShape(db: Db, c: Timed) returns (goal: Goal, row: Version)
    requires Refs(db) && c.call.CallCreate?
    ensures Do(db, c).db.goals == db.goals + [goal] && Do(db, c).db.versions == db.versions + [row]
    ensures Do(db, c).db.proposals == db.proposals
    ensures goal.current == |db.versions| && goal.predecessor.None? && goal.status == ACTIVE
    ensures row.goal == |db.goals| && row.number == 1 && row.supersedes.None?
  {
    goal, row := Do(db, c).db.goals[|db.goals|], Do(db, c).db.versions[|db.versions|];
  }

  /** A goal added without a predecessor. */
  lemma CreateLines(gs: seq<Goal>, goal: Goal)
    requires LinesOk(gs) && goal.predecessor.None? && goal.status == ACTIVE
    ensures LinesOk(gs + [goal])
    ensures forall h :: 0 <= h < |gs| ==> SuccessorsOf(gs + [goal], h) == SuccessorsOf(gs, h)
    ensures SuccessorsOf(gs + [goal], |gs|) == []
  {
    forall h | 0 <= h <= |gs|
      ensures LineOk(gs + [goal], h) && SuccessorsOf(gs + [goal], h) == SuccessorsOf(gs, h)
    {
      WhereAppend(gs, goal, SucceedsGoal(h));
      if h < |gs| {
        assert LineOk(gs, h);
      } else {
        NoSuccessors(gs, h);
      }
    }
    NoSuccessors(gs, |gs|);
  }

  lemma CreateBooks(db: Db, c: Timed)
    requires Books(db) && c.call.CallCreate?
    ensures Books(Do(db, c).db)
  {
    DoKeepsRefs(db, c);
    var after := Do(db, c).db;
    var goal, row := CreateShape(db, c);
    hide Do;
    NewGoalChains(db.goals, db.versions, goal, row);
    CreateLines(db.goals, goal);
    CreateDomains(db.goals, db.versions, goal, row);
    hide VersionsOk;
    hide LinesOk;
    hide DomainsOk;
    hide VersionsOf;
    hide SuccessorsOf;
    CreateCounts(db, after);
  }

  lemma CreateDomains(gs: seq<Goal>, vs: seq<Version>, goal: Goal, row: Version)
    requires DomainsOk(gs, vs) && goal.predecessor.None?
    ensures DomainsOk(gs + [goal], vs + [row])
  {
    forall h | 0 <= h <= |gs| ensures DomainOk(gs + [goal], vs + [row], h) {
      assert h < |gs| ==> DomainOk(gs, vs, h);
    }
  }

  lemma CreateCounts(db: Db, after: Db)
    requires Refs(db) && CountsOk(db) && after.proposals == db.proposals
    requires |after.goals| == |db.goals| + 1 && after.goals[|db.goals|].status == ACTIVE
    requires forall h :: 0 <= h < |db.goals| ==> after.goals[h] == db.goals[h]
    requires forall h :: 0 <= h < |db.goals| ==> VersionsOf(after.versions, h) == VersionsOf(db.versions, h)
    requires forall h :: 0 <= h < |db.goals| ==> SuccessorsOf(after.goals, h) == SuccessorsOf(db.goals, h)
    requires |VersionsOf(after.versions, |db.goals|)| == 1 && SuccessorsOf(after.goals, |db.goals|) == []
    ensures CountsOk(after)
  {
    NoAcceptances(db, |db.goals|);
    hide Refs;
    hide VersionsOf;
    hide SuccessorsOf;
    hide Accepted;
    forall h | 0 <= h < |after.goals| ensures CountOk(after, h) {
      assert h < |db.goals| ==> CountOk(db, h);
    }
  }

  lemma NoAcceptances(db: Db, g: GoalId)
    requires Refs(db) && g >= |db.goals|
    ensures forall c :: Accepted(db.proposals, g, c) == 0
  {
    forall c {
      WhereNone(db.proposals, AcceptedFor(g, c));
    }
  }

  /** A further version of goal `g`, made its current one. */
  lemma NewVersionChains(gs: seq<Goal>, vs: seq<Version>, g: GoalId, row: Version)
    requires VersionsOk(gs, vs) && g < |gs| && gs[g].current < |vs|
    requires row.goal == g && row.number == vs[gs[g].current].number + 1 && row.supersedes == Some(gs[g].current)
    requires row.trustDomain == vs[gs[g].current].trustDomain
    ensures VersionsOk(gs[g := gs[g].(current := |vs|)], vs + [row])
    ensures forall h :: 0 <= h < |gs| ==> |VersionsOf(vs + [row], h)| == |VersionsOf(vs, h)| + if h == g then 1 else 0
  {
    var after := gs[g := gs[g].(current := |vs|)];
    forall h | 0 <= h < |gs|
      ensures IsChain(vs + [row], VersionsOf(vs + [row], h), after[h].current)
      ensures |VersionsOf(vs + [row], h)| == |VersionsOf(vs, h)| + if h == g then 1 else 0
    {
      WhereAppend(vs, row, OfGoal(h));
      ChainStays(vs, row, VersionsOf(vs, h), gs[h].current);
      if h == g {
        ChainGrows(vs, row, VersionsOf(vs, g), gs[g].current);
      }
    }
  }

  lemma ChainGrows(vs: seq<Version>, row: Version, line: seq<VersionId>, current: VersionId)
    requires IsChain(vs, line, current) && current < |vs|
    requires row.number == vs[current].number + 1 && row.supersedes == Some(current)
    requires row.trustDomain == vs[current].trustDomain
    ensures IsChain(vs + [row], line + [|vs|], |vs|)
  {
    assert LinkOk(vs, line, |line| - 1);
    forall i | 0 <= i <= |line| ensures LinkOk(vs + [row], line + [|vs|], i) {
      if i < |line| {
        assert LinkOk(vs, line, i);
      }
    }
  }

  lemma AdaptShape(db: Db, p: ProposalId, now: Instant) returns (row: Version)
    requires Refs(db) && p < |db.proposals| && db.proposals[p].change == ADAPT_TARGET
    requires Accept(db, p, now).error.None?
    ensures db.proposals[p].status == PENDING
    ensures var after, g := Accept(db, p, now).db, db.proposals[p].goal;
            && after.versions == db.versions + [row]
            && after.goals == db.goals[g := db.goals[g].(current := |db.versions|)]
            && after.proposals == SetProposal(db, p, ACCEPTED, now).proposals
            && row.goal == g && row.number == db.versions[db.goals[g].current].number + 1
            && row.supersedes == Some(db.goals[g].current)
            && row.trustDomain == db.versions[db.goals[g].current].trustDomain
  {
    row := Accept(db, p, now).db.versions[|db.versions|];
  }

  /** The counts after an acceptance, from how each goal's rows grew. */
  lemma AcceptCounts(db: Db, after: Db, p: ProposalId, now: Instant, h: GoalId)
    requires p < |db.proposals| && db.proposals[p].status == PENDING
    requires after.proposals == SetProposal(db, p, ACCEPTED, now).proposals
    requires h < |db.goals| && h < |after.goals| && CountOk(db, h)
    requires |VersionsOf(after.versions, h)| == |VersionsOf(db.versions, h)| + Grows(db.proposals[p], h, ADAPT_TARGET)
    requires |SuccessorsOf(after.goals, h)| == |SuccessorsOf(db.goals, h)| + Grows(db.proposals[p], h, PROPOSE_REPLACEMENT)
    requires (if after.goals[h].status == ABANDONED then 1 else 0)
          == (if db.goals[h].status == ABANDONED then 1 else 0) + Grows(db.proposals[p], h, PROPOSE_ABANDONMENT)
    ensures CountOk(after, h)
  {
    AcceptanceCounts(db, p, now, h, ADAPT_TARGET);
    AcceptanceCounts(db, p, now, h, PROPOSE_REPLACEMENT);
    AcceptanceCounts(db, p, now, h, PROPOSE_ABANDONMENT);
    hide VersionsOf;
    hide SuccessorsOf;
    hide Accepted;
  }

  lemma AdaptBooks(db: Db, p: ProposalId, now: Instant)
    requires Books(db) && p < |db.proposals| && db.proposals[p].change == ADAPT_TARGET
    ensures Books(Accept(db, p, now).db)
  {
    AcceptKeepsRefs(db, p, now);
    var after, g := Accept(db, p, now).db, db.proposals[p].goal;
    if Accept(db, p, now).error.None? {
      var row := AdaptShape(db, p, now);
      hide Accept;
      NewVersionChains(db.goals, db.versions, g, row);
      AdaptLines(db.goals, after.goals);
      AdaptDomains(db.goals, db.versions, g, row);
      hide VersionsOk;
      hide LinesOk;
      hide DomainsOk;
      hide VersionsOf;
      hide SuccessorsOf;
      forall h | 0 <= h < |after.goals| ensures CountOk(after, h) {
        assert CountOk(db, h);
        AcceptCounts(db, after, p, now, h);
      }
    }
  }

  lemma AdaptLines(gs: seq<Goal>, after: seq<Goal>)
    requires LinesOk(gs) && |after| == |gs|
    requires forall h :: 0 <= h < |gs| ==> after[h].predecessor == gs[h].predecessor && after[h].status == gs[h].status
    ensures LinesOk(after) && forall h :: 0 <= h < |gs| ==> SuccessorsOf(after, h) == SuccessorsOf(gs, h)
  {
    forall h | 0 <= h < |after| ensures LineOk(after, h) && SuccessorsOf(after, h) == SuccessorsOf(gs, h) {
      assert LineOk(gs, h);
      WhereSame(gs, after, SucceedsGoal(h));
    }
  }

  lemma AdaptDomains(gs: seq<Goal>, vs: seq<Version>, g: GoalId, row: Version)
    requires DomainsOk(gs, vs) && g < |gs| && gs[g].current < |vs|
    requires row.trustDomain == vs[gs[g].current].trustDomain
    ensures DomainsOk(gs[g := gs[g].(current := |vs|)], vs + [row])
  {
    var after := gs[g := gs[g].(current := |vs|)];
    forall h | 0 <= h < |gs| ensures DomainOk(after, vs + [row], h) {
      assert DomainOk(gs, vs, h);
    }
  }

  lemma AbandonShape(db: Db, p: ProposalId, now: Instant)
    requires Refs(db) && p < |db.proposals| && db.proposals[p].change == PROPOSE_ABANDONMENT
    requires Accept(db, p, now).error.None?
    ensures db.proposals[p].status == PENDING
    ensures var after, g := Accept(db, p, now).db, db.proposals[p].goal;
            && after.versions == db.versions && Live(db.goals[g].status)
            && after.goals == db.goals[g := db.goals[g].(status := ABANDONED, statusChangedAt := now)]
            && after.proposals == SetProposal(db, p, ACCEPTED, now).proposals
  {
  }

  lemma AbandonBooks(db: Db, p: ProposalId, now: Instant)
    requires Books(db) && p < |db.proposals| && db.proposals[p].change == PROPOSE_ABANDONMENT
    ensures Books(Accept(db, p, now).db)
  {
    AcceptKeepsRefs(db, p, now);
    if Accept(db, p, now).error.None? {
      AbandonShape(db, p, now);
      hide Accept;
      AbandonTables(db, Accept(db, p, now).db, p, now);
    }
  }

  lemma AbandonTables(db: Db, after: Db, p: ProposalId, now: Instant)
    requires Books(db) && Refs(after) && p < |db.proposals| && db.proposals[p].status == PENDING
    requires db.proposals[p].change == PROPOSE_ABANDONMENT && db.proposals[p].goal < |db.goals|
    requires var g := db.proposals[p].goal;
             && after.versions == db.versions && Live(db.goals[g].status)
             && after.goals == db.goals[g := db.goals[g].(status := ABANDONED, statusChangedAt := now)]
             && after.proposals == SetProposal(db, p, ACCEPTED, now).proposals
    ensures Books(after)
  {
    hide SetProposal;
    hide VersionsOk;
    hide LinesOk;
    hide DomainsOk;
    hide LineOk;
    hide VersionsOf;
    hide SuccessorsOf;
    LinksKept(db.goals, after.goals, db.versions);
    forall h | 0 <= h < |after.goals| ensures CountOk(after, h) {
      assert CountOk(db, h);
      SameSuccessors(db.goals, after.goals, h);
      AcceptCounts(db, after, p, now, h);
    }
  }

  lemma ReplaceShape(db: Db, p: ProposalId, now: Instant) returns (mid: seq<Goal>, goal: Goal, row: Version)
    requires Refs(db) && p < |db.proposals| && db.proposals[p].change == PROPOSE_REPLACEMENT
    requires Accept(db, p, now).error.None?
    ensures db.proposals[p].status == PENDING
    ensures var after, g := Accept(db, p, now).db, db.proposals[p].goal;
            && mid == db.goals[g := db.goals[g].(status := REPLACED, statusChangedAt := now)]
            && after.versions == db.versions + [row] && after.goals == mid + [goal]
            && after.proposals == SetProposal(db, p, ACCEPTED, now).proposals
            && (db.goals[g].status == ACTIVE || db.goals[g].status == PAUSED)
            && goal.predecessor == Some(g) && goal.status == ACTIVE
            && goal.current == |db.versions| && row.goal == |db.goals| && row.number == 1 && row.supersedes.None?
            && row.trustDomain == db.versions[db.goals[g].current].trustDomain
  {
    var g := db.proposals[p].goal;
    mid := db.goals[g := db.goals[g].(status := REPLACED, statusChangedAt := now)];
    goal, row := Accept(db, p, now).db.goals[|db.goals|], Accept(db, p, now).db.versions[|db.versions|];
  }

  /** Goal `g` marked REPLACED and its successor added. */
  lemma ReplaceLines(gs: seq<Goal>, mid: seq<Goal>, g: GoalId, goal: Goal)
    requires LinesOk(gs) && g < |gs| && gs[g].status != REPLACED && |mid| == |gs| && mid == gs[g := mid[g]]
    requires mid[g].status == REPLACED && mid[g].current == gs[g].current && mid[g].predecessor == gs[g].predecessor
    requires goal.predecessor == Some(g) && goal.status == ACTIVE
    ensures LinesOk(mid + [goal])
    ensures forall h :: 0 <= h < |gs| ==>
              |SuccessorsOf(mid + [goal], h)| == |SuccessorsOf(gs, h)| + if h == g then 1 else 0
    ensures SuccessorsOf(mid + [goal], |gs|) == []
  {
    NoSuccessors(gs, |gs|);
    forall h | 0 <= h <= |gs|
      ensures SuccessorsOf(mid + [goal], h) == SuccessorsOf(gs, h) + if h == g then [|gs|] else []
    {
      SameSuccessors(gs, mid, h);
      WhereAppend(mid, goal, SucceedsGoal(h));
    }
    hide SuccessorsOf;
    forall h | 0 <= h <= |gs| ensures LineOk(mid + [goal], h) {
      assert h < |gs| ==> LineOk(gs, h);
    }
  }

  lemma ReplaceDomains(gs: seq<Goal>, mid: seq<Goal>, vs: seq<Version>, g: GoalId, goal: Goal, row: Version)
    requires SameLinks(gs, mid) && DomainsOk(gs, vs) && g < |gs| && gs[g].current < |vs|
    requires goal.predecessor == Some(g) && goal.current == |vs|
    requires row.trustDomain == vs[gs[g].current].trustDomain
    ensures DomainsOk(mid + [goal], vs + [row])
  {
    forall h | 0 <= h <= |gs| ensures DomainOk(mid + [goal], vs + [row], h) {
      assert h < |gs| ==> DomainOk(gs, vs, h);
    }
  }

  lemma ReplaceBooks(db: Db, p: ProposalId, now: Instant)
    requires Books(db) && p < |db.proposals| && db.proposals[p].change == PROPOSE_REPLACEMENT
    ensures Books(Accept(db, p, now).db)
  {
    AcceptKeepsRefs(db, p, now);
    var after, g, n := Accept(db, p, now).db, db.proposals[p].goal, |db.goals|;
    if Accept(db, p, now).error.None? {
      var mid, goal, row := ReplaceShape(db, p, now);
      hide *;
      ReplaceTables(db, after, p, now, mid, goal, row);
    }
  }

  lemma BooksParts(db: Db)
    ensures Books(db) <==>
            Refs(db) && VersionsOk(db.goals, db.versions) && LinesOk(db.goals)
            && DomainsOk(db.goals, db.versions) && CountsOk(db)
  {
  }

  /** The version table after a replacement. */
  lemma ReplaceVersions(gs: seq<Goal>, mid: seq<Goal>, vs: seq<Version>, goal: Goal, row: Version)
    requires SameLinks(gs, mid) && VersionsOk(gs, vs)
    requires goal.current == |vs| && row.goal == |gs| && row.number == 1 && row.supersedes.None?
    ensures VersionsOk(mid + [goal], vs + [row])
    ensures |VersionsOf(vs + [row], |gs|)| == 1
    ensures forall h :: 0 <= h < |gs| ==> VersionsOf(vs + [row], h) == VersionsOf(vs, h)
  {
    hide IsChain;
    hide VersionsOf;
    MidChains(gs, mid, vs);
    NewGoalChains(mid, vs, goal, row);
  }

  lemma MarkedReplaced(gs: seq<Goal>, g: GoalId, now: Instant) returns (mid: seq<Goal>)
    requires g < |gs|
    ensures mid == gs[g := gs[g].(status := REPLACED, statusChangedAt := now)]
    ensures |mid| == |gs| && SameLinks(gs, mid) && mid == gs[g := mid[g]] && mid[g].status == REPLACED
    ensures mid[g].current == gs[g].current && mid[g].predecessor == gs[g].predecessor
    ensures forall h :: 0 <= h < |gs| && h != g ==> mid[h] == gs[h]
  {
    mid := gs[g := gs[g].(status := REPLACED, statusChangedAt := now)];
  }

  lemma ReplaceTables(db: Db, after: Db, p: ProposalId, now: Instant, mid: seq<Goal>, goal: Goal, row: Version)
    requires Books(db) && Refs(db) && Refs(after) && p < |db.proposals| && db.proposals[p].status == PENDING
    requires db.proposals[p].change == PROPOSE_REPLACEMENT && db.proposals[p].goal < |db.goals|
    requires db.goals[db.proposals[p].goal].current < |db.versions|
    requires var g := db.proposals[p].goal;
             && mid == db.goals[g := db.goals[g].(status := REPLACED, statusChangedAt := now)]
             && after.versions == db.versions + [row] && after.goals == mid + [goal]
             && after.proposals == SetProposal(db, p, ACCEPTED, now).proposals
             && (db.goals[g].status == ACTIVE || db.goals[g].status == PAUSED)
             && goal.predecessor == Some(g) && goal.status == ACTIVE
             && goal.current == |db.versions| && row.goal == |db.goals| && row.number == 1 && row.supersedes.None?
             && row.trustDomain == db.versions[db.goals[g].current].trustDomain
    ensures Books(after)
  {
    hide *;
    BooksParts(db);
    var g := db.proposals[p].goal;
    var same := MarkedReplaced(db.goals, g, now);
    ReplaceVersions(db.goals, mid, db.versions, goal, row);
    ReplaceLines(db.goals, mid, g, goal);
    ReplaceDomains(db.goals, mid, db.versions, g, goal, row);
    ReplaceCounts(db, after, p, now);
    BooksParts(after);
  }

  lemma ReplaceCounts(db: Db, after: Db, p: ProposalId, now: Instant)
    requires Refs(db) && p < |db.proposals| && db.proposals[p].status == PENDING && CountsOk(db)
    requires db.proposals[p].change == PROPOSE_REPLACEMENT
    requires after.proposals == SetProposal(db, p, ACCEPTED, now).proposals
    requires |after.goals| == |db.goals| + 1 && after.goals[|db.goals|].status == ACTIVE
    requires forall h :: 0 <= h < |db.goals| ==> (after.goals[h].status == ABANDONED <==> db.goals[h].status == ABANDONED)
    requires forall h :: 0 <= h < |db.goals| ==> VersionsOf(after.versions, h) == VersionsOf(db.versions, h)
    requires forall h :: 0 <= h < |db.goals| ==>
               |SuccessorsOf(after.goals, h)| == |SuccessorsOf(db.goals, h)| + if h == db.proposals[p].goal then 1 else 0
    requires |VersionsOf(after.versions, |db.goals|)| == 1 && SuccessorsOf(after.goals, |db.goals|) == []
    ensures CountsOk(after)
  {
    hide VersionsOf;
    hide SuccessorsOf;
    ReplaceCountsNew(db, after, p, now);
    forall h | 0 <= h < |after.goals| ensures CountOk(after, h) {
      if h < |db.goals| {
        assert CountOk(db, h);
        AcceptCounts(db, after, p, now, h);
      }
    }
  }

  lemma ReplaceCountsNew(db: Db, after: Db, p: ProposalId, now: Instant)
    requires Refs(db) && p < |db.proposals| && db.proposals[p].status == PENDING
    requires after.proposals == SetProposal(db, p, ACCEPTED, now).proposals
    requires |after.goals| == |db.goals| + 1 && after.goals[|db.goals|].status == ACTIVE
    requires |VersionsOf(after.versions, |db.goals|)| == 1 && SuccessorsOf(after.goals, |db.goals|) == []
    ensures CountOk(after, |db.goals|)
  {
    var n := |db.goals|;
    NoAcceptances(db, n);
    AcceptanceCounts(db, p, now, n, ADAPT_TARGET);
    AcceptanceCounts(db, p, now, n, PROPOSE_REPLACEMENT);
    AcceptanceCounts(db, p, now, n, PROPOSE_ABANDONMENT);
    hide VersionsOf;
    hide SuccessorsOf;
    hide Accepted;
  }

  lemma MidChains(a: seq<Goal>, b: seq<Goal>, vs: seq<Version>)
    requires SameLinks(a, b) && VersionsOk(a, vs)
    ensures VersionsOk(b, vs)
  {
  }

  lemma PlainAcceptBooks(db: Db, p: ProposalId, now: Instant)
    requires Books(db) && p < |db.proposals|
    requires db.proposals[p].change == INCREASE_SUPPORT || db.proposals[p].change == NO_CHANGE
    ensures Books(Accept(db, p, now).db)
  {
    AcceptKeepsRefs(db, p, now);
    var after := Accept(db, p, now).db;
    if Accept(db, p, now).error.None? {
      assert after.goals == db.goals && after.versions == db.versions;
      assert after.proposals == SetProposal(db, p, ACCEPTED, now).proposals;
      hide Accept;
      forall h | 0 <= h < |after.goals| ensures CountOk(after, h) {
        assert CountOk(db, h);
        AcceptCounts(db, after, p, now, h);
      }
    }
  }

  lemma AcceptBooks(db: Db, p: ProposalId, now: Instant)
    requires Books(db)
    ensures Books(Accept(db, p, now).db)
  {
    hide Books;
    if p < |db.proposals| {
      match db.proposals[p].change
      case ADAPT_TARGET => AdaptBooks(db, p, now);
      case PROPOSE_REPLACEMENT => ReplaceBooks(db, p, now);
      case PROPOSE_ABANDONMENT => AbandonBooks(db, p, now);
      case _ => PlainAcceptBooks(db, p, now);
    }
  }

  lemma ResolveBooks(db: Db, c: Timed)
    requires Books(db) && (c.call.CallDecline? || c.call.CallExpire?) && Refs(Do(db, c).db)
    ensures Books(Do(db, c).db)
  {
    assert Refs(db);
    hide Books;
    hide Resolve;
    var status := if c.call.CallDecline? then DECLINED else EXPIRED;
    ResolveCounts(db, c.call.p, status, c.now);
    hide SameCounts;
    QuietCall(db, Do(db, c).db);
  }

  lemma ResolveCounts(db: Db, p: ProposalId, status: ProposalStatus, now: Instant)
    requires status != ACCEPTED
    ensures SameCounts(db.proposals, Resolve(db, p, status, now).db.proposals)
    ensures Resolve(db, p, status, now).db.goals == db.goals && Resolve(db, p, status, now).db.versions == db.versions
  {
    if Resolve(db, p, status, now).error.None? {
      QuietProposals(db.proposals, p, Resolve(db, p, status, now).db.proposals[p]);
    }
  }

  lemma ProposeBooks(db: Db, c: Timed)
    requires Books(db) && c.call.CallPropose? && Refs(Do(db, c).db)
    ensures Books(Do(db, c).db)
  {
    var after := Do(db, c).db;
    if Do(db, c).error.None? {
      QuietProposals(db.proposals, |db.proposals|, after.proposals[|db.proposals|]);
      hide Books;
      QuietCall(db, after);
    }
  }

  lemma TransitionMarks(db: Db, g: GoalId, m: Move, now: Instant)
    ensures SameMarks(db.goals, Transition(db, g, m, now).db.goals)
    ensures Transition(db, g, m, now).db.versions == db.versions
    ensures Transition(db, g, m, now).db.proposals == db.proposals
  {
  }

  lemma MoveBooks(db: Db, c: Timed)
    requires Books(db) && c.call.CallMove? && Refs(Do(db, c).db)
    ensures Books(Do(db, c).db)
  {
    assert Refs(db);
    hide Books;
    hide Transition;
    hide SameMarks;
    TransitionMarks(db, c.call.g, c.call.move, c.now);
    QuietCall(db, Do(db, c).db);
  }

  lemma ArchiveBooks(db: Db, c: Timed)
    requires Books(db) && c.call.CallArchive? && Refs(Do(db, c).db)
    ensures Books(Do(db, c).db)
  {
    var after := Do(db, c).db;
    assert SameMarks(db.goals, after.goals);
    hide Books;
    QuietCall(db, after);
  }

  lemma ObservationBooks(db: Db, c: Timed)
    requires Books(db) && (c.call.CallObserve? || c.call.CallEvaluate?) && Refs(Do(db, c).db)
    ensures Books(Do(db, c).db)
  {
    hide Books;
    QuietCall(db, Do(db, c).db);
  }

  lemma AcceptCallBooks(db: Db, c: Timed)
    requires Books(db) && c.call.CallAccept?
    ensures Books(Do(db, c).db)
  {
    hide Accept;
    AcceptBooks(db, c.call.p, c.now);
  }

  lemma DoKeepsBooks(db: Db, c: Timed)
    requires Books(db)
    ensures Books(Do(db, c).db)
  {
    DoKeepsRefs(db, c);
    hide *;
    match c.call
    case CallCreate(_, _, _, _) => CreateBooks(db, c);
    case CallAccept(_) => AcceptCallBooks(db, c);
    case CallPropose(_, _, _, _, _) => ProposeBooks(db, c);
    case CallMove(_, _) => MoveBooks(db, c);
    case CallArchive(_) => ArchiveBooks(db, c);
    case CallObserve(_) => ObservationBooks(db, c);
    case CallEvaluate(_, _) => ObservationBooks(db, c);
    case _ => ResolveBooks(db, c);
  }

  // ---------------------------------------------------------------- main results

  /**
   * After any calls, those that raised included: every goal's versions form a chain
   * 1..n, each superseding the one before, ending at the current version, in one
   * trust domain; a goal is REPLACED iff exactly one later goal replaces it, and
   * that one keeps its trust domain; and the accepted proposals of each kind are
   * exactly as many as the further versions, successors and abandonments.
   */
  lemma {:induction false} EveryRunKeepsBooks(db: Db, calls: seq<Timed>)
    requires Books(db)
    ensures Books(After(db, calls))
    decreases |calls|
  {
    if calls != [] {
      DoKeepsRefs(db, calls[0]);
      hide Do;
      hide Books;
      DoKeepsBooks(db, calls[0]);
      EveryRunKeepsBooks(Do(db, calls[0]).db, calls[1..]);
    }
  }

  /** The log rebuilds the tables after every run. */
  lemma {:induction false} EveryRunRebuilds(db: Db, calls: seq<Timed>)
    requires Refs(db) && LogRebuilds(db)
    ensures LogRebuilds(After(db, calls))
    decreases |calls|
  {
    if calls != [] {
      DoKeepsRefs(db, calls[0]);
      hide Do;
      hide Refs;
      DoRebuilds(db, calls[0]);
      EveryRunRebuilds(Do(db, calls[0]).db, calls[1..]);
    }
  }

  /** Both, from the empty tables. */
  lemma GoalRuns(calls: seq<Timed>)
    ensures Books(After(EMPTY, calls)) && LogRebuilds(After(EMPTY, calls)) && PointsBack(After(EMPTY, calls).goals)
  {
    EveryRunKeepsBooks(EMPTY, calls);
    EveryRunRebuilds(EMPTY, calls);
    LinesPointBack(After(EMPTY, calls).goals);
  }

  predicate PointsBack(gs: seq<Goal>) {
    forall g :: 0 <= g < |gs| && gs[g].predecessor.Some? ==> gs[g].predecessor.value < g
  }

  /** The goals replaced one after the other to arrive at `g`; the links are acyclic, so this ends. */
  function Line(gs: seq<Goal>, g: GoalId): seq<GoalId>
    requires PointsBack(gs) && g < |gs|
    decreases g
  {
    if gs[g].predecessor.None? then [g] else Line(gs, gs[g].predecessor.value) + [g]
  }

  lemma LinesPointBack(gs: seq<Goal>)
    requires LinesOk(gs)
    ensures PointsBack(gs)
  {
    forall g | 0 <= g < |gs| && gs[g].predecessor.Some? ensures gs[g].predecessor.value < g {
      assert LineOk(gs, g);
    }
  }

  lemma PredecessorReplaced(gs: seq<Goal>, g: GoalId)
    requires LinesOk(gs) && g < |gs| && gs[g].predecessor.Some?
    ensures gs[g].predecessor.value < g && gs[gs[g].predecessor.value].status == REPLACED
  {
    assert LineOk(gs, g) && LineOk(gs, gs[g].predecessor.value);
    assert SucceedsGoal(gs[g].predecessor.value)(gs[g]);
    assert g in SuccessorsOf(gs, gs[g].predecessor.value);
  }

  /** Every earlier goal of the line is REPLACED, and all are in one trust domain. */
  lemma {:induction false} LineIsReplaced(db: Db, g: GoalId, i: nat)
    requires Books(db) && PointsBack(db.goals) && g < |db.goals| && i < |Line(db.goals, g)|
    ensures var h := Line(db.goals, g)[i];
            && h <= g && (h < g ==> db.goals[h].status == REPLACED)
            && (h < g <==> i < |Line(db.goals, g)| - 1)
            && db.versions[db.goals[h].current].trustDomain == db.versions[db.goals[g].current].trustDomain
    decreases g
  {
    if i < |Line(db.goals, g)| - 1 {
      assert DomainOk(db.goals, db.versions, g);
      PredecessorReplaced(db.goals, g);
      hide LinesOk;
      LineIsReplaced(db, db.goals[g].predecessor.value, i);
    }
  }

  predicate GoalFrozen(a: Goal, b: Goal) {
    Terminal(a.status) ==>
      b.status == a.status && b.current == a.current && b.statusChangedAt == a.statusChangedAt
      && b.predecessor == a.predecessor && (a.archivedAt.Some? ==> b.archivedAt.Some?)
  }

  predicate ProposalFrozen(a: Proposal, b: Proposal) {
    && b.goal == a.goal && b.change == a.change && b.expiresAt == a.expiresAt && b.createdAt == a.createdAt
    && (a.status != PENDING ==> b == a)
  }

  /** One call never leaves a terminal status nor touches a resolved proposal, a version or a written event. */
  predicate Settled(db: Db, after: Db) {
    && |db.goals| <= |after.goals| && (forall g :: 0 <= g < |db.goals| ==> GoalFrozen(db.goals[g], after.goals[g]))
    && |db.proposals| <= |after.proposals|
    && (forall p :: 0 <= p < |db.proposals| ==> ProposalFrozen(db.proposals[p], after.proposals[p]))
    && db.versions <= after.versions && db.contents <= after.contents && db.log <= after.log
  }

  lemma EffectSettles(db: Db, p: ProposalId, now: Instant)
    requires Refs(db) && p < |db.proposals|
    ensures Settled(db, Effect(db, p, now).db)
  {
    match db.proposals[p].change
    case ADAPT_TARGET =>
    case PROPOSE_REPLACEMENT =>
    case _ =>
  }

  lemma SettledAlong(a: Db, b: Db, c: Db)
    requires Settled(a, b) && Settled(b, c)
    ensures Settled(a, c)
  {
  }

  /** An acceptance that goes through: the resolution, the effect, the event. */
  lemma AcceptIs(db: Db, p: ProposalId, now: Instant)
    requires Refs(db) && Accept(db, p, now).error.None?
    ensures p < |db.proposals| && db.proposals[p].status == PENDING && Refs(SetProposal(db, p, ACCEPTED, now))
    ensures var r := Effect(SetProposal(db, p, ACCEPTED, now), p, now);
            r.error.None?
            && Accept(db, p, now).db == Emit(r.db, ProposalResolved(p, db.proposals[p].goal, ACCEPTED), now)
  {
    hide Effect;
  }

  lemma ResolvingSettles(db: Db, p: ProposalId, now: Instant)
    requires p < |db.proposals| && db.proposals[p].status == PENDING
    ensures Settled(db, SetProposal(db, p, ACCEPTED, now))
  {
  }

  lemma EmittingSettles(db: Db, e: Event, now: Instant)
    ensures Settled(db, Emit(db, e, now))
  {
  }

  lemma AcceptSettles(db: Db, p: ProposalId, now: Instant)
    requires Refs(db)
    ensures Settled(db, Accept(db, p, now).db)
  {
    if Accept(db, p, now).error.None? {
      AcceptIs(db, p, now);
      hide *;
      var mid := SetProposal(db, p, ACCEPTED, now);
      var last := Effect(mid, p, now).db;
      ResolvingSettles(db, p, now);
      SetProposalKeeps(db, p, now);
      EffectSettles(mid, p, now);
      EmittingSettles(last, ProposalResolved(p, db.proposals[p].goal, ACCEPTED), now);
      SettledAlong(db, mid, last);
      SettledAlong(db, last, Accept(db, p, now).db);
    } else {
      NothingSettles(db);
      RaisedAcceptIs(db, p, now);
    }
  }

  lemma SetProposalKeeps(db: Db, p: ProposalId, now: Instant)
    requires p < |db.proposals|
    ensures |SetProposal(db, p, ACCEPTED, now).proposals| == |db.proposals|
  {
  }

  lemma RaisedAcceptIs(db: Db, p: ProposalId, now: Instant)
    requires Refs(db) && Accept(db, p, now).error.Some?
    ensures Accept(db, p, now).db == db
  {
    hide Effect;
  }

  lemma NothingSettles(db: Db)
    ensures Settled(db, db)
  {
  }

  /** A call that raises changes nothing, not even a proposal accepted on the way; the others write events. */
  predicate AllOrNothing(db: Db, r: Outcome) {
    (r.error.Some? ==> r.db == db) && (r.error.None? ==> |db.log| < |r.db.log|)
  }

  lemma AcceptAllOrNothing(db: Db, p: ProposalId, now: Instant)
    requires Refs(db)
    ensures AllOrNothing(db, Accept(db, p, now))
  {
  }

  lemma TransitionSettles(db: Db, g: GoalId, m: Move, now: Instant)
    ensures Settled(db, Transition(db, g, m, now).db) && AllOrNothing(db, Transition(db, g, m, now))
  {
  }

  lemma ResolveSettles(db: Db, p: ProposalId, status: ProposalStatus, now: Instant)
    ensures Settled(db, Resolve(db, p, status, now).db) && AllOrNothing(db, Resolve(db, p, status, now))
  {
  }

  lemma CreateSettles(db: Db, c: Timed)
    requires Refs(db) && c.call.CallCreate?
    ensures Settled(db, Do(db, c).db) && AllOrNothing(db, Do(db, c))
  {
  }

  lemma ArchiveSettles(db: Db, g: GoalId, now: Instant)
    ensures Settled(db, Archive(db, g, now).db) && AllOrNothing(db, Archive(db, g, now))
  {
  }

  lemma RecordSettles(db: Db, c: Timed)
    requires Refs(db) && (c.call.CallObserve? || c.call.CallEvaluate? || c.call.CallPropose?)
    ensures Settled(db, Do(db, c).db) && AllOrNothing(db, Do(db, c))
  {
    hide Accept;
    hide Transition;
    hide Resolve;
    hide Archive;
    hide Create;
  }

  lemma EveryCallSettles(db: Db, c: Timed)
    requires Refs(db)
    ensures Settled(db, Do(db, c).db) && AllOrNothing(db, Do(db, c))
  {
    hide Settled;
    hide AllOrNothing;
    hide Accept;
    hide Transition;
    hide Resolve;
    hide Archive;
    match c.call
    case CallAccept(p) =>
      AcceptSettles(db, p, c.now);
      AcceptAllOrNothing(db, p, c.now);
    case CallMove(g, move) => TransitionSettles(db, g, move, c.now);
    case CallDecline(p) => ResolveSettles(db, p, DECLINED, c.now);
    case CallExpire(p) => ResolveSettles(db, p, EXPIRED, c.now);
    case CallArchive(g) => ArchiveSettles(db, g, c.now);
    case CallCreate(_, _, _, _) => CreateSettles(db, c);
    case _ => RecordSettles(db, c);
  }

  /** Terminal statuses are absorbing, proposals are one-shot, versions and events are append-only. */
  lemma {:induction false} TerminalIsForever(db: Db, calls: seq<Timed>)
    requires Refs(db)
    ensures Settled(db, After(db, calls))
    decreases |calls|
  {
    if calls != [] {
      DoKeepsRefs(db, calls[0]);
      EveryCallSettles(db, calls[0]);
      hide Do;
      hide Refs;
      hide Settled;
      TerminalIsForever(Do(db, calls[0]).db, calls[1..]);
      SettledAlong(db, Do(db, calls[0]).db, After(db, calls));
    }
  }

  /**
   * Exactly when an acceptance goes through: the proposal is pending and its goal is
   * in a status its change allows. The deadline plays no part: until recovery has
   * seen it, an overdue proposal can still be accepted.
   */
  lemma AcceptedIff(db: Db, p: ProposalId, now: Instant)
    requires Refs(db)
    ensures Accept(db, p, now).error.None? <==>
            && p < |db.proposals| && db.proposals[p].status == PENDING
            && match db.proposals[p].change {
                 case ADAPT_TARGET => db.goals[db.proposals[p].goal].status == ACTIVE
                 case PROPOSE_REPLACEMENT =>
                   db.goals[db.proposals[p].goal].status == ACTIVE || db.goals[db.proposals[p].goal].status == PAUSED
                 case PROPOSE_ABANDONMENT =>
                   db.goals[db.proposals[p].goal].status == ACTIVE || db.goals[db.proposals[p].goal].status == PAUSED
                 case _ => true
               }
    ensures p >= |db.proposals| ==> Accept(db, p, now).error == Some(ProposalNotFound)
    ensures p < |db.proposals| && Accept(db, p, now).error.Some? ==>
              Accept(db, p, now).error == Some(if db.proposals[p].status != PENDING
                                               then InvalidProposalState(db.proposals[p].status)
                                               else InvalidGoalTransition(db.goals[db.proposals[p].goal].status))
  {
  }

  /**
   * Exactly when a direct transition goes through and what it leaves: an ACTIVE goal can
   * be paused, a PAUSED one resumed, either completed. Only that goal's status, the time
   * of its change and the log are touched.
   */
  lemma TransitionIff(db: Db, g: GoalId, m: Move, now: Instant)
    ensures var r := Transition(db, g, m, now);
            && (r.error.None? <==>
                  && g < |db.goals|
                  && match m {
                       case Pause(_) => db.goals[g].status == ACTIVE
                       case Resume => db.goals[g].status == PAUSED
                       case Complete(_) => db.goals[g].status == ACTIVE || db.goals[g].status == PAUSED
                     })
            && (r.error.Some? ==>
                  && r.db == db
                  && r.error == Some(if g < |db.goals| then InvalidGoalTransition(db.goals[g].status) else GoalNotFound))
            && (r.error.None? ==>
                  var (status, event) := (match m
                                          case Pause(why) => (PAUSED, GoalPaused(g, why))
                                          case Resume => (ACTIVE, GoalResumed(g))
                                          case Complete(why) => (COMPLETED, GoalCompleted(g, why)));
                  r.db == db.(goals := db.goals[g := db.goals[g].(status := status, statusChangedAt := now)],
                              log := db.log + [Entry(event, now)]))
  {
  }

  /** Pausing can be taken back: every ACTIVE goal can be paused and resumed, and then is as it was. */
  lemma PauseThenResume(db: Db, g: GoalId, why: string, paused: Instant, resumed: Instant)
    requires g < |db.goals| && db.goals[g].status == ACTIVE
    ensures var mid := Transition(db, g, Pause(why), paused);
            var last := Transition(mid.db, g, Resume, resumed);
            && mid.error.None? && last.error.None?
            && last.db.goals == db.goals[g := db.goals[g].(statusChangedAt := resumed)]
  {
    TransitionIff(db, g, Pause(why), paused);
    TransitionIff(Transition(db, g, Pause(why), paused).db, g, Resume, resumed);
    hide Transition;
  }

  /** Only a COMPLETED, ABANDONED or REPLACED goal is archived, and its status stays. */
  lemma ArchivedIff(db: Db, g: GoalId, now: Instant)
    ensures var r := Archive(db, g, now);
            && (r.error.None? <==>
                  && g < |db.goals|
                  && (db.goals[g].status == COMPLETED || db.goals[g].status == ABANDONED || db.goals[g].status == REPLACED))
            && (r.error.Some? ==>
                  && r.db == db
                  && r.error == Some(if g < |db.goals| then InvalidGoalTransition(db.goals[g].status) else GoalNotFound))
            && (r.error.None? ==>
                  r.db == db.(goals := db.goals[g := db.goals[g].(archivedAt := Some(now))],
                              log := db.log + [Entry(GoalArchived(g), now)]))
  {
  }

  /** A pending proposal can be declined, or expired by recovery; no goal is touched. */
  lemma ResolvedIff(db: Db, p: ProposalId, status: ProposalStatus, now: Instant)
    ensures var r := Resolve(db, p, status, now);
            && (r.error.None? <==> p < |db.proposals| && db.proposals[p].status == PENDING)
            && (r.error.Some? ==>
                  && r.db == db
                  && r.error == Some(if p < |db.proposals| then InvalidProposalState(db.proposals[p].status)
                                     else ProposalNotFound))
            && (r.error.None? ==>
                  r.db == db.(proposals := db.proposals[p := db.proposals[p].(status := status, resolvedAt := Some(now))],
                              log := db.log + [Entry(ProposalResolved(p, db.proposals[p].goal, status), now)]))
  {
  }

  /** A proposal needs its goal and, if it names one, its evaluation; it starts pending, with its deadline and content. */
  lemma ProposedIff(db: Db, e: Option<nat>, g: GoalId, change: Change, expiresAt: Instant, content: Content, now: Instant)
    ensures var r := Propose(db, e, g, change, expiresAt, content, now);
            && (r.error.None? <==> g < |db.goals| && (e.Some? ==> e.value < |db.evaluations|))
            && (r.error.Some? ==> r.db == db && r.error == Some(ForeignKeyViolation))
            && (r.error.None? ==>
                  r.db == db.(proposals := db.proposals + [Proposal(e, g, change, expiresAt, PENDING, now, None)],
                              contents := db.contents + [content],
                              log := db.log + [Entry(ProposalCreated(|db.proposals|, g, change), now)]))
  {
  }

  /** Evidence needs a goal and a version, an evaluation a goal and evidence that triggered it; neither touches a goal. */
  lemma RecordedIff(db: Db, x: Evidence, e: Evaluation, triggers: seq<nat>, now: Instant)
    ensures var r := Observe(db, x, now);
            && (r.error.None? <==> x.goal < |db.goals| && x.version < |db.versions|)
            && (r.error.Some? ==> r.db == db && r.error == Some(ForeignKeyViolation))
            && (r.error.None? ==>
                  r.db == db.(evidence := db.evidence + [x],
                              log := db.log + [Entry(EvidenceRecorded(|db.evidence|, x.goal, x.outcome), now)]))
    ensures var r := Evaluate(db, e, triggers, now);
            && (r.error.None? <==> triggers != [] && e.goal < |db.goals|)
            && (r.error.Some? ==> r.db == db && r.error == Some(if triggers == [] then NoTriggeringEvidence else ForeignKeyViolation))
            && (r.error.None? ==>
                  r.db == db.(evaluations := db.evaluations + [e],
                              log := db.log + [Entry(EvaluationRecorded(|db.evaluations|, e.goal, e.intervention), now)]))
  {
  }

  /** A created goal is ACTIVE, with one version that holds what was given. */
  lemma CreatedAsGiven(db: Db, title: string, target: string, trustDomain: string, via: string, now: Instant)
    ensures var r := Create(db, title, target, trustDomain, via, now);
            && r.error.None? && |r.db.goals| == |db.goals| + 1 && |r.db.versions| == |db.versions| + 1
            && db.goals <= r.db.goals && db.versions <= r.db.versions
            && var goal, version := r.db.goals[|db.goals|], r.db.versions[|db.versions|];
               && goal.status == ACTIVE && goal.current == |db.versions| && goal.predecessor.None? && goal.archivedAt.None?
               && version.goal == |db.goals| && version.number == 1 && version.title == title && version.target == target
               && version.trustDomain == trustDomain && version.createdVia == via && version.createdAt == now
               && goal.createdAt == goal.statusChangedAt == now
               && r.db == db.(goals := r.db.goals, versions := r.db.versions,
                              log := db.log + [Entry(GoalCreated(|db.goals|, |db.versions|, trustDomain), now)])
  {
  }

  /** Recovery's query: pending, and the deadline's text not after the clock's. */
  lemma DueIff(p: Proposal, now: Instant)
    ensures Due(p, now) <==> p.status == PENDING && !StrLt(Iso(now), Iso(p.expiresAt))
  {
    SqlLeIsTextOrder(p.expiresAt, now);
  }

  /** What accepting a proposal of `content` on goal `g` must leave. */
  predicate AppliesContent(before: Db, after: Db, g: GoalId, change: Change, content: Content, now: Instant) {
    && Refs(before) && Refs(after) && g < |before.goals| <= |after.goals|
    && var was := before.versions[before.goals[g].current];
       match change
       case ADAPT_TARGET =>
         var row := after.versions[after.goals[g].current];
         && CarriesContent(was, row, content) && Approved(row, now)
         && row.reason == Some(content.reason) && row.supersedes == Some(before.goals[g].current)
       case PROPOSE_REPLACEMENT =>
         && |after.goals| == |before.goals| + 1 && after.goals[|before.goals|].predecessor == Some(g)
         && CarriesContent(was, after.versions[after.goals[|before.goals|].current], content)
         && Approved(after.versions[after.goals[|before.goals|].current], now)
       case PROPOSE_ABANDONMENT =>
         after.goals[g].status == ABANDONED && after.versions == before.versions
       case _ =>
         after.goals == before.goals && after.versions == before.versions
  }

  predicate Approved(row: Version, now: Instant) {
    row.createdVia == "coach_proposed_user_approved" && row.createdAt == now
  }

  /** A proposed text is taken as it was proposed; a missing or empty one leaves the old text. */
  predicate CarriesContent(was: Version, row: Version, c: Content) {
    && (c.title.Some? && c.title.value != "" ==> row.title == c.title.value)
    && (c.target.Some? && c.target.value != "" ==> row.target == c.target.value)
    && (c.title.None? || c.title.value == "" ==> row.title == was.title)
    && (c.target.None? || c.target.value == "" ==> row.target == was.target)
  }

  lemma EffectAppliesContent(db: Db, p: ProposalId, now: Instant)
    requires Refs(db) && p < |db.proposals| && Effect(db, p, now).error.None?
    ensures AppliesContent(db, Effect(db, p, now).db, db.proposals[p].goal, db.proposals[p].change, db.contents[p], now)
  {
    EffectKeepsRefs(db, p, now);
    match db.proposals[p].change
    case ADAPT_TARGET =>
    case PROPOSE_REPLACEMENT =>
    case _ =>
  }

  /**
   * Acceptance applies exactly what was recorded when the proposal was made, whatever
   * calls came in between.
   */
  lemma AcceptanceAppliesWhatWasProposed(db: Db, e: Option<nat>, g: GoalId, change: Change, expiresAt: Instant,
                                         content: Content, made: Instant, calls: seq<Timed>, now: Instant)
    requires Refs(db) && Propose(db, e, g, change, expiresAt, content, made).error.None?
    requires Refs(Propose(db, e, g, change, expiresAt, content, made).db)
    requires var before := After(Propose(db, e, g, change, expiresAt, content, made).db, calls);
             Accept(before, |db.proposals|, now).error.None?
    ensures var before := After(Propose(db, e, g, change, expiresAt, content, made).db, calls);
            AppliesContent(before, Accept(before, |db.proposals|, now).db, g, change, content, now)
  {
    var proposed := Propose(db, e, g, change, expiresAt, content, made).db;
    var p, before := |db.proposals|, After(proposed, calls);
    TerminalIsForever(proposed, calls);
    assert ProposalFrozen(proposed.proposals[p], before.proposals[p]);
    assert proposed.contents[p] == content && before.contents[p] == content;
    hide After;
    hide Propose;
    AcceptKeepsRefs(before, p, now);
    AcceptAppliesContent(before, p, now);
  }

  lemma AcceptAppliesContent(db: Db, p: ProposalId, now: Instant)
    requires Refs(db) && Accept(db, p, now).error.None?
    ensures p < |db.proposals|
    ensures AppliesContent(db, Accept(db, p, now).db, db.proposals[p].goal, db.proposals[p].change, db.contents[p], now)
  {
    EffectAppliesContent(SetProposal(db, p, ACCEPTED, now), p, now);
    AcceptKeepsRefs(db, p, now);
    hide Effect;
  }
}
