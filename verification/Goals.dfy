/**
 * goal_management/repository.py: goals, their append-only versions, change
 * proposals, and the events every mutation writes in its own transaction.
 *
 * A row's identifier is its position in its append-only table, so identifiers are
 * fresh by construction. Each operation is one transaction: the specification
 * functions give the state it commits and the exception it raises.
 */
module Goals {
  import opened Wrappers
  import opened TimeFormat

  type GoalId = nat
  type VersionId = nat
  type ProposalId = nat

  datatype Status = ACTIVE | PAUSED | COMPLETED | ABANDONED | REPLACED

  datatype Change = ADAPT_TARGET | INCREASE_SUPPORT | NO_CHANGE | PROPOSE_REPLACEMENT | PROPOSE_ABANDONMENT

  datatype ProposalStatus = PENDING | ACCEPTED | DECLINED | EXPIRED

  datatype Goal = Goal(
    current: VersionId, status: Status, createdAt: Instant, statusChangedAt: Instant,
    predecessor: Option<GoalId>, archivedAt: Option<Instant>)

  datatype Version = Version(
    goal: GoalId, number: int, title: string, target: string, trustDomain: string,
    createdAt: Instant, createdVia: string, reason: Option<string>, supersedes: Option<VersionId>)

  datatype Proposal = Proposal(
    evaluation: Option<nat>, goal: GoalId, change: Change, expiresAt: Instant,
    status: ProposalStatus, createdAt: Instant, resolvedAt: Option<Instant>)

  /** Row i belongs to proposal i; the proposed replacement is recorded but nothing reads it. */
  datatype Content = Content(
    title: Option<string>, target: Option<string>, replacement: Option<string>, reason: string)

  datatype Evidence = Evidence(goal: GoalId, version: VersionId, outcome: string)

  datatype Evaluation = Evaluation(goal: GoalId, intervention: Change)

  datatype Event =
    | GoalCreated(goal: GoalId, version: VersionId, trustDomain: string)
    | GoalPaused(goal: GoalId, why: string)
    | GoalResumed(goal: GoalId)
    | GoalCompleted(goal: GoalId, why: string)
    | GoalArchived(goal: GoalId)
    | GoalAdapted(goal: GoalId, version: VersionId, why: string)
    | GoalReplaced(goal: GoalId, replacement: GoalId)
    | GoalAbandoned(goal: GoalId)
    | EvidenceRecorded(evidence: nat, goal: GoalId, outcome: string)
    | EvaluationRecorded(evaluation: nat, goal: GoalId, intervention: Change)
    | ProposalCreated(proposal: ProposalId, goal: GoalId, change: Change)
    | ProposalResolved(proposal: ProposalId, goal: GoalId, resolution: ProposalStatus)

  datatype Entry = Entry(event: Event, occurredAt: Instant)

  datatype Db = Db(
    goals: seq<Goal>, versions: seq<Version>, proposals: seq<Proposal>, contents: seq<Content>,
    evidence: seq<Evidence>, evaluations: seq<Evaluation>, log: seq<Entry>)

  const EMPTY: Db := Db([], [], [], [], [], [], [])

  datatype GoalError =
    | GoalNotFound
    | ProposalNotFound
    | InvalidGoalTransition(current: Status)
    | InvalidProposalState(status: ProposalStatus)
    | ForeignKeyViolation
    | NoTriggeringEvidence

  datatype Outcome = Outcome(db: Db, error: Option<GoalError>)

  /** The references the schema's foreign keys and the paired inserts keep. */
  predicate Refs(db: Db) {
    && |db.contents| == |db.proposals|
    && (forall g :: 0 <= g < |db.goals| ==> db.goals[g].current < |db.versions|)
    && (forall p :: 0 <= p < |db.proposals| ==> db.proposals[p].goal < |db.goals|)
  }

  // ------------------------------------------------------ what each call commits

  function Emit(db: Db, e: Event, now: Instant): Db {
    db.(log := db.log + [Entry(e, now)])
  }

  function Raise(db: Db, e: GoalError): Outcome { Outcome(db, Some(e)) }

  function Done(db: Db): Outcome { Outcome(db, None) }

  function SetStatus(db: Db, g: GoalId, status: Status, now: Instant): Db
    requires g < |db.goals|
  {
    db.(goals := db.goals[g := db.goals[g].(status := status, statusChangedAt := now)])
  }

  /** A goal row and its first version, written together. */
  function AddGoal(db: Db, title: string, target: string, trustDomain: string, via: string,
                   predecessor: Option<GoalId>, now: Instant): Db
  {
    db.(goals := db.goals + [Goal(|db.versions|, ACTIVE, now, now, predecessor, None)],
        versions := db.versions + [Version(|db.goals|, 1, title, target, trustDomain, now, via, None, None)])
  }

  function Create(db: Db, title: string, target: string, trustDomain: string, via: string, now: Instant): Outcome {
    Done(Emit(AddGoal(db, title, target, trustDomain, via, None, now),
              GoalCreated(|db.goals|, |db.versions|, trustDomain), now))
  }

  /** The direct transitions, not gated by a proposal. */
  datatype Move = Pause(why: string) | Resume | Complete(why: string)

  function Target(m: Move): Status {
    match m
    case Pause(_) => PAUSED
    case Resume => ACTIVE
    case Complete(_) => COMPLETED
  }

  function AllowedFrom(m: Move): set<Status> {
    match m
    case Pause(_) => {ACTIVE}
    case Resume => {PAUSED}
    case Complete(_) => {ACTIVE, PAUSED}
  }

  function EventOf(m: Move, g: GoalId): Event {
    match m
    case Pause(why) => GoalPaused(g, why)
    case Resume => GoalResumed(g)
    case Complete(why) => GoalCompleted(g, why)
  }

  function Transition(db: Db, g: GoalId, m: Move, now: Instant): Outcome {
    if g >= |db.goals| then Raise(db, GoalNotFound)
    else if db.goals[g].status !in AllowedFrom(m) then Raise(db, InvalidGoalTransition(db.goals[g].status))
    else Done(Emit(SetStatus(db, g, Target(m), now), EventOf(m, g), now))
  }

  predicate Terminal(s: Status) { s == COMPLETED || s == ABANDONED || s == REPLACED }

  /** Archiving again overwrites archived_at. */
  function Archive(db: Db, g: GoalId, now: Instant): Outcome {
    if g >= |db.goals| then Raise(db, GoalNotFound)
    else if !Terminal(db.goals[g].status) then Raise(db, InvalidGoalTransition(db.goals[g].status))
    else Done(Emit(db.(goals := db.goals[g := db.goals[g].(archivedAt := Some(now))]), GoalArchived(g), now))
  }

  function Observe(db: Db, e: Evidence, now: Instant): Outcome {
    if e.goal >= |db.goals| || e.version >= |db.versions| then Raise(db, ForeignKeyViolation)
    else Done(Emit(db.(evidence := db.evidence + [e]), EvidenceRecorded(|db.evidence|, e.goal, e.outcome), now))
  }

  function Evaluate(db: Db, e: Evaluation, triggers: seq<nat>, now: Instant): Outcome {
    if triggers == [] then Raise(db, NoTriggeringEvidence)
    else if e.goal >= |db.goals| then Raise(db, ForeignKeyViolation)
    else Done(Emit(db.(evaluations := db.evaluations + [e]),
                   EvaluationRecorded(|db.evaluations|, e.goal, e.intervention), now))
  }

  function Propose(db: Db, evaluation: Option<nat>, g: GoalId, change: Change, expiresAt: Instant,
                   content: Content, now: Instant): Outcome
  {
    if g >= |db.goals| || (evaluation.Some? && evaluation.value >= |db.evaluations|) then Raise(db, ForeignKeyViolation)
    else
      var row := Proposal(evaluation, g, change, expiresAt, PENDING, now, None);
      Done(Emit(db.(proposals := db.proposals + [row], contents := db.contents + [content]),
                ProposalCreated(|db.proposals|, g, change), now))
  }

  function SetProposal(db: Db, p: ProposalId, status: ProposalStatus, now: Instant): Db
    requires p < |db.proposals|
  {
    db.(proposals := db.proposals[p := db.proposals[p].(status := status, resolvedAt := Some(now))])
  }

  /** Declining, and expiring at recovery. */
  function Resolve(db: Db, p: ProposalId, status: ProposalStatus, now: Instant): Outcome {
    if p >= |db.proposals| then Raise(db, ProposalNotFound)
    else if db.proposals[p].status != PENDING then Raise(db, InvalidProposalState(db.proposals[p].status))
    else Done(Emit(SetProposal(db, p, status, now), ProposalResolved(p, db.proposals[p].goal, status), now))
  }

  /** Python's `proposed or current`: an empty proposal text falls back too. */
  function Or(proposed: Option<string>, current: string): string {
    if proposed.Some? && proposed.value != "" then proposed.value else current
  }

  const APPROVED := "coach_proposed_user_approved"

  function Adapt(db: Db, g: GoalId, c: Content, now: Instant): Outcome
    requires Refs(db) && g < |db.goals|
  {
    if db.goals[g].status != ACTIVE then Raise(db, InvalidGoalTransition(db.goals[g].status))
    else
      var id, was := db.goals[g].current, db.versions[db.goals[g].current];
      var row := Version(g, was.number + 1, Or(c.title, was.title), Or(c.target, was.target), was.trustDomain,
                         now, APPROVED, Some(c.reason), Some(id));
      Done(Emit(db.(versions := db.versions + [row], goals := db.goals[g := db.goals[g].(current := |db.versions|)]),
                GoalAdapted(g, |db.versions|, c.reason), now))
  }

  predicate Live(s: Status) { s == ACTIVE || s == PAUSED }

  function Replace(db: Db, g: GoalId, c: Content, now: Instant): Outcome
    requires Refs(db) && g < |db.goals|
  {
    if !Live(db.goals[g].status) then Raise(db, InvalidGoalTransition(db.goals[g].status))
    else
      var was := db.versions[db.goals[g].current];
      var after := AddGoal(SetStatus(db, g, REPLACED, now), Or(c.title, was.title), Or(c.target, was.target),
                           was.trustDomain, APPROVED, Some(g), now);
      Done(Emit(Emit(after, GoalReplaced(g, |db.goals|), now),
                GoalCreated(|db.goals|, |db.versions|, was.trustDomain), now))
  }

  function Abandon(db: Db, g: GoalId, now: Instant): Outcome
    requires g < |db.goals|
  {
    if !Live(db.goals[g].status) then Raise(db, InvalidGoalTransition(db.goals[g].status))
    else Done(Emit(SetStatus(db, g, ABANDONED, now), GoalAbandoned(g), now))
  }

  /** The effect of an accepted proposal on its goal. */
  function Effect(db: Db, p: ProposalId, now: Instant): Outcome
    requires Refs(db) && p < |db.proposals|
  {
    var row, c := db.proposals[p], db.contents[p];
    match row.change
    case ADAPT_TARGET => Adapt(db, row.goal, c, now)
    case PROPOSE_REPLACEMENT => Replace(db, row.goal, c, now)
    case PROPOSE_ABANDONMENT => Abandon(db, row.goal, now)
    case INCREASE_SUPPORT => Done(db)
    case NO_CHANGE => Done(db)
  }

  /** Resolve the proposal, then the effect; an effect that raises takes the resolution back. */
  function Accept(db: Db, p: ProposalId, now: Instant): Outcome
    requires Refs(db)
  {
    if p >= |db.proposals| then Raise(db, ProposalNotFound)
    else if db.proposals[p].status != PENDING then Raise(db, InvalidProposalState(db.proposals[p].status))
    else
      var r := Effect(SetProposal(db, p, ACCEPTED, now), p, now);
      if r.error.Some? then Raise(db, r.error.value)
      else Done(Emit(r.db, ProposalResolved(p, db.proposals[p].goal, ACCEPTED), now))
  }

  // ------------------------------------------------------------ startup recovery

  /** The query's condition; both timestamps are compared as text. */
  predicate Due(p: Proposal, now: Instant) { p.status == PENDING && SqlLe(p.expiresAt, now) }

  /** The proposals among the first `n` that the query selects. */
  function DueIds(ps: seq<Proposal>, now: Instant, n: nat): (r: seq<ProposalId>)
    requires n <= |ps|
    ensures forall p :: p in r <==> 0 <= p < n && Due(ps[p], now)
    ensures forall i :: 0 <= i < |r| ==> r[i] < |ps| && Due(ps[r[i]], now)
    ensures forall i, j :: 0 <= i < j < |r| ==> r[i] < r[j]
  {
    if n == 0 then []
    else
      var before := DueIds(ps, now, n - 1);
      assert forall i :: 0 <= i < |before| ==> before[i] in before;
      if Due(ps[n - 1], now) then before + [n - 1] else before
  }

  /** The events recovery writes: one resolution per selected proposal, in order. */
  function Expiries(ps: seq<Proposal>, ids: seq<ProposalId>, now: Instant): seq<Entry>
    requires forall i :: 0 <= i < |ids| ==> ids[i] < |ps|
  {
    if ids == [] then []
    else
      var n := |ids| - 1;
      Expiries(ps, ids[..n], now) + [Entry(ProposalResolved(ids[n], ps[ids[n]].goal, EXPIRED), now)]
  }

  /** `after` is `before` with exactly the proposals in `ids` expired. */
  predicate ExpiredOnly(before: seq<Proposal>, after: seq<Proposal>, ids: seq<ProposalId>, now: Instant) {
    && |after| == |before|
    && forall p :: 0 <= p < |after| ==>
         after[p] == if p in ids then before[p].(status := EXPIRED, resolvedAt := Some(now)) else before[p]
  }

  lemma NothingExpired(ps: seq<Proposal>, now: Instant)
    ensures ExpiredOnly(ps, ps, [], now) && Expiries(ps, [], now) == []
  {
  }

  lemma ExpireOneMore(before: seq<Proposal>, now: Instant, ids: seq<ProposalId>, i: nat, mid: seq<Proposal>)
    requires i < |ids| && (forall j :: 0 <= j < |ids| ==> ids[j] < |before|)
    requires forall j, k :: 0 <= j < k < |ids| ==> ids[j] < ids[k]
    requires ExpiredOnly(before, mid, ids[..i], now)
    ensures |mid| == |before| && mid[ids[i]] == before[ids[i]]
    ensures ExpiredOnly(before, mid[ids[i] := mid[ids[i]].(status := EXPIRED, resolvedAt := Some(now))], ids[..i + 1], now)
    ensures Expiries(before, ids[..i + 1], now)
         == Expiries(before, ids[..i], now) + [Entry(ProposalResolved(ids[i], before[ids[i]].goal, EXPIRED), now)]
  {
    assert ids[..i + 1] == ids[..i] + [ids[i]];
    assert ids[..i + 1][..i] == ids[..i];
    assert ids[i] !in ids[..i];
  }
}
