/**
 * goal_management/repository.py, the GoalManager class: the calls as they change the
 * tables, each proved against its function and keeping the books of every run.
 */
module GoalManagement {
  import opened Wrappers
  import opened TimeFormat
  import opened Goals
  import opened GoalBooks

  lemma CallKeepsBooks(db: Db, c: Timed)
    requires Books(db) && LogRebuilds(db)
    ensures Books(Do(db, c).db) && LogRebuilds(Do(db, c).db)
  {
    DoKeepsBooks(db, c);
    DoRebuilds(db, c);
  }

  lemma AcceptKeepsBooks(db: Db, p: ProposalId, now: Instant)
    requires Books(db) && LogRebuilds(db)
    ensures Books(Accept(db, p, now).db) && LogRebuilds(Accept(db, p, now).db)
  {
    hide Accept;
    hide LogRebuilds;
    AcceptBooks(db, p, now);
    AcceptRebuilds(db, p, now);
  }

  lemma ResolveKeepsBooks(db: Db, p: ProposalId, status: ProposalStatus, now: Instant)
    requires Books(db) && LogRebuilds(db) && (status == DECLINED || status == EXPIRED)
    ensures Books(Resolve(db, p, status, now).db) && LogRebuilds(Resolve(db, p, status, now).db)
  {
    hide Resolve;
    hide Books;
    hide LogRebuilds;
    if status == DECLINED {
      CallKeepsBooks(db, Timed(CallDecline(p), now));
    } else {
      CallKeepsBooks(db, Timed(CallExpire(p), now));
    }
  }

  class GoalManager {
    var goals: seq<Goal>
    var versions: seq<Version>
    var proposals: seq<Proposal>
    var contents: seq<Content>
    var evidence: seq<Evidence>
    var evaluations: seq<Evaluation>
    var log: seq<Entry>

    function State(): Db
      reads this
    {
      Db(goals, versions, proposals, contents, evidence, evaluations, log)
    }

    /** The books are kept and the log rebuilds the tables. */
    ghost predicate Valid()
      reads this
    {
      Books(State()) && LogRebuilds(State())
    }

    constructor ()
      ensures State() == EMPTY && Valid()
    {
      goals, versions, proposals, contents, evidence, evaluations, log := [], [], [], [], [], [], [];
      GoalRuns([]);
    }

    method WriteEvent(e: Event, now: Instant)
      modifies `log
      ensures log == old(log) + [Entry(e, now)]
    {
      log := log + [Entry(e, now)];
    }

    method Rollback(saved: Db)
      modifies this
      ensures State() == saved
    {
      goals, versions, proposals, contents := saved.goals, saved.versions, saved.proposals, saved.contents;
      evidence, evaluations, log := saved.evidence, saved.evaluations, saved.log;
    }

    method CreateGoal(title: string, target: string, trustDomain: string, via: string, now: Instant) returns (g: GoalId)
      requires Valid()
      modifies this
      ensures g == |old(goals)|
      ensures State() == Create(old(State()), title, target, trustDomain, via, now).db
      ensures Valid()
    {
      CallKeepsBooks(State(), Timed(CallCreate(title, target, trustDomain, via), now));
      hide Books;
      hide LogRebuilds;
      hide Refs;
      var versionId := |versions|; // generated before either row exists
      g := |goals|;
      goals := goals + [Goal(versionId, ACTIVE, now, now, None, None)];
      versions := versions + [Version(g, 1, title, target, trustDomain, now, via, None, None)];
      WriteEvent(GoalCreated(g, versionId, trustDomain), now);
    }

    method TransitionGoal(g: GoalId, m: Move, now: Instant) returns (error: Option<GoalError>)
      requires Valid()
      modifies this
      ensures Outcome(State(), error) == Transition(old(State()), g, m, now)
      ensures Valid()
    {
      CallKeepsBooks(State(), Timed(CallMove(g, m), now));
      hide Books;
      hide LogRebuilds;
      hide Refs;
      if g >= |goals| {
        return Some(GoalNotFound);
      }
      if goals[g].status !in AllowedFrom(m) {
        return Some(InvalidGoalTransition(goals[g].status));
      }
      goals := goals[g := goals[g].(status := Target(m), statusChangedAt := now)];
      WriteEvent(EventOf(m, g), now);
      return None;
    }

    method ArchiveGoal(g: GoalId, now: Instant) returns (error: Option<GoalError>)
      requires Valid()
      modifies this
      ensures Outcome(State(), error) == Archive(old(State()), g, now)
      ensures Valid()
    {
      CallKeepsBooks(State(), Timed(CallArchive(g), now));
      hide Books;
      hide LogRebuilds;
      hide Refs;
      if g >= |goals| {
        return Some(GoalNotFound);
      }
      if !Terminal(goals[g].status) {
        return Some(InvalidGoalTransition(goals[g].status));
      }
      goals := goals[g := goals[g].(archivedAt := Some(now))];
      WriteEvent(GoalArchived(g), now);
      return None;
    }

    method RecordEvidence(e: Evidence, now: Instant) returns (error: Option<GoalError>)
      requires Valid()
      modifies this
      ensures Outcome(State(), error) == Observe(old(State()), e, now)
      ensures Valid()
    {
      CallKeepsBooks(State(), Timed(CallObserve(e), now));
      hide Books;
      hide LogRebuilds;
      hide Refs;
      if e.goal >= |goals| || e.version >= |versions| {
        return Some(ForeignKeyViolation);
      }
      evidence := evidence + [e];
      WriteEvent(EvidenceRecorded(|evidence| - 1, e.goal, e.outcome), now);
      return None;
    }

    method RecordEvaluation(e: Evaluation, triggers: seq<nat>, now: Instant) returns (error: Option<GoalError>)
      requires Valid()
      modifies this
      ensures Outcome(State(), error) == Evaluate(old(State()), e, triggers, now)
      ensures Valid()
    {
      CallKeepsBooks(State(), Timed(CallEvaluate(e, triggers), now));
      hide Books;
      hide LogRebuilds;
      hide Refs;
      if triggers == [] {
        return Some(NoTriggeringEvidence);
      }
      if e.goal >= |goals| {
        return Some(ForeignKeyViolation);
      }
      evaluations := evaluations + [e];
      WriteEvent(EvaluationRecorded(|evaluations| - 1, e.goal, e.intervention), now);
      return None;
    }

    method CreateChangeProposal(evaluation: Option<nat>, g: GoalId, change: Change, expiresAt: Instant,
                                content: Content, now: Instant)
      returns (error: Option<GoalError>)
      requires Valid()
      modifies this
      ensures Outcome(State(), error) == Propose(old(State()), evaluation, g, change, expiresAt, content, now)
      ensures Valid()
    {
      CallKeepsBooks(State(), Timed(CallPropose(evaluation, g, change, expiresAt, content), now));
      hide Books;
      hide LogRebuilds;
      hide Refs;
      if g >= |goals| || (evaluation.Some? && evaluation.value >= |evaluations|) {
        return Some(ForeignKeyViolation);
      }
      var p := |proposals|;
      proposals := proposals + [Proposal(evaluation, g, change, expiresAt, PENDING, now, None)];
      contents := contents + [content];
      WriteEvent(ProposalCreated(p, g, change), now);
      return None;
    }

    method AcceptProposal(p: ProposalId, now: Instant) returns (error: Option<GoalError>)
      requires Valid()
      modifies this
      ensures Outcome(State(), error) == Accept(old(State()), p, now)
      ensures Valid()
    {
      AcceptKeepsBooks(State(), p, now);
      assert Refs(State());
      hide Books;
      hide LogRebuilds;
      hide Effect;
      if p >= |proposals| {
        return Some(ProposalNotFound);
      }
      if proposals[p].status != PENDING {
        return Some(InvalidProposalState(proposals[p].status));
      }
      var saved := State();
      proposals := proposals[p := proposals[p].(status := ACCEPTED, resolvedAt := Some(now))];
      error := ApplyChange(p, now);
      if error.Some? {
        Rollback(saved);
      } else {
        WriteEvent(ProposalResolved(p, saved.proposals[p].goal, ACCEPTED), now);
      }
    }

    /** The dispatch on the proposed change. */
    method ApplyChange(p: ProposalId, now: Instant) returns (error: Option<GoalError>)
      requires Refs(State()) && p < |proposals|
      modifies this
      ensures Outcome(State(), error) == Effect(old(State()), p, now)
    {
      hide Adapt;
      hide Replace;
      hide Abandon;
      var content, g := contents[p], proposals[p].goal;
      error := None;
      match proposals[p].change {
        case ADAPT_TARGET => error := ApplyAdaptation(g, content, now);
        case PROPOSE_REPLACEMENT => error := ApplyReplacement(g, content, now);
        case PROPOSE_ABANDONMENT => error := ApplyAbandonment(g, now);
        case _ =>
      }
    }

    method ApplyAdaptation(g: GoalId, c: Content, now: Instant) returns (error: Option<GoalError>)
      requires Refs(State()) && g < |goals|
      modifies this
      ensures Outcome(State(), error) == Adapt(old(State()), g, c, now)
    {
      if goals[g].status != ACTIVE {
        return Some(InvalidGoalTransition(goals[g].status));
      }
      var was, id := versions[goals[g].current], |versions|;
      versions := versions + [Version(g, was.number + 1, Or(c.title, was.title), Or(c.target, was.target),
                                      was.trustDomain, now, APPROVED, Some(c.reason), Some(goals[g].current))];
      goals := goals[g := goals[g].(current := id)];
      WriteEvent(GoalAdapted(g, id, c.reason), now);
      return None;
    }

    method ApplyReplacement(g: GoalId, c: Content, now: Instant) returns (error: Option<GoalError>)
      requires Refs(State()) && g < |goals|
      modifies this
      ensures Outcome(State(), error) == Replace(old(State()), g, c, now)
    {
      if !Live(goals[g].status) {
        return Some(InvalidGoalTransition(goals[g].status));
      }
      goals := goals[g := goals[g].(status := REPLACED, statusChangedAt := now)];
      var was, versionId, id := versions[goals[g].current], |versions|, |goals|;
      goals := goals + [Goal(versionId, ACTIVE, now, now, Some(g), None)];
      versions := versions + [Version(id, 1, Or(c.title, was.title), Or(c.target, was.target), was.trustDomain,
                                      now, APPROVED, None, None)];
      WriteEvent(GoalReplaced(g, id), now);
      WriteEvent(GoalCreated(id, versionId, was.trustDomain), now);
      return None;
    }

    method ApplyAbandonment(g: GoalId, now: Instant) returns (error: Option<GoalError>)
      requires g < |goals|
      modifies this
      ensures Outcome(State(), error) == Abandon(old(State()), g, now)
    {
      if !Live(goals[g].status) {
        return Some(InvalidGoalTransition(goals[g].status));
      }
      goals := goals[g := goals[g].(status := ABANDONED, statusChangedAt := now)];
      WriteEvent(GoalAbandoned(g), now);
      return None;
    }

    method DeclineProposal(p: ProposalId, now: Instant) returns (error: Option<GoalError>)
      requires Valid()
      modifies `proposals, `log
      ensures Outcome(State(), error) == Resolve(old(State()), p, DECLINED, now)
      ensures Valid()
    {
      error := ResolveWithoutEffect(p, DECLINED, now);
    }

    method ResolveWithoutEffect(p: ProposalId, status: ProposalStatus, now: Instant) returns (error: Option<GoalError>)
      requires Valid() && (status == DECLINED || status == EXPIRED)
      modifies `proposals, `log
      ensures Outcome(State(), error) == Resolve(old(State()), p, status, now)
      ensures Valid()
    {
      ResolveKeepsBooks(State(), p, status, now);
      hide Books;
      hide LogRebuilds;
      hide Refs;
      if p >= |proposals| {
        return Some(ProposalNotFound);
      }
      if proposals[p].status != PENDING {
        return Some(InvalidProposalState(proposals[p].status));
      }
      proposals := proposals[p := proposals[p].(status := status, resolvedAt := Some(now))];
      WriteEvent(ProposalResolved(p, proposals[p].goal, status), now);
      return None;
    }

    /**
     * Expires exactly the pending proposals past their deadline, each in a
     * transaction of its own; nothing raises, nothing else changes.
     */
    method RecoverGoalManagementState(now: Instant) returns (expired: seq<ProposalId>)
      requires Valid()
      modifies `proposals, `log
      ensures Valid()
      ensures expired == DueIds(old(proposals), now, |old(proposals)|)
      ensures ExpiredOnly(old(proposals), proposals, expired, now)
      ensures log == old(log) + Expiries(old(proposals), expired, now)
    {
      hide Valid;
      hide SqlLe;
      hide DueIds;
      hide ExpiredOnly;
      hide Expiries;
      var pending := DueIds(proposals, now, |proposals|);
      ghost var before := proposals;
      expired := [];
      NothingExpired(before, now);
      for i := 0 to |pending|
        invariant Valid()
        invariant expired == pending[..i] && ExpiredOnly(before, proposals, expired, now)
        invariant log == old(log) + Expiries(before, expired, now)
      {
        ExpireOneMore(before, now, pending, i, proposals);
        assert Due(proposals[pending[i]], now);
        var error := ResolveWithoutEffect(pending[i], EXPIRED, now);
        expired := expired + [pending[i]];
        assert expired == pending[..i + 1];
      }
      assert expired == pending;
    }
  }
}
