/**
 * advanced_mode/repository.py: the two-stage change of the operating mode, with a
 * penalty window the environment switches at will.
 *
 * A window read is a parameter of the call that makes it.
 */
module AdvancedMode {
  import opened Wrappers
  import opened Text
  import opened TimeFormat

  type Time = Instant

  const DAY: int := SECONDS_PER_DAY * MICROS_PER_SECOND
  const MINIMUM_IN_ADVANCED: int := 30 * DAY
  const CONFIRMATION_WAIT: int := DAY

  datatype Mode = STANDARD | ADVANCED

  datatype Status = BLOCKED | WAITING | PAUSED | AWAITING | CANCELLED | COMPLETED | INVALIDATED

  datatype Request = Request(
    source: Mode, target: Mode, status: Status, requestedAt: Time, requestConsent: string,
    waitStartedAt: Option<Time>, waitInterruptedAt: Option<Time>, confirmableAt: Option<Time>,
    confirmedAt: Option<Time>, confirmConsent: Option<string>,
    cancelledAt: Option<Time>, invalidatedAt: Option<Time>, resolvedAt: Option<Time>)

  datatype State = State(mode: Mode, activatedAt: Time, requests: seq<Request>)

  datatype ModeError =
    | BlankConsent
    | ActiveTransitionExists
    | SameMode
    | MinimumTimeNotMet
    | NoActiveTransition
    | NotConfirmable
    | SourceModeMismatch
    | InterruptedByPenaltyWindow
    | Overflow // a date past the last one Python has

  predicate Terminal(s: Status) { s == CANCELLED || s == COMPLETED || s == INVALIDATED }

  // ------------------------------------------------------------------- functions

  /** At most one transition, driven by the clock and the penalty window; None on overflow. */
  function ComputeNextState(r: Request, pw: bool, now: Time): Option<Request> {
    match r.status
    case BLOCKED => if pw then Some(r) else StartWait(r, now)
    case WAITING =>
      if pw then Some(Pause(r, now))
      else if r.confirmableAt.Some? && now >= r.confirmableAt.value then Some(r.(status := AWAITING))
      else Some(r)
    case PAUSED => if pw then Some(r) else StartWait(r, now)
    case AWAITING => Some(if pw then Pause(r, now) else r)
    case _ => Some(r)
  }

  function StartWait(r: Request, now: Time): Option<Request> {
    match Plus(now, CONFIRMATION_WAIT)
    case None => None
    case Some(end) => Some(r.(status := WAITING, waitStartedAt := Some(now), confirmableAt := Some(end)))
  }

  function Pause(r: Request, now: Time): Request {
    r.(status := PAUSED, waitInterruptedAt := Some(now), confirmableAt := None)
  }

  /** The row the query for a non-terminal request finds. */
  function Active(rs: seq<Request>): (r: Option<nat>)
    ensures r.Some? ==> r.value < |rs| && !Terminal(rs[r.value].status)
    ensures r.None? ==> forall i :: 0 <= i < |rs| ==> Terminal(rs[i].status)
  {
    if rs == [] then None
    else if !Terminal(rs[|rs| - 1].status) then Some(|rs| - 1)
    else Active(rs[..|rs| - 1])
  }

  function SetRequest(s: State, id: nat, r: Request): State
    requires id < |s.requests|
  {
    s.(requests := s.requests[id := r])
  }

  function Settled(s: State, pw: bool, now: Time): (State, Result<Option<nat>, ModeError>) {
    match Active(s.requests)
    case None => (s, Success(None))
    case Some(id) =>
      match ComputeNextState(s.requests[id], pw, now)
      case None => (s, Failure(Overflow))
      case Some(r) => (SetRequest(s, id, r), Success(Some(id)))
  }

  /** What refuses a request before the penalty window is looked at. */
  function AskError(s: State, target: Mode, consent: string, now: Time): Option<ModeError> {
    if Blank(consent) then Some(BlankConsent)
    else if Active(s.requests).Some? then Some(ActiveTransitionExists)
    else if target == s.mode then Some(SameMode)
    else if target == STANDARD && Plus(s.activatedAt, MINIMUM_IN_ADVANCED).None? then Some(Overflow)
    else if target == STANDARD && now < s.activatedAt + MINIMUM_IN_ADVANCED then Some(MinimumTimeNotMet)
    else None
  }

  function NewRequest(s: State, target: Mode, consent: string, pw: bool, now: Time): Option<Request> {
    var r := Request(s.mode, target, BLOCKED, now, consent, None, None, None, None, None, None, None, None);
    if pw then Some(r) else StartWait(r, now)
  }

  function Asked(s: State, target: Mode, consent: string, pw: bool, now: Time): (State, Result<nat, ModeError>) {
    match AskError(s, target, consent, now)
    case Some(e) => (s, Failure(e))
    case None =>
      match NewRequest(s, target, consent, pw, now)
      case None => (s, Failure(Overflow))
      case Some(r) => (s.(requests := s.requests + [r]), Success(|s.requests|))
  }

  function Cancelled(s: State, id: nat, now: Time): (State, Option<ModeError>) {
    if id >= |s.requests| || Terminal(s.requests[id].status) then (s, Some(NoActiveTransition))
    else
      (SetRequest(s, id, s.requests[id].(status := CANCELLED, cancelledAt := Some(now), resolvedAt := Some(now))), None)
  }

  /** Two of the errors are raised after their own change has been committed. */
  function Confirmed(s: State, id: nat, consent: string, pw: bool, now: Time): (State, Option<ModeError>) {
    if Blank(consent) then (s, Some(BlankConsent))
    else if id >= |s.requests| then (s, Some(NoActiveTransition))
    else
      var r := s.requests[id];
      if r.status != AWAITING then (s, Some(NotConfirmable))
      else if s.mode != r.source then
        (SetRequest(s, id, r.(status := INVALIDATED, invalidatedAt := Some(now), resolvedAt := Some(now),
                              confirmedAt := None, confirmConsent := None, cancelledAt := None)),
         Some(SourceModeMismatch))
      else if pw then (SetRequest(s, id, Pause(r, now)), Some(InterruptedByPenaltyWindow))
      else
        (SetRequest(s, id, r.(status := COMPLETED, confirmedAt := Some(now), confirmConsent := Some(consent),
                              resolvedAt := Some(now))).(mode := r.target, activatedAt := now),
         None)
  }

  class AdvancedModeAdministration {
    var currentMode: Mode
    var modeActivatedAt: Time
    var requests: seq<Request>

    function View(): State
      reads this
    {
      State(currentMode, modeActivatedAt, requests)
    }

    constructor (installedAt: Time)
      ensures View() == Initial(installedAt)
    {
      currentMode, modeActivatedAt, requests := STANDARD, installedAt, [];
    }

    method FetchActiveRequest() returns (id: Option<nat>)
      ensures id == Active(requests)
    {
      var i := |requests|;
      assert requests[..i] == requests;
      while i > 0
        invariant 0 <= i <= |requests| && Active(requests) == Active(requests[..i])
      {
        if !Terminal(requests[i - 1].status) {
          return Some(i - 1);
        }
        assert requests[..i][..i - 1] == requests[..i - 1];
        i := i - 1;
      }
      return None;
    }

    method AdvanceTransitionState(pw: bool, now: Time) returns (r: Result<Option<nat>, ModeError>)
      modifies this
      ensures (View(), r) == Settled(old(View()), pw, now)
    {
      var id := FetchActiveRequest();
      if id.None? {
        return Success(None);
      }
      var request := requests[id.value];
      var updated := ComputeNextState(request, pw, now);
      if updated.None? {
        return Failure(Overflow);
      }
      if updated.value == request {
        assert requests[id.value := updated.value] == requests;
        return Success(id);
      }
      requests := requests[id.value := updated.value];
      return Success(id);
    }

    method RequestTransition(target: Mode, consent: string, pw: bool, now: Time) returns (r: Result<nat, ModeError>)
      modifies this
      ensures (View(), r) == Asked(old(View()), target, consent, pw, now)
    {
      if Blank(consent) {
        return Failure(BlankConsent);
      }
      var active := FetchActiveRequest();
      if active.Some? {
        return Failure(ActiveTransitionExists);
      }
      if target == currentMode {
        return Failure(SameMode);
      }
      if target == STANDARD {
        var minimumMetAt := Plus(modeActivatedAt, MINIMUM_IN_ADVANCED);
        if minimumMetAt.None? {
          return Failure(Overflow);
        }
        if now < minimumMetAt.value {
          return Failure(MinimumTimeNotMet);
        }
      }
      var status, waitStartedAt, confirmableAt := BLOCKED, None, None;
      if !pw {
        var end := Plus(now, CONFIRMATION_WAIT);
        if end.None? {
          return Failure(Overflow);
        }
        status, waitStartedAt, confirmableAt := WAITING, Some(now), end;
      }
      r := Success(|requests|);
      requests := requests + [Request(currentMode, target, status, now, consent, waitStartedAt, None, confirmableAt,
                                      None, None, None, None, None)];
    }

    method CancelRequest(id: nat, now: Time) returns (error: Option<ModeError>)
      modifies this
      ensures (View(), error) == Cancelled(old(View()), id, now)
    {
      if id >= |requests| || Terminal(requests[id].status) {
        return Some(NoActiveTransition);
      }
      requests := requests[id := requests[id].(status := CANCELLED, cancelledAt := Some(now), resolvedAt := Some(now))];
      return None;
    }

    method ConfirmTransition(id: nat, consent: string, pw: bool, now: Time) returns (error: Option<ModeError>)
      modifies this
      ensures (View(), error) == Confirmed(old(View()), id, consent, pw, now)
    {
      if Blank(consent) {
        return Some(BlankConsent);
      }
      if id >= |requests| {
        return Some(NoActiveTransition);
      }
      var request := requests[id];
      if request.status != AWAITING {
        return Some(NotConfirmable);
      }
      if currentMode != request.source {
        requests := requests[id := request.(status := INVALIDATED, invalidatedAt := Some(now), resolvedAt := Some(now),
                                            confirmedAt := None, confirmConsent := None, cancelledAt := None)];
        return Some(SourceModeMismatch);
      }
      if pw {
        requests := requests[id := request.(status := PAUSED, waitInterruptedAt := Some(now), confirmableAt := None)];
        return Some(InterruptedByPenaltyWindow);
      }
      requests := requests[id := request.(status := COMPLETED, confirmedAt := Some(now), confirmConsent := Some(consent),
                                          resolvedAt := Some(now))];
      currentMode, modeActivatedAt := request.target, now;
      return None;
    }
  }

  // ------------------------------------------------------------------------ runs

  function Initial(installedAt: Time): State { State(STANDARD, installedAt, []) }

  datatype Step =
    | Settle
    | Ask(target: Mode, consent: string)
    | Cancel(id: nat)
    | Confirm(id: nat, consent: string)
    | Outside(mode: Mode, activatedAt: Time) // a write by something else

  datatype Timed = Timed(step: Step, now: Time, pw: bool)

  datatype WindowRead = WindowRead(at: Time, active: bool)

  /** A change of the mode by confirming `request`; `read` is the window read of that call. */
  datatype Change = Change(at: Time, to: Mode, request: nat, read: nat)

  /** The state, with every window read so far and every change a confirmation made. */
  datatype World = World(s: State, seen: seq<WindowRead>, changes: seq<Change>)

  /** Whether the call gets as far as asking the penalty engine. */
  predicate ReadsWindow(s: State, t: Timed) {
    match t.step
    case Settle => Active(s.requests).Some?
    case Ask(target, consent) => AskError(s, target, consent, t.now).None?
    case Confirm(id, consent) =>
      !Blank(consent) && id < |s.requests| && s.requests[id].status == AWAITING && s.mode == s.requests[id].source
    case _ => false
  }

  function After(s: State, t: Timed): State {
    match t.step
    case Settle => Settled(s, t.pw, t.now).0
    case Ask(target, consent) => Asked(s, target, consent, t.pw, t.now).0
    case Cancel(id) => Cancelled(s, id, t.now).0
    case Confirm(id, consent) => Confirmed(s, id, consent, t.pw, t.now).0
    case Outside(mode, activatedAt) => s.(mode := mode, activatedAt := activatedAt)
  }

  /** A call that does not read the window does the same whatever the window is. */
  lemma UnreadWindowPlaysNoPart(s: State, t: Timed, pw: bool)
    requires !ReadsWindow(s, t)
    ensures After(s, t.(pw := pw)) == After(s, t)
  {
  }

  function Next(w: World, t: Timed): World {
    World(After(w.s, t),
          if ReadsWindow(w.s, t) then w.seen + [WindowRead(t.now, t.pw)] else w.seen,
          if t.step.Confirm? && ReadsWindow(w.s, t) && !t.pw
          then w.changes + [Change(t.now, w.s.requests[t.step.id].target, t.step.id, |w.seen|)] else w.changes)
  }

  function Run(installedAt: Time, steps: seq<Timed>): World {
    if steps == [] then World(Initial(installedAt), [], [])
    else Next(Run(installedAt, steps[..|steps| - 1]), steps[|steps| - 1])
  }

  /** Time never runs backwards. */
  predicate InOrder(installedAt: Time, steps: seq<Timed>) {
    steps != [] ==>
      && Latest(installedAt, steps[..|steps| - 1]) <= steps[|steps| - 1].now
      && InOrder(installedAt, steps[..|steps| - 1])
  }

  function Latest(installedAt: Time, steps: seq<Timed>): Time {
    if steps == [] then installedAt else steps[|steps| - 1].now
  }

  predicate NoOutside(steps: seq<Timed>) {
    forall i :: 0 <= i < |steps| ==> !steps[i].step.Outside?
  }

  // ----------------------------------------------------------- field invariants

  /** The documented field combinations, and the wait that backs every deadline. */
  predicate RowOk(r: Request) {
    && r.source != r.target
    && (r.resolvedAt.Some? <==> Terminal(r.status))
    && (r.confirmedAt.Some? <==> r.status == COMPLETED)
    && (r.confirmConsent.Some? <==> r.status == COMPLETED)
    && (r.cancelledAt.Some? <==> r.status == CANCELLED)
    && (r.invalidatedAt.Some? <==> r.status == INVALIDATED)
    && (r.status == PAUSED ==> r.confirmableAt.None? && r.waitInterruptedAt.Some?)
    && (r.status == BLOCKED ==> r.waitStartedAt.None? && r.confirmableAt.None?)
    && (r.status == WAITING || r.status == AWAITING || r.status == COMPLETED ==>
          r.waitStartedAt.Some? && r.confirmableAt.Some?
          && r.confirmableAt.value == r.waitStartedAt.value + CONFIRMATION_WAIT)
  }

  predicate RowsOk(rs: seq<Request>) {
    && (forall i :: 0 <= i < |rs| ==> RowOk(rs[i]))
    && (forall i, j :: 0 <= i < |rs| && 0 <= j < |rs| && !Terminal(rs[i].status) && !Terminal(rs[j].status) ==> i == j)
  }

  /** A change of one row that fits its old version and does not reopen it. */
  predicate RowFollows(r: Request, u: Request) {
    RowOk(r) ==> RowOk(u) && (Terminal(r.status) ==> Terminal(u.status))
  }

  lemma RowReplaced(rs: seq<Request>, id: nat, u: Request)
    requires RowsOk(rs) && id < |rs| && RowFollows(rs[id], u)
    ensures RowsOk(rs[id := u])
  {
  }

  lemma RowAdded(rs: seq<Request>, u: Request)
    requires RowsOk(rs) && RowOk(u) && Active(rs).None?
    ensures RowsOk(rs + [u])
  {
  }

  lemma ComputeFollows(r: Request, pw: bool, now: Time)
    requires ComputeNextState(r, pw, now).Some?
    ensures RowFollows(r, ComputeNextState(r, pw, now).value)
  {
  }

  lemma NewRowOk(s: State, target: Mode, consent: string, pw: bool, now: Time)
    requires AskError(s, target, consent, now).None? && NewRequest(s, target, consent, pw, now).Some?
    ensures RowOk(NewRequest(s, target, consent, pw, now).value)
  {
    hide Blank;
  }

  /** A cancelled or confirmed request is the old one or follows it. */
  lemma EndFollows(s: State, id: nat, consent: string, pw: bool, now: Time)
    requires id < |s.requests|
    ensures var c := Cancelled(s, id, now).0;
            |c.requests| == |s.requests| && c.requests == s.requests[id := c.requests[id]]
            && RowFollows(s.requests[id], c.requests[id])
    ensures var c := Confirmed(s, id, consent, pw, now).0;
            |c.requests| == |s.requests| && c.requests == s.requests[id := c.requests[id]]
            && RowFollows(s.requests[id], c.requests[id])
  {
    hide Blank;
  }

  lemma StepKeepsRows(s: State, t: Timed)
    requires RowsOk(s.requests)
    ensures RowsOk(After(s, t).requests)
  {
    hide Blank;
    hide RowsOk;
    hide RowFollows;
    hide RowOk;
    hide ComputeNextState;
    hide NewRequest;
    hide AskError;
    hide Cancelled;
    hide Confirmed;
    var rs := s.requests;
    match t.step {
      case Settle =>
        if Active(rs).Some? && ComputeNextState(rs[Active(rs).value], t.pw, t.now).Some? {
          ComputeFollows(rs[Active(rs).value], t.pw, t.now);
          RowReplaced(rs, Active(rs).value, ComputeNextState(rs[Active(rs).value], t.pw, t.now).value);
        }
      case Ask(target, consent) =>
        if AskError(s, target, consent, t.now).None? && NewRequest(s, target, consent, t.pw, t.now).Some? {
          NewRowOk(s, target, consent, t.pw, t.now);
          AskNeedsNone(s, target, consent, t.now);
          RowAdded(rs, NewRequest(s, target, consent, t.pw, t.now).value);
        }
      case Cancel(id) => EndKeepsRows(s, id, "", t.pw, t.now);
      case Confirm(id, consent) => EndKeepsRows(s, id, consent, t.pw, t.now);
      case Outside(_, _) =>
    }
  }

  lemma AskNeedsNone(s: State, target: Mode, consent: string, now: Time)
    requires AskError(s, target, consent, now).None?
    ensures Active(s.requests).None?
  {
  }

  lemma EndKeepsRows(s: State, id: nat, consent: string, pw: bool, now: Time)
    requires RowsOk(s.requests)
    ensures RowsOk(Cancelled(s, id, now).0.requests) && RowsOk(Confirmed(s, id, consent, pw, now).0.requests)
  {
    if id < |s.requests| {
      EndFollows(s, id, consent, pw, now);
      RowReplaced(s.requests, id, Cancelled(s, id, now).0.requests[id]);
      RowReplaced(s.requests, id, Confirmed(s, id, consent, pw, now).0.requests[id]);
    }
    hide RowsOk;
  }

  /** In every reachable state, outside writes included: the fields fit and at most one request is open. */
  lemma {:induction false} EveryRunKeepsRows(installedAt: Time, steps: seq<Timed>)
    ensures RowsOk(Run(installedAt, steps).s.requests)
  {
    if steps != [] {
      EveryRunKeepsRows(installedAt, steps[..|steps| - 1]);
      StepKeepsRows(Run(installedAt, steps[..|steps| - 1]).s, steps[|steps| - 1]);
    }
  }

  lemma ComputeTwice(r: Request, pw: bool, now: Time)
    requires ComputeNextState(r, pw, now).Some?
    ensures var u := ComputeNextState(r, pw, now).value;
            ComputeNextState(u, pw, now) == Some(u) && (Terminal(u.status) <==> Terminal(r.status))
  {
  }

  lemma OnlyActive(rs: seq<Request>, id: nat)
    requires id < |rs| && !Terminal(rs[id].status)
    requires forall i :: 0 <= i < |rs| && i != id ==> Terminal(rs[i].status)
    ensures Active(rs) == Some(id)
  {
  }

  /** Settling twice at the same instant with the same window is settling once. */
  lemma SettlingIsIdempotent(s: State, pw: bool, now: Time)
    requires RowsOk(s.requests)
    ensures Settled(Settled(s, pw, now).0, pw, now) == Settled(s, pw, now)
  {
    if Active(s.requests).Some? && ComputeNextState(s.requests[Active(s.requests).value], pw, now).Some? {
      var id := Active(s.requests).value;
      ComputeTwice(s.requests[id], pw, now);
      hide ComputeNextState;
      var once := Settled(s, pw, now).0;
      OnlyActive(once.requests, id);
      assert once.requests[id := once.requests[id]] == once.requests;
    }
  }

  /** An outside change of mode cannot be confirmed over: the request ends, the mode stays. */
  lemma MismatchInvalidates(s: State, id: nat, consent: string, pw: bool, now: Time)
    requires RowsOk(s.requests) && id < |s.requests| && s.requests[id].status == AWAITING && !Blank(consent)
    ensures var (after, error) := Confirmed(s, id, consent, pw, now);
            && (error == Some(SourceModeMismatch) <==> s.mode != s.requests[id].source)
            && (s.mode != s.requests[id].source ==>
                  after.mode == s.mode && after.activatedAt == s.activatedAt
                  && after.requests[id].status == INVALIDATED && Active(after.requests).None?)
  {
  }

  // ------------------------------------------------------- what every change took

  /** Read j was made at `at`, and no read from it up to (not including) k saw a window. */
  predicate ClearSince(seen: seq<WindowRead>, j: nat, k: nat, at: Time) {
    j < k <= |seen| && seen[j].at == at && forall i :: j <= i < k ==> !seen[i].active
  }

  /** The request's latest wait started at a window read since when no window was seen. */
  ghost predicate WaitIsClear(seen: seq<WindowRead>, k: nat, r: Request) {
    r.waitStartedAt.Some? && exists j :: ClearSince(seen, j, k, r.waitStartedAt.value)
  }

  function Earliest(s: State): int {
    s.activatedAt + if s.mode == ADVANCED then MINIMUM_IN_ADVANCED else 0
  }

  /** An open request of mode `mode`, not made before `earliest`, without outside writes. */
  ghost predicate OpenIn(mode: Mode, earliest: int, seen: seq<WindowRead>, r: Request, last: Time) {
    && r.source == mode && earliest <= r.requestedAt <= last
    && (r.waitStartedAt.Some? ==> r.requestedAt <= r.waitStartedAt.value)
    && (r.status == WAITING || r.status == AWAITING ==> WaitIsClear(seen, |seen|, r))
    && (r.status == AWAITING ==> r.confirmableAt.Some? && r.confirmableAt.value <= last)
  }

  ghost predicate OpenOk(w: World, r: Request, last: Time) {
    OpenIn(w.s.mode, Earliest(w.s), w.seen, r, last)
  }

  ghost predicate RequestsOk(w: World, last: Time) {
    forall i :: 0 <= i < |w.s.requests| ==>
      w.s.requests[i].status != INVALIDATED
      && (!Terminal(w.s.requests[i].status) ==> OpenOk(w, w.s.requests[i], last))
  }

  /**
   * A change is the confirmation of a completed request, on a window read that saw
   * none, at least 24 hours after that request's latest wait started, with no window
   * seen by any read since then.
   */
  ghost predicate ChangeOk(w: World, c: Change) {
    && c.request < |w.s.requests| && c.read < |w.seen| && w.seen[c.read] == WindowRead(c.at, false)
    && var r := w.s.requests[c.request];
       && r.status == COMPLETED && r.target == c.to && r.confirmedAt == Some(c.at)
       && WaitIsClear(w.seen, c.read + 1, r)
       && r.waitStartedAt.value + CONFIRMATION_WAIT <= c.at
  }

  /** How long a mode lasts at least, once a confirmation has set it. */
  function Stay(m: Mode): int {
    if m == ADVANCED then MINIMUM_IN_ADVANCED + CONFIRMATION_WAIT else CONFIRMATION_WAIT
  }

  predicate LinkOk(cs: seq<Change>, i: nat)
    requires i < |cs|
  {
    if i == 0 then cs[0].to == ADVANCED
    else cs[i].to != cs[i - 1].to && cs[i].at - cs[i - 1].at >= Stay(cs[i - 1].to)
  }

  /** The stored mode is what the changes say. */
  predicate ModeIsLast(w: World, installedAt: Time) {
    if w.changes == [] then w.s.mode == STANDARD && w.s.activatedAt == installedAt
    else w.s.mode == w.changes[|w.changes| - 1].to && w.s.activatedAt == w.changes[|w.changes| - 1].at
  }

  ghost predicate ChangesOk(w: World) {
    && (forall i :: 0 <= i < |w.changes| ==> ChangeOk(w, w.changes[i]))
    && (forall i :: 0 <= i < |w.changes| ==> LinkOk(w.changes, i))
  }

  ghost predicate Inv(w: World, installedAt: Time, last: Time) {
    RowsOk(w.s.requests) && RequestsOk(w, last) && ChangesOk(w) && ModeIsLast(w, installedAt) && w.s.activatedAt <= last
  }

  lemma MoreReads(seen: seq<WindowRead>, more: seq<WindowRead>, k: nat, r: Request)
    requires WaitIsClear(seen, k, r)
    ensures WaitIsClear(seen + more, k, r)
  {
    var j :| ClearSince(seen, j, k, r.waitStartedAt.value);
    assert ClearSince(seen + more, j, k, r.waitStartedAt.value);
  }

  lemma ClearRead(seen: seq<WindowRead>, at: Time, r: Request, kept: Request)
    requires WaitIsClear(seen, |seen|, r) && kept.waitStartedAt == r.waitStartedAt
    ensures WaitIsClear(seen + [WindowRead(at, false)], |seen| + 1, kept)
  {
    var j :| ClearSince(seen, j, |seen|, r.waitStartedAt.value);
    assert ClearSince(seen + [WindowRead(at, false)], j, |seen| + 1, r.waitStartedAt.value);
  }

  lemma WaitBegins(seen: seq<WindowRead>, r: Request, now: Time)
    requires r.waitStartedAt == Some(now)
    ensures WaitIsClear(seen + [WindowRead(now, false)], |seen| + 1, r)
  {
    assert ClearSince(seen + [WindowRead(now, false)], |seen|, |seen| + 1, now);
  }

  /** Old changes stay good: their requests are completed, and reads are only added. */
  lemma OldChangesKept(w: World, t: Timed)
    requires ChangesOk(w)
    ensures forall i :: 0 <= i < |w.changes| ==> ChangeOk(Next(w, t), w.changes[i])
  {
    var n := Next(w, t);
    forall i | 0 <= i < |w.changes| ensures ChangeOk(n, w.changes[i]) {
      var c := w.changes[i];
      assert ChangeOk(w, c);
      CompletedStays(w.s, t, c.request);
      if ReadsWindow(w.s, t) {
        MoreReads(w.seen, [WindowRead(t.now, t.pw)], c.read + 1, w.s.requests[c.request]);
      }
    }
  }

  lemma CompletedStays(s: State, t: Timed, id: nat)
    requires id < |s.requests| && Terminal(s.requests[id].status)
    ensures id < |After(s, t).requests| && After(s, t).requests[id] == s.requests[id]
  {
    hide Blank;
    hide ComputeNextState;
    hide NewRequest;
    hide AskError;
  }

  /** What settling does to an open request, and to its claim that the wait is clear. */
  lemma SettledOpen(mode: Mode, earliest: int, seen: seq<WindowRead>, r: Request, last: Time, pw: bool, now: Time)
    requires OpenIn(mode, earliest, seen, r, last) && last <= now && !Terminal(r.status)
    ensures var u := ComputeNextState(r, pw, now);
            var kept := if u.Some? then u.value else r;
            !Terminal(kept.status) && OpenIn(mode, earliest, seen + [WindowRead(now, pw)], kept, now)
  {
    hide WaitIsClear;
    var u := ComputeNextState(r, pw, now);
    if u.Some? && !pw {
      if r.status == BLOCKED || r.status == PAUSED {
        WaitBegins(seen, u.value, now);
      } else {
        ClearRead(seen, now, r, u.value);
      }
    }
  }

  /** The one open request replaced, the others being closed. */
  lemma OpenReplaced(w: World, n: World, id: nat, last: Time, now: Time)
    requires RequestsOk(w, last) && RowsOk(w.s.requests) && id < |w.s.requests| && !Terminal(w.s.requests[id].status)
    requires |n.s.requests| == |w.s.requests| && n.s.requests == w.s.requests[id := n.s.requests[id]]
    requires n.s.requests[id].status != INVALIDATED
    requires !Terminal(n.s.requests[id].status) ==> OpenOk(n, n.s.requests[id], now)
    ensures RequestsOk(n, now)
  {
    hide RowOk;
    hide OpenOk;
  }

  lemma SettleKeepsRequests(w: World, t: Timed, last: Time)
    requires RowsOk(w.s.requests) && RequestsOk(w, last) && t.step.Settle? && last <= t.now
    ensures RequestsOk(Next(w, t), t.now)
  {
    var n := Next(w, t);
    if Active(w.s.requests).Some? {
      var id := Active(w.s.requests).value;
      var r := w.s.requests[id];
      assert OpenOk(w, r, last);
      SettledOpen(w.s.mode, Earliest(w.s), w.seen, r, last, t.pw, t.now);
      hide ComputeNextState;
      hide OpenIn;
      hide RowsOk;
      hide RequestsOk;
      OpenReplaced(w, n, id, last, t.now);
    }
  }

  lemma AskedOpen(s: State, target: Mode, consent: string, seen: seq<WindowRead>, pw: bool, now: Time)
    requires AskError(s, target, consent, now).None? && NewRequest(s, target, consent, pw, now).Some?
    requires s.activatedAt <= now
    ensures OpenIn(s.mode, Earliest(s), seen + [WindowRead(now, pw)], NewRequest(s, target, consent, pw, now).value, now)
  {
    hide Blank;
    if !pw {
      WaitBegins(seen, NewRequest(s, target, consent, pw, now).value, now);
    }
  }

  lemma AskKeepsRequests(w: World, t: Timed, last: Time)
    requires RequestsOk(w, last) && t.step.Ask? && last <= t.now && w.s.activatedAt <= last
    ensures RequestsOk(Next(w, t), t.now)
  {
    hide OpenIn;
    var n := Next(w, t);
    var asked := NewRequest(w.s, t.step.target, t.step.consent, t.pw, t.now);
    if ReadsWindow(w.s, t) && asked.Some? {
      AskedOpen(w.s, t.step.target, t.step.consent, w.seen, t.pw, t.now);
      hide AskError;
      hide NewRequest;
      assert n.s.requests == w.s.requests + [asked.value];
      assert OpenOk(n, asked.value, t.now);
    } else if ReadsWindow(w.s, t) {
      assert n.s == w.s && Active(w.s.requests).None?;
    } else {
      SameRequests(w, n, last, t.now);
    }
  }

  lemma SameRequests(w: World, n: World, last: Time, now: Time)
    requires RequestsOk(w, last) && last <= now && n.s == w.s && n.seen == w.seen
    ensures RequestsOk(n, now)
  {
  }

  lemma CancelKeepsRequests(w: World, t: Timed, last: Time)
    requires RequestsOk(w, last) && t.step.Cancel? && last <= t.now
    ensures RequestsOk(Next(w, t), t.now)
  {
  }

  /** The one request confirmed was the only open one. */
  lemma ConfirmKeepsRequests(w: World, t: Timed, last: Time)
    requires RowsOk(w.s.requests) && RequestsOk(w, last) && t.step.Confirm? && last <= t.now
    ensures RequestsOk(Next(w, t), t.now)
  {
    hide Blank;
    hide RowOk;
    var n, id := Next(w, t), t.step.id;
    if id < |w.s.requests| && w.s.requests[id].status == AWAITING && !Blank(t.step.consent) {
      assert OpenOk(w, w.s.requests[id], last);
      if t.pw {
        assert OpenOk(n, n.s.requests[id], t.now);
      }
    } else {
      SameRequests(w, n, last, t.now);
    }
  }

  lemma StepKeepsRequests(w: World, t: Timed, last: Time)
    requires RowsOk(w.s.requests) && RequestsOk(w, last) && w.s.activatedAt <= last <= t.now && !t.step.Outside?
    ensures RequestsOk(Next(w, t), t.now)
  {
    hide RowsOk;
    hide RequestsOk;
    hide Next;
    match t.step
    case Settle => SettleKeepsRequests(w, t, last);
    case Ask(_, _) => AskKeepsRequests(w, t, last);
    case Cancel(_) => CancelKeepsRequests(w, t, last);
    case Confirm(_, _) => ConfirmKeepsRequests(w, t, last);
  }

  /** What a confirmation that goes through needs, and what it leaves. */
  lemma ConfirmShape(w: World, t: Timed, last: Time)
    requires RowsOk(w.s.requests) && RequestsOk(w, last)
    requires t.step.Confirm? && ReadsWindow(w.s, t) && !t.pw
    ensures t.step.id < |w.s.requests| && OpenOk(w, w.s.requests[t.step.id], last)
    ensures w.s.requests[t.step.id].status == AWAITING && RowOk(w.s.requests[t.step.id])
    ensures var r, n := w.s.requests[t.step.id], Next(w, t);
            && n.s.requests == w.s.requests[t.step.id := r.(status := COMPLETED, confirmedAt := Some(t.now),
                                                            confirmConsent := Some(t.step.consent), resolvedAt := Some(t.now))]
            && n.seen == w.seen + [WindowRead(t.now, false)]
            && n.changes == w.changes + [Change(t.now, r.target, t.step.id, |w.seen|)]
  {
    hide Blank;
    hide RowOk;
    hide OpenIn;
  }

  /** The change a confirmation makes is well founded ... */
  lemma NewChangeOk(w: World, t: Timed, last: Time)
    requires RowsOk(w.s.requests) && RequestsOk(w, last)
    requires last <= t.now && t.step.Confirm? && ReadsWindow(w.s, t) && !t.pw
    ensures |Next(w, t).changes| == |w.changes| + 1 && ChangeOk(Next(w, t), Next(w, t).changes[|w.changes|])
  {
    ConfirmShape(w, t, last);
    hide Next;
    hide ReadsWindow;
    hide RowsOk;
    hide RequestsOk;
    var r := w.s.requests[t.step.id];
    ClearRead(w.seen, t.now, r, r);
    SameWait(w.seen + [WindowRead(t.now, false)], |w.seen| + 1, r, Next(w, t).s.requests[t.step.id]);
    hide WaitIsClear;
  }

  lemma SameWait(seen: seq<WindowRead>, k: nat, r: Request, u: Request)
    requires WaitIsClear(seen, k, r) && u.waitStartedAt == r.waitStartedAt
    ensures WaitIsClear(seen, k, u)
  {
  }

  /** ... and comes long enough after the one before it, in the other direction. */
  lemma NewLinkOk(w: World, t: Timed, installedAt: Time, last: Time)
    requires RowsOk(w.s.requests) && RequestsOk(w, last) && ModeIsLast(w, installedAt)
    requires last <= t.now && t.step.Confirm? && ReadsWindow(w.s, t) && !t.pw
    ensures |Next(w, t).changes| == |w.changes| + 1 && LinkOk(Next(w, t).changes, |w.changes|)
  {
    ConfirmShape(w, t, last);
    hide Next;
    hide ReadsWindow;
    hide RowsOk;
    hide RequestsOk;
    hide WaitIsClear;
  }

  lemma StepKeepsChanges(w: World, t: Timed, installedAt: Time, last: Time)
    requires Inv(w, installedAt, last) && last <= t.now && !t.step.Outside?
    ensures ChangesOk(Next(w, t))
  {
    OldChangesKept(w, t);
    var n := Next(w, t);
    var changed := t.step.Confirm? && ReadsWindow(w.s, t) && !t.pw;
    if changed {
      NewChangeOk(w, t, last);
      NewLinkOk(w, t, installedAt, last);
    }
    hide ChangeOk;
    hide ReadsWindow;
    hide After;
    assert n.changes[..|w.changes|] == w.changes;
    forall i | 0 <= i < |n.changes| ensures LinkOk(n.changes, i) {
      if i < |w.changes| {
        assert LinkOk(w.changes, i);
      }
    }
  }

  lemma StepKeepsMode(w: World, t: Timed, installedAt: Time, last: Time)
    requires ModeIsLast(w, installedAt) && w.s.activatedAt <= last <= t.now && !t.step.Outside?
    ensures ModeIsLast(Next(w, t), installedAt) && Next(w, t).s.activatedAt <= t.now
  {
    hide Blank;
    hide ComputeNextState;
    hide NewRequest;
    hide AskError;
  }

  lemma {:induction false} EveryRun(installedAt: Time, steps: seq<Timed>)
    requires InOrder(installedAt, steps) && NoOutside(steps)
    ensures Inv(Run(installedAt, steps), installedAt, Latest(installedAt, steps))
  {
    if steps != [] {
      var before, t := steps[..|steps| - 1], steps[|steps| - 1];
      EveryRun(installedAt, before);
      var w, last := Run(installedAt, before), Latest(installedAt, before);
      StepKeepsChanges(w, t, installedAt, last);
      hide ChangesOk;
      hide Next;
      hide After;
      StepKeepsRequests(w, t, last);
      StepKeepsMode(w, t, installedAt, last);
      NextRows(w, t);
    }
  }

  lemma NextRows(w: World, t: Timed)
    requires RowsOk(w.s.requests)
    ensures RowsOk(Next(w, t).s.requests)
  {
    StepKeepsRows(w.s, t);
  }

  // ---------------------------------------------------------------- main results

  /**
   * While only these operations write, in time order and whatever the windows do:
   * the mode is changed by confirmations only, each as ChangeOk says; the changes
   * alternate, an Advanced stay lasting 31 days at least; and no request is invalidated.
   */
  lemma ModeChanges(installedAt: Time, steps: seq<Timed>)
    requires InOrder(installedAt, steps) && NoOutside(steps)
    ensures var w := Run(installedAt, steps);
            && ModeIsLast(w, installedAt)
            && (forall i :: 0 <= i < |w.changes| ==> ChangeOk(w, w.changes[i]) && LinkOk(w.changes, i))
            && (forall i :: 0 <= i < |w.s.requests| ==> w.s.requests[i].status != INVALIDATED)
            && (forall i :: 0 <= i < |w.s.requests| && !Terminal(w.s.requests[i].status) ==>
                  w.s.requests[i].source == w.s.mode)
  {
    EveryRun(installedAt, steps);
    var w := Run(installedAt, steps);
    forall i | 0 <= i < |w.s.requests| && !Terminal(w.s.requests[i].status)
      ensures w.s.requests[i].source == w.s.mode
    {
      assert OpenOk(w, w.s.requests[i], Latest(installedAt, steps));
    }
  }

  /** Two changes in the same direction are at least 32 days apart. */
  lemma {:induction false} SameDirection(cs: seq<Change>, i: nat, j: nat)
    requires i < j < |cs| && cs[i].to == cs[j].to && forall k :: 0 <= k < |cs| ==> LinkOk(cs, k)
    ensures cs[j].at - cs[i].at >= 32 * DAY
    decreases j
  {
    assert LinkOk(cs, j) && LinkOk(cs, j - 1);
    if i < j - 2 {
      SameDirection(cs, i, j - 2);
    }
  }

  /** The mode as anyone can see it changes at exactly the confirmations recorded. */
  lemma ChangesAreRecorded(w: World, t: Timed)
    requires RowsOk(w.s.requests) && !t.step.Outside?
    ensures Next(w, t).s.mode != w.s.mode <==> |Next(w, t).changes| == |w.changes| + 1
    ensures Next(w, t).s.mode == w.s.mode ==> Next(w, t).changes == w.changes && Next(w, t).s.activatedAt == w.s.activatedAt
  {
  }

  // --------------------------------------------------------- changes do happen

  /** How a request settles, and when settling overflows. */
  lemma SettledStatus(r: Request, pw: bool, now: Time)
    ensures Terminal(r.status) ==> ComputeNextState(r, pw, now) == Some(r)
    ensures var u := ComputeNextState(r, pw, now);
            var starts := !pw && (r.status == BLOCKED || r.status == PAUSED);
            var due := r.confirmableAt.Some? && r.confirmableAt.value <= now;
            && (u.None? <==> starts && now + DAY >= SECONDS * MICROS_PER_SECOND)
            && (u.Some? && !Terminal(r.status) ==>
                  && (u.value.status == BLOCKED <==> pw && r.status == BLOCKED)
                  && (u.value.status == PAUSED <==> pw && r.status != BLOCKED)
                  && (u.value.status == WAITING <==> starts || (!pw && r.status == WAITING && !due))
                  && (u.value.status == AWAITING <==> !pw && (r.status == AWAITING || (r.status == WAITING && due)))
                  && u.value.(status := r.status, waitStartedAt := r.waitStartedAt, waitInterruptedAt := r.waitInterruptedAt,
                              confirmableAt := r.confirmableAt) == r
                  && u.value.waitStartedAt == (if starts then Some(now) else r.waitStartedAt)
                  && (var stops := pw && (r.status == WAITING || r.status == AWAITING);
                      && u.value.waitInterruptedAt == (if stops then Some(now) else r.waitInterruptedAt)
                      && u.value.confirmableAt == (if starts then Some(now + DAY) else if stops then None else r.confirmableAt)))
  {
  }

  /** A request of another mode, made when its minimum stay is over, is accepted; with no window it waits a day. */
  lemma AskedIff(s: State, target: Mode, consent: string, pw: bool, now: Time)
    ensures var (after, r) := Asked(s, target, consent, pw, now);
            var minimum := if target == STANDARD then s.activatedAt + 30 * 86_400_000_000 else 0;
            && (r == Failure(BlankConsent) <==> Blank(consent))
            && (r == Failure(ActiveTransitionExists) <==> !Blank(consent) && Active(s.requests).Some?)
            && (r == Failure(SameMode) <==> !Blank(consent) && Active(s.requests).None? && target == s.mode)
            && (r == Failure(MinimumTimeNotMet) <==>
                  !Blank(consent) && Active(s.requests).None? && target != s.mode
                  && now < minimum < SECONDS * MICROS_PER_SECOND)
            && (r.Success? <==>
                  && !Blank(consent) && Active(s.requests).None? && target != s.mode && minimum <= now
                  && (pw || now + 86_400_000_000 < SECONDS * MICROS_PER_SECOND))
            && (r.Failure? ==> after == s)
            && (r.Success? ==>
                  && r.value == |s.requests| && after == s.(requests := after.requests)
                  && |after.requests| == |s.requests| + 1 && s.requests <= after.requests
                  && after.requests[|s.requests|]
                     == Request(s.mode, target, if pw then BLOCKED else WAITING, now, consent,
                                if pw then None else Some(now), None, if pw then None else Some(now + 86_400_000_000),
                                None, None, None, None, None))
  {
    hide Blank;
  }

  /** Confirming: when it goes through, and what else it can say. */
  lemma ConfirmedIff(s: State, id: nat, consent: string, pw: bool, now: Time)
    ensures var (after, error) := Confirmed(s, id, consent, pw, now);
            var ready := !Blank(consent) && id < |s.requests| && s.requests[id].status == AWAITING;
            && (error == Some(BlankConsent) <==> Blank(consent))
            && (error == Some(NoActiveTransition) <==> !Blank(consent) && id >= |s.requests|)
            && (error == Some(NotConfirmable) <==> !Blank(consent) && id < |s.requests| && !ready)
            && (error == Some(SourceModeMismatch) <==> ready && s.requests[id].source != s.mode)
            && (error == Some(InterruptedByPenaltyWindow) <==> ready && s.requests[id].source == s.mode && pw)
            && (error.None? <==> ready && s.requests[id].source == s.mode && !pw)
            && (error.None? ==> after.mode == s.requests[id].target && after.activatedAt == now)
            && (error.Some? ==> after.mode == s.mode && after.activatedAt == s.activatedAt)
            && (!ready ==> after == s)
            && (ready ==>
                  var r := s.requests[id];
                  after.requests == s.requests[id :=
                    if r.source != s.mode then
                      r.(status := INVALIDATED, invalidatedAt := Some(now), resolvedAt := Some(now),
                         confirmedAt := None, confirmConsent := None, cancelledAt := None)
                    else if pw then r.(status := PAUSED, waitInterruptedAt := Some(now), confirmableAt := None)
                    else r.(status := COMPLETED, confirmedAt := Some(now), confirmConsent := Some(consent),
                            resolvedAt := Some(now))])
  {
    hide Blank;
  }

  /** Any open request can be cancelled, and nothing else changes. */
  lemma CancelledIff(s: State, id: nat, now: Time)
    ensures var (after, error) := Cancelled(s, id, now);
            && (error.None? <==>
                  id < |s.requests| && s.requests[id].status != CANCELLED && s.requests[id].status != COMPLETED
                  && s.requests[id].status != INVALIDATED)
            && (error.Some? ==> error == Some(NoActiveTransition) && after == s)
            && (error.None? ==>
                  && after.mode == s.mode && after.activatedAt == s.activatedAt && |after.requests| == |s.requests|
                  && after.requests[id] == s.requests[id].(status := CANCELLED, cancelledAt := Some(now), resolvedAt := Some(now))
                  && forall i :: 0 <= i < |s.requests| && i != id ==> after.requests[i] == s.requests[i])
  {
  }

  /** Asking, settling a day later and confirming then, without a window, sets the mode at that instant. */
  lemma AskSettleConfirm(s: State, target: Mode, consent: string, again: string, now: Time)
    requires Active(s.requests).None? && !Blank(consent) && !Blank(again) && target != s.mode
    requires target == STANDARD ==> s.activatedAt + 30 * DAY <= now
    requires now + DAY < SECONDS * MICROS_PER_SECOND
    ensures var asked := Asked(s, target, consent, false, now);
            var settled := Settled(asked.0, false, now + DAY);
            var (last, error) := Confirmed(settled.0, |s.requests|, again, false, now + DAY);
            && asked.1 == Success(|s.requests|) && settled.1 == Success(Some(|s.requests|))
            && error.None? && last.mode == target && last.activatedAt == now + DAY
  {
    hide Blank;
    var asked, id := Asked(s, target, consent, false, now).0, |s.requests|;
    AskedIff(s, target, consent, false, now);
    assert Active(asked.requests) == Some(id);
    SettledStatus(asked.requests[id], false, now + DAY);
    ConfirmedIff(Settled(asked, false, now + DAY).0, id, again, false, now + DAY);
    hide Asked;
    hide ComputeNextState;
    hide Confirmed;
    hide Active;
  }

  /** A request that a window blocked or paused becomes confirmable a day after the first settle without one. */
  lemma InterruptedCanResume(s: State, id: nat, now: Time)
    requires Active(s.requests) == Some(id) && (s.requests[id].status == BLOCKED || s.requests[id].status == PAUSED)
    requires now + DAY < SECONDS * MICROS_PER_SECOND
    ensures var restarted := Settled(s, false, now).0;
            var ready := Settled(restarted, false, now + DAY).0;
            && id < |ready.requests| && Active(ready.requests) == Some(id) && ready.requests[id].status == AWAITING
            && ready.requests[id].source == s.requests[id].source && ready.mode == s.mode
  {
    var restarted := Settled(s, false, now).0;
    ActiveReplaced(s.requests, id, restarted.requests[id]);
    ActiveReplaced(restarted.requests, id, Settled(restarted, false, now + DAY).0.requests[id]);
  }

  lemma {:induction false} ActiveReplaced(rs: seq<Request>, id: nat, u: Request)
    requires Active(rs) == Some(id) && !Terminal(u.status)
    ensures Active(rs[id := u]) == Some(id)
  {
    if id < |rs| - 1 {
      assert rs[id := u][..|rs| - 1] == rs[..|rs| - 1][id := u];
      ActiveReplaced(rs[..|rs| - 1], id, u);
    }
  }

  lemma {:induction false} NoneLeftOpen(rs: seq<Request>)
    requires forall i :: 0 <= i < |rs| ==> Terminal(rs[i].status)
    ensures Active(rs).None?
  {
  }

  /** From when on a request for the other mode is accepted. */
  function Soonest(s: State, now: Time): int {
    if s.mode == ADVANCED && s.activatedAt + 30 * DAY > now then s.activatedAt + 30 * DAY else now
  }

  /** The wait of a request made as soon as possible ends before the calendar does. */
  predicate HasRoom(s: State, now: Time) {
    Soonest(s, now) + DAY < SECONDS * MICROS_PER_SECOND
  }

  /** A request is open whose wait is running or over. */
  predicate Underway(s: State) {
    Active(s.requests).Some? && (s.requests[Active(s.requests).value].status == WAITING
                                 || s.requests[Active(s.requests).value].status == AWAITING)
  }

  function Other(m: Mode): Mode { if m == STANDARD then ADVANCED else STANDARD }

  /** `more` goes on from `steps`, in time order, and changes the mode once, to the other one. */
  ghost predicate ChangesMode(installedAt: Time, steps: seq<Timed>, more: seq<Timed>) {
    && NoOutside(more) && InOrder(installedAt, steps + more)
    && Run(installedAt, steps + more).s.mode == Other(Run(installedAt, steps).s.mode)
  }

  function AfterAll(s: State, more: seq<Timed>): State
    decreases |more|
  {
    if more == [] then s else AfterAll(After(s, more[0]), more[1..])
  }

  /** Calls only, in time order from `last` on. */
  predicate GoesOn(last: Time, more: seq<Timed>)
    decreases |more|
  {
    more != [] ==> last <= more[0].now && !more[0].step.Outside? && GoesOn(more[0].now, more[1..])
  }

  lemma OneMore(installedAt: Time, steps: seq<Timed>, t: Timed)
    ensures Run(installedAt, steps + [t]).s == After(Run(installedAt, steps).s, t)
    ensures InOrder(installedAt, steps + [t]) <==> Latest(installedAt, steps) <= t.now && InOrder(installedAt, steps)
    ensures Latest(installedAt, steps + [t]) == t.now
  {
    assert (steps + [t])[..|steps|] == steps;
    hide After;
  }

  lemma {:induction false} RunGoesOn(installedAt: Time, steps: seq<Timed>, more: seq<Timed>)
    requires InOrder(installedAt, steps) && GoesOn(Latest(installedAt, steps), more)
    ensures NoOutside(more) && InOrder(installedAt, steps + more)
    ensures Run(installedAt, steps + more).s == AfterAll(Run(installedAt, steps).s, more)
    decreases |more|
  {
    hide Run;
    hide InOrder;
    hide Latest;
    hide After;
    if more == [] {
      assert steps + more == steps;
    } else {
      OneMore(installedAt, steps, more[0]);
      RunGoesOn(installedAt, steps + [more[0]], more[1..]);
      assert steps + [more[0]] + more[1..] == steps + more;
      assert more == [more[0]] + more[1..];
    }
  }

  /** Cancelling what is open leaves nothing open and the mode alone. */
  lemma CancelClears(s: State, id: nat, now: Time)
    requires RowsOk(s.requests) && Active(s.requests) == Some(id)
    ensures var after := After(s, Timed(Cancel(id), now, false));
            Active(after.requests).None? && after.mode == s.mode && after.activatedAt == s.activatedAt
  {
    NoneLeftOpen(Cancelled(s, id, now).0.requests);
  }

  function ThreeCalls(s: State, at: Time): (r: seq<Timed>)
    requires at + DAY < SECONDS * MICROS_PER_SECOND
    ensures |r| == 3
  {
    [Timed(Ask(Other(s.mode), "consent"), at, false), Timed(Settle, at + DAY, false),
     Timed(Confirm(|s.requests|, "consent"), at + DAY, false)]
  }

  lemma AfterThree(s: State, a: Timed, b: Timed, c: Timed, last: Time)
    ensures AfterAll(s, [a, b, c]) == After(After(After(s, a), b), c)
    ensures last <= a.now <= b.now <= c.now && !a.step.Outside? && !b.step.Outside? && !c.step.Outside? ==>
              GoesOn(last, [a, b, c])
  {
    hide After;
    assert [a, b, c][1..] == [b, c] && [b, c][1..] == [c] && [c][1..] == [];
    if last <= a.now <= b.now <= c.now && !a.step.Outside? && !b.step.Outside? && !c.step.Outside? {
      assert GoesOn(b.now, [c]) && GoesOn(a.now, [b, c]);
    }
    assert AfterAll(After(After(s, a), b), [c]) == After(After(After(s, a), b), c);
  }

  lemma ThreeCallsChange(s: State, at: Time, last: Time)
    requires Active(s.requests).None? && HasRoom(s, last) && at == Soonest(s, last)
    ensures GoesOn(last, ThreeCalls(s, at)) && AfterAll(s, ThreeCalls(s, at)).mode == Other(s.mode)
  {
    var calls := ThreeCalls(s, at);
    assert "consent"[0] == 'c';
    AskSettleConfirm(s, Other(s.mode), "consent", "consent", at);
    AfterThree(s, calls[0], calls[1], calls[2], last);
    assert calls == [calls[0], calls[1], calls[2]];
    hide AfterAll;
    hide GoesOn;
    hide Active;
    hide Asked;
    hide Settled;
    hide Confirmed;
    hide Blank;
  }

  /** From any state there is, outside writes included, that has room, some run changes the mode. */
  lemma RoomChangesMode(installedAt: Time, steps: seq<Timed>) returns (more: seq<Timed>)
    requires InOrder(installedAt, steps) && HasRoom(Run(installedAt, steps).s, Latest(installedAt, steps))
    ensures ChangesMode(installedAt, steps, more)
  {
    EveryRunKeepsRows(installedAt, steps);
    var s, now := Run(installedAt, steps).s, Latest(installedAt, steps);
    hide Run;
    hide Latest;
    hide InOrder;
    hide RowsOk;
    hide Active;
    hide After;
    if Active(s.requests).None? {
      more := ThreeCalls(s, Soonest(s, now));
      ThreeCallsChange(s, Soonest(s, now), now);
    } else {
      var cancel := Timed(Cancel(Active(s.requests).value), now, false);
      var cleared := After(s, cancel);
      CancelClears(s, cancel.step.id, now);
      var calls := ThreeCalls(cleared, Soonest(cleared, now));
      ThreeCallsChange(cleared, Soonest(cleared, now), now);
      hide ThreeCalls;
      more := [cancel] + calls;
      assert more[1..] == calls;
    }
    RunGoesOn(installedAt, steps, more);
  }

  /** What is left to do when a request is under way: settle it once its wait is over, and confirm it. */
  function LastCalls(s: State, id: nat, last: Time): (r: seq<Timed>)
    requires id < |s.requests| && s.requests[id].confirmableAt.Some?
  {
    var at := if s.requests[id].confirmableAt.value > last then s.requests[id].confirmableAt.value else last;
    [Timed(Settle, at, false), Timed(Confirm(id, "consent"), at, false)]
  }

  lemma LastCallsChange(s: State, id: nat, last: Time)
    requires Active(s.requests) == Some(id) && (s.requests[id].status == WAITING || s.requests[id].status == AWAITING)
    requires s.requests[id].confirmableAt.Some? && s.requests[id].source == s.mode && s.requests[id].target != s.mode
    ensures GoesOn(last, LastCalls(s, id, last)) && AfterAll(s, LastCalls(s, id, last)).mode == Other(s.mode)
  {
    var calls := LastCalls(s, id, last);
    assert "consent"[0] == 'c';
    var settled := Settled(s, false, calls[0].now).0;
    SettledStatus(s.requests[id], false, calls[0].now);
    ConfirmedIff(settled, id, "consent", false, calls[0].now);
    hide ComputeNextState;
    hide Confirmed;
    hide Blank;
    hide Active;
    assert calls[1..] == [calls[1]] && [calls[1]][1..] == [];
    assert AfterAll(settled, [calls[1]]) == After(settled, calls[1]);
    assert GoesOn(calls[1].now, []);
  }

  /** And from a request whose wait is running or over, however late it is. */
  lemma UnderwayChangesMode(installedAt: Time, steps: seq<Timed>) returns (more: seq<Timed>)
    requires InOrder(installedAt, steps) && NoOutside(steps) && Underway(Run(installedAt, steps).s)
    ensures ChangesMode(installedAt, steps, more)
  {
    EveryRunKeepsRows(installedAt, steps);
    ModeChanges(installedAt, steps);
    var s, now := Run(installedAt, steps).s, Latest(installedAt, steps);
    var id := Active(s.requests).value;
    assert RowOk(s.requests[id]) && s.requests[id].source == s.mode;
    hide Run;
    hide Latest;
    hide InOrder;
    hide Active;
    LastCallsChange(s, id, now);
    more := LastCalls(s, id, now);
    RunGoesOn(installedAt, steps, more);
  }

  /** No room for a wait, and none running or over; what is open was asked for when the rules allowed it. */
  predicate Stuck(s: State, last: Time) {
    && RowsOk(s.requests) && !HasRoom(s, last) && !Underway(s)
    && (Active(s.requests).Some? ==> Soonest(s, last) == last)
  }

  lemma StuckSettles(s: State, t: Timed, last: Time)
    requires Stuck(s, last) && last <= t.now && t.step.Settle?
    ensures After(s, t).mode == s.mode && Stuck(After(s, t), t.now)
  {
    StepKeepsRows(s, t);
    if Active(s.requests).Some? {
      var id := Active(s.requests).value;
      SettledStatus(s.requests[id], t.pw, t.now);
      if ComputeNextState(s.requests[id], t.pw, t.now).Some? {
        ActiveReplaced(s.requests, id, ComputeNextState(s.requests[id], t.pw, t.now).value);
      }
    }
    hide ComputeNextState;
    hide RowsOk;
    hide Active;
  }

  lemma StuckAsks(s: State, t: Timed, last: Time)
    requires Stuck(s, last) && last <= t.now && t.step.Ask?
    ensures After(s, t).mode == s.mode && Stuck(After(s, t), t.now)
  {
    StepKeepsRows(s, t);
    AskedIff(s, t.step.target, t.step.consent, t.pw, t.now);
    hide Asked;
    hide Blank;
    hide RowsOk;
  }

  /** Ending a request leaves the others, of which none is open. */
  lemma StuckEnds(s: State, t: Timed, last: Time)
    requires Stuck(s, last) && last <= t.now && (t.step.Cancel? || t.step.Confirm?)
    ensures After(s, t).mode == s.mode && Stuck(After(s, t), t.now)
  {
    StepKeepsRows(s, t);
    var id := t.step.id;
    if id < |s.requests| && !Terminal(s.requests[id].status) {
      OnlyActive(s.requests, id);
      NoneLeftOpen(Cancelled(s, id, t.now).0.requests);
    }
    hide Blank;
    hide Active;
  }

  lemma StuckStays(s: State, t: Timed, last: Time)
    requires Stuck(s, last) && last <= t.now && !t.step.Outside?
    ensures After(s, t).mode == s.mode && Stuck(After(s, t), t.now)
  {
    hide *;
    match t.step
    case Settle => StuckSettles(s, t, last);
    case Ask(_, _) => StuckAsks(s, t, last);
    case _ => StuckEnds(s, t, last);
  }

  lemma {:induction false} StuckForGood(installedAt: Time, steps: seq<Timed>, more: seq<Timed>)
    requires Stuck(Run(installedAt, steps).s, Latest(installedAt, steps))
    requires NoOutside(more) && InOrder(installedAt, steps + more)
    ensures Run(installedAt, steps + more).s.mode == Run(installedAt, steps).s.mode
    ensures Stuck(Run(installedAt, steps + more).s, Latest(installedAt, steps + more))
    decreases |more|
  {
    if more == [] {
      assert steps + more == steps;
    } else {
      var before, t := more[..|more| - 1], more[|more| - 1];
      assert steps + more == steps + before + [t];
      OneMore(installedAt, steps + before, t);
      hide Run;
      hide InOrder;
      hide Latest;
      hide Stuck;
      StuckForGood(installedAt, steps, before);
      StuckStays(Run(installedAt, steps + before).s, t, Latest(installedAt, steps + before));
    }
  }

  /**
   * Exactly when the mode can still be changed: a wait begun as soon as the rules allow
   * ends within the calendar, or a request's wait is running or over already.
   */
  lemma ModeCanChangeIff(installedAt: Time, steps: seq<Timed>)
    requires InOrder(installedAt, steps) && NoOutside(steps)
    ensures (exists more :: ChangesMode(installedAt, steps, more)) <==>
            HasRoom(Run(installedAt, steps).s, Latest(installedAt, steps)) || Underway(Run(installedAt, steps).s)
  {
    EveryRunKeepsRows(installedAt, steps);
    var s := Run(installedAt, steps).s;
    EveryRun(installedAt, steps);
    if Active(s.requests).Some? {
      assert OpenOk(Run(installedAt, steps), s.requests[Active(s.requests).value], Latest(installedAt, steps));
    }
    hide Run;
    hide InOrder;
    hide RowsOk;
    hide HasRoom;
    hide Underway;
    if HasRoom(s, Latest(installedAt, steps)) {
      var more := RoomChangesMode(installedAt, steps);
    } else if Underway(s) {
      var more := UnderwayChangesMode(installedAt, steps);
    } else {
      forall more | ChangesMode(installedAt, steps, more) ensures false {
        StuckForGood(installedAt, steps, more);
      }
    }
  }
}
