/**
 * penalty_engine/extension.py and window.py: how many hours a confirmed incident
 * adds to a penalty window, and the 336-hour ceiling. Hours are exact reals.
 */
module Extension {
  import opened Wrappers

  datatype Severity = MINOR | MODERATE | MAJOR | CRITICAL

  datatype Cooperation = Cooperation(selfDisclosed: bool, activeInResolution: bool)

  datatype Reason = BY_SEVERITY | BY_REPETITION | BY_LOW_COOPERATION | ISOLATED_LOW_SEVERITY

  datatype Context = Context(
    severity: Severity, cooperation: Cooperation, sameRuleCount: int, capacity: real, duringRecoveryTask: bool)

  datatype Decision = Decision(
    eligible: bool, reason: Reason, baseHours: Option<real>, mitigationHours: real,
    uncappedHours: Option<real>, assignedHours: real, capacityLimited: bool)

  // --------------------------------------------------------------- the four stages

  predicate HighCooperation(c: Cooperation) { c.selfDisclosed && c.activeInResolution }

  function Eligibility(c: Context): (bool, Reason) {
    if c.severity == MAJOR || c.severity == CRITICAL then (true, BY_SEVERITY)
    else if c.sameRuleCount > 1 then (true, BY_REPETITION)
    else if !HighCooperation(c.cooperation) then (true, BY_LOW_COOPERATION)
    else (false, ISOLATED_LOW_SEVERITY)
  }

  function BaseHoursOf(s: Severity): real {
    match s
    case MINOR => 4.0
    case MODERATE => 12.0
    case MAJOR => 24.0
    case CRITICAL => 48.0
  }

  const REPETITION_INCREMENT := 6.0

  function BaseMagnitude(s: Severity, count: int): real {
    BaseHoursOf(s) + if count > 1 then REPETITION_INCREMENT * (count - 1) as real else 0.0
  }

  function MinimumRetained(s: Severity): Option<real> {
    match s
    case MAJOR => Some(0.5)
    case CRITICAL => Some(0.7)
    case _ => None
  }

  function Min(a: real, b: real): real { if a <= b then a else b }

  function Max(a: real, b: real): real { if a >= b then a else b }

  function MitigationFraction(c: Cooperation, duringRecoveryTask: bool): real {
    Min((if c.selfDisclosed then 0.3 else 0.0) + (if c.activeInResolution then 0.3 else 0.0)
        + (if duringRecoveryTask then 0.2 else 0.0), 1.0)
  }

  function Mitigated(base: real, s: Severity, c: Cooperation, duringRecoveryTask: bool): real {
    var softened := base * (1.0 - MitigationFraction(c, duringRecoveryTask));
    match MinimumRetained(s)
    case Some(fraction) => Max(softened, base * fraction)
    case None => softened
  }

  function Capped(uncapped: real, capacity: real): (real, bool) {
    var hours := Min(uncapped, capacity);
    (hours, hours < uncapped)
  }

  function ShouldExtend(c: Context): Decision {
    var (eligible, reason) := Eligibility(c);
    if !eligible then Decision(false, reason, None, 0.0, None, 0.0, false)
    else
      var base := BaseMagnitude(c.severity, c.sameRuleCount);
      var uncapped := Mitigated(base, c.severity, c.cooperation, c.duringRecoveryTask);
      var (hours, limited) := Capped(uncapped, c.capacity);
      Decision(true, reason, Some(base), base - uncapped, Some(uncapped), hours, limited)
  }

  /** The hours before the cap; an ineligible incident has none. */
  function Uncapped(c: Context): real {
    var d := ShouldExtend(c);
    if d.uncappedHours.Some? then d.uncappedHours.value else 0.0
  }

  // ------------------------------------------------------------- the window's hours

  const MAX_TARGET_HOURS := 336.0

  datatype Window = Window(
    baseHours: real, extensionHours: real, accumulatedHours: real, activeSince: Option<real>)

  function TargetActiveHours(w: Window): real { Min(w.baseHours + w.extensionHours, MAX_TARGET_HOURS) }

  /** `activeSince` is set while the window is ACTIVE and not frozen; times are in hours. */
  function ActiveHoursElapsed(w: Window, now: real): real {
    w.accumulatedHours + if w.activeSince.Some? then now - w.activeSince.value else 0.0
  }

  predicate IsComplete(w: Window, now: real) { ActiveHoursElapsed(w, now) >= TargetActiveHours(w) }

  function RemainingActiveHours(w: Window, now: real): real {
    Max(0.0, TargetActiveHours(w) - ActiveHoursElapsed(w, now))
  }

  // ----------------------------------------------- folding incidents into a window

  datatype Incident = Incident(rule: string, severity: Severity, cooperation: Cooperation)

  /** Incidents of the rule among those the window has consumed. */
  function SameRule(incidents: seq<Incident>, rule: string): nat {
    if incidents == [] then 0
    else
      var n := |incidents| - 1;
      SameRule(incidents[..n], rule) + if incidents[n].rule == rule then 1 else 0
  }

  /** Where those incidents are. */
  function OfRule(incidents: seq<Incident>, rule: string): set<nat> {
    set i: nat | i < |incidents| && incidents[i].rule == rule
  }

  lemma OfRuleGrows(incidents: seq<Incident>, rule: string)
    requires incidents != []
    ensures var n := |incidents| - 1;
            |OfRule(incidents, rule)| == |OfRule(incidents[..n], rule)| + if incidents[n].rule == rule then 1 else 0
  {
    var n := |incidents| - 1;
    var before := OfRule(incidents[..n], rule);
    assert n !in before;
    assert OfRule(incidents, rule) == if incidents[n].rule == rule then before + {n} else before;
  }

  lemma {:induction false} SameRuleCounts(incidents: seq<Incident>, rule: string)
    ensures SameRule(incidents, rule) == |OfRule(incidents, rule)|
  {
    if incidents == [] {
      assert OfRule(incidents, rule) == {};
    } else {
      SameRuleCounts(incidents[..|incidents| - 1], rule);
      OfRuleGrows(incidents, rule);
      hide OfRule;
    }
  }

  function Capacity(w: Window): real { Max(0.0, MAX_TARGET_HOURS - (w.baseHours + w.extensionHours)) }

  /** What the last of `incidents` is judged on, in a window that has consumed the others. */
  function ContextOf(incidents: seq<Incident>, capacity: real): Context
    requires incidents != []
  {
    var last := incidents[|incidents| - 1];
    Context(last.severity, last.cooperation, SameRule(incidents, last.rule), capacity, false)
  }

  /** Its own severity and cooperation, and how many incidents of its rule there are, itself included. */
  lemma ContextIs(incidents: seq<Incident>, capacity: real)
    requires incidents != []
    ensures var c, last := ContextOf(incidents, capacity), incidents[|incidents| - 1];
            && c.severity == last.severity && c.cooperation == last.cooperation && c.capacity == capacity
            && c.sameRuleCount == |OfRule(incidents, last.rule)|
            && !c.duringRecoveryTask
  {
    SameRuleCounts(incidents, incidents[|incidents| - 1].rule);
  }

  /** The window after consuming the incidents one by one. */
  function Consumed(w: Window, incidents: seq<Incident>): Window {
    if incidents == [] then w
    else
      var before := Consumed(w, incidents[..|incidents| - 1]);
      var d := ShouldExtend(ContextOf(incidents, Capacity(before)));
      if d.assignedHours > 0.0 then before.(extensionHours := before.extensionHours + d.assignedHours) else before
  }

  /** The sum of what each incident would add without a ceiling. */
  function TotalUncapped(incidents: seq<Incident>): (r: real)
    ensures r >= 0.0
  {
    if incidents == [] then 0.0
    else
      UncappedIsPositive(ContextOf(incidents, 0.0));
      TotalUncapped(incidents[..|incidents| - 1]) + Uncapped(ContextOf(incidents, 0.0))
  }

  lemma UncappedIsPositive(c: Context)
    ensures Uncapped(c) >= 0.0
    ensures forall k :: Uncapped(c.(capacity := k)) == Uncapped(c)
  {
  }

  // ---------------------------------------------------------------- main results

  /**
   * However the incidents come, an open window gains exactly what they would add
   * without a ceiling, up to the room there is between its base and 336 hours.
   */
  lemma {:induction false} TotalExtension(w: Window, incidents: seq<Incident>)
    requires w.extensionHours == 0.0
    ensures Consumed(w, incidents)
         == w.(extensionHours := Min(TotalUncapped(incidents), Max(0.0, MAX_TARGET_HOURS - w.baseHours)))
  {
    if incidents != [] {
      TotalExtension(w, incidents[..|incidents| - 1]);
      var before := Consumed(w, incidents[..|incidents| - 1]);
      var c := ContextOf(incidents, Capacity(before));
      UncappedIsPositive(c);
      assert Uncapped(ContextOf(incidents, 0.0)) == Uncapped(c.(capacity := 0.0));
      AssignedIsCapped(c);
    }
  }

  lemma AssignedIsCapped(c: Context)
    requires c.capacity >= 0.0
    ensures ShouldExtend(c).assignedHours == Min(Uncapped(c), c.capacity)
  {
  }

  /** So the ceiling applied when the target is read never binds, unless the base alone exceeds it. */
  lemma {:induction false} CeilingNeverBinds(w: Window, incidents: seq<Incident>)
    requires w.extensionHours == 0.0
    ensures var after := Consumed(w, incidents);
            TargetActiveHours(after) == (if w.baseHours <= MAX_TARGET_HOURS then w.baseHours + after.extensionHours
                                         else MAX_TARGET_HOURS)
    ensures w.baseHours > MAX_TARGET_HOURS ==> Consumed(w, incidents) == w
  {
    TotalExtension(w, incidents);
  }

  function Rank(s: Severity): nat {
    match s
    case MINOR => 0
    case MODERATE => 1
    case MAJOR => 2
    case CRITICAL => 3
  }

  /** `b` is at least as severe and repeated as `a`, with no more cooperation or context and no less capacity. */
  predicate NoMilder(a: Context, b: Context) {
    && Rank(a.severity) <= Rank(b.severity) && a.sameRuleCount <= b.sameRuleCount && a.capacity <= b.capacity
    && (b.cooperation.selfDisclosed ==> a.cooperation.selfDisclosed)
    && (b.cooperation.activeInResolution ==> a.cooperation.activeInResolution)
    && (b.duringRecoveryTask ==> a.duringRecoveryTask)
  }

  function Kept(s: Severity, c: Cooperation, duringRecoveryTask: bool): real {
    Max(1.0 - MitigationFraction(c, duringRecoveryTask),
        if MinimumRetained(s).Some? then MinimumRetained(s).value else 0.0)
  }

  /** Mitigation keeps a fixed share of the base. */
  lemma MitigatedShare(base: real, s: Severity, c: Cooperation, duringRecoveryTask: bool)
    requires base >= 0.0
    ensures Mitigated(base, s, c, duringRecoveryTask) == base * Kept(s, c, duringRecoveryTask)
    ensures 0.2 <= Kept(s, c, duringRecoveryTask) <= 1.0
  {
  }

  function Times(x: real, y: real): real { x * y }

  lemma ProductGrows(x: real, y: real, p: real, q: real)
    requires 0.0 <= x <= y && 0.0 <= p <= q
    ensures Times(x, p) <= Times(y, q)
  {
  }

  // ------------------------------------------------- the four stages, in numbers

  /** 4, 12, 24 or 48 hours by severity, and 6 for each earlier incident of the same rule. */
  lemma BaseInNumbers(s: Severity, count: int)
    ensures BaseMagnitude(s, count) > 0.0
    ensures BaseMagnitude(s, count)
         == (match s case MINOR => 4.0 case MODERATE => 12.0 case MAJOR => 24.0 case CRITICAL => 48.0)
            + (if count > 1 then 6.0 * (count - 1) as real else 0.0)
  {
  }

  /** 30, 30 and 20 per cent off for disclosure, help and a recovery task, down to half for MAJOR and seven tenths for CRITICAL. */
  lemma ShareInNumbers(s: Severity, c: Cooperation, duringRecoveryTask: bool)
    ensures var softened := 1.0 - (if c.selfDisclosed then 0.3 else 0.0) - (if c.activeInResolution then 0.3 else 0.0)
                                - (if duringRecoveryTask then 0.2 else 0.0);
            var floor := match s case MAJOR => 0.5 case CRITICAL => 0.7 case _ => 0.0;
            Kept(s, c, duringRecoveryTask) == if softened >= floor then softened else floor
  {
  }

  /** Which incidents extend the window, and why. */
  lemma ReasonIs(c: Context)
    ensures ShouldExtend(c).reason
         == if c.severity == MAJOR || c.severity == CRITICAL then BY_SEVERITY
            else if c.sameRuleCount >= 2 then BY_REPETITION
            else if c.cooperation.selfDisclosed && c.cooperation.activeInResolution then ISOLATED_LOW_SEVERITY
            else BY_LOW_COOPERATION
    ensures !ShouldExtend(c).eligible <==> ShouldExtend(c).reason == ISOLATED_LOW_SEVERITY
    ensures !ShouldExtend(c).eligible ==>
              var d := ShouldExtend(c);
              && d.baseHours.None? && d.uncappedHours.None? && d.mitigationHours == 0.0 && d.assignedHours == 0.0
              && !d.capacityLimited
  {
    hide Mitigated;
    hide BaseMagnitude;
  }

  /** What becomes of an eligible incident's base: its share is kept, then the capacity caps it. */
  lemma HoursAre(c: Context)
    requires ShouldExtend(c).eligible
    ensures var d := ShouldExtend(c);
            && d.baseHours == Some(BaseMagnitude(c.severity, c.sameRuleCount))
            && d.uncappedHours == Some(Times(d.baseHours.value, Kept(c.severity, c.cooperation, c.duringRecoveryTask)))
            && d.mitigationHours == d.baseHours.value - d.uncappedHours.value
            && d.assignedHours == (if d.uncappedHours.value <= c.capacity then d.uncappedHours.value else c.capacity)
  {
    BaseInNumbers(c.severity, c.sameRuleCount);
    MitigatedIsTimes(BaseMagnitude(c.severity, c.sameRuleCount), c.severity, c.cooperation, c.duringRecoveryTask);
    hide BaseMagnitude;
    hide Mitigated;
    hide Kept;
    hide Times;
  }

  lemma MitigatedIsTimes(base: real, s: Severity, c: Cooperation, duringRecoveryTask: bool)
    requires base >= 0.0
    ensures Mitigated(base, s, c, duringRecoveryTask) == Times(base, Kept(s, c, duringRecoveryTask))
  {
    MitigatedShare(base, s, c, duringRecoveryTask);
    hide Mitigated;
    hide Kept;
  }

  lemma ShareGrows(a: Context, b: Context)
    requires NoMilder(a, b)
    ensures Kept(a.severity, a.cooperation, a.duringRecoveryTask) <= Kept(b.severity, b.cooperation, b.duringRecoveryTask)
  {
  }

  lemma ShareIsPositive(c: Context)
    ensures Kept(c.severity, c.cooperation, c.duringRecoveryTask) > 0.0
  {
  }

  lemma BaseGrows(s: Severity, m: int, t: Severity, n: int)
    requires Rank(s) <= Rank(t) && m <= n
    ensures 0.0 < BaseMagnitude(s, m) <= BaseMagnitude(t, n)
  {
  }

  lemma UncappedIs(c: Context)
    ensures Uncapped(c)
         == if Eligibility(c).0 then Times(BaseMagnitude(c.severity, c.sameRuleCount),
                                           Kept(c.severity, c.cooperation, c.duringRecoveryTask)) else 0.0
    ensures Uncapped(c) >= 0.0
  {
    BaseGrows(c.severity, c.sameRuleCount, c.severity, c.sameRuleCount);
    MitigatedShare(BaseMagnitude(c.severity, c.sameRuleCount), c.severity, c.cooperation, c.duringRecoveryTask);
    hide Mitigated;
    hide Kept;
    hide BaseMagnitude;
  }

  lemma UncappedIsMonotone(a: Context, b: Context)
    requires NoMilder(a, b)
    ensures Uncapped(a) <= Uncapped(b)
  {
    hide Times;
    UncappedIs(a);
    UncappedIs(b);
    BaseGrows(a.severity, a.sameRuleCount, b.severity, b.sameRuleCount);
    ShareGrows(a, b);
    ShareIsPositive(a);
    hide Kept;
    hide Mitigated;
    hide BaseMagnitude;
    hide Uncapped;
    ProductGrows(BaseMagnitude(a.severity, a.sameRuleCount), BaseMagnitude(b.severity, b.sameRuleCount),
                 Kept(a.severity, a.cooperation, a.duringRecoveryTask), Kept(b.severity, b.cooperation, b.duringRecoveryTask));
  }

  /**
   * The assigned hours grow with severity, repetition and capacity and shrink with
   * cooperation, for all pairs of inputs exactly when there is no negative capacity.
   */
  lemma AssignedIsMonotone(a: Context, b: Context)
    requires NoMilder(a, b) && a.capacity >= 0.0
    ensures ShouldExtend(a).assignedHours <= ShouldExtend(b).assignedHours
  {
    UncappedIsMonotone(a, b);
    AssignedIsCapped(a);
    AssignedIsCapped(b);
    hide ShouldExtend;
    hide Uncapped;
  }

  ghost predicate MonotoneAt(capacity: real) {
    forall a, b :: NoMilder(a, b) && a.capacity == capacity ==> ShouldExtend(a).assignedHours <= ShouldExtend(b).assignedHours
  }

  lemma MonotoneIffCapacity(capacity: real)
    ensures MonotoneAt(capacity) <==> capacity >= 0.0
  {
    if capacity >= 0.0 {
      forall a, b | NoMilder(a, b) && a.capacity == capacity
        ensures ShouldExtend(a).assignedHours <= ShouldExtend(b).assignedHours
      {
        AssignedIsMonotone(a, b);
      }
    } else {
      var a := Context(MINOR, Cooperation(true, true), 1, capacity, false);
      var b := a.(severity := MAJOR);
      assert NoMilder(a, b);
      assert ShouldExtend(a).assignedHours == 0.0 && ShouldExtend(b).assignedHours == capacity;
    }
  }

  /**
   * A MAJOR incident keeps at least half of its base before the cap, a CRITICAL one
   * seven tenths; nothing ever exceeds its base.
   */
  lemma RetainedShare(c: Context)
    ensures ShouldExtend(c).eligible ==>
              var d := ShouldExtend(c);
              && 0.0 < d.uncappedHours.value <= d.baseHours.value && d.assignedHours <= d.uncappedHours.value
              && (c.severity == MAJOR ==> d.uncappedHours.value >= 0.5 * d.baseHours.value)
              && (c.severity == CRITICAL ==> d.uncappedHours.value >= 0.7 * d.baseHours.value)
              && (d.capacityLimited <==> d.uncappedHours.value > c.capacity)
    ensures !ShouldExtend(c).eligible <==>
              (c.severity == MINOR || c.severity == MODERATE) && c.sameRuleCount <= 1 && HighCooperation(c.cooperation)
  {
  }

  /** The clock runs exactly while the window is active: from its accumulated hours at the start of the stretch. */
  lemma ElapsedIs(w: Window, h: real)
    ensures w.activeSince.Some? ==> ActiveHoursElapsed(w, w.activeSince.value + h) == w.accumulatedHours + h
    ensures w.activeSince.None? ==> ActiveHoursElapsed(w, h) == w.accumulatedHours
    ensures TargetActiveHours(w) == if w.baseHours + w.extensionHours > 336.0 then 336.0 else w.baseHours + w.extensionHours
  {
  }

  /** Nothing remains exactly when the window is complete, and a running window gets there on time. */
  lemma RemainingReachesZero(w: Window, now: real)
    ensures RemainingActiveHours(w, now) == 0.0 <==> IsComplete(w, now)
    ensures w.activeSince.Some? ==> IsComplete(w, now + RemainingActiveHours(w, now))
    ensures forall later :: w.activeSince.Some? && now <= later < now + RemainingActiveHours(w, now) ==>
              !IsComplete(w, later)
  {
  }
}
