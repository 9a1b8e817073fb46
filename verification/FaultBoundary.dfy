/**
 * infrastructure/plugin_fault_boundary.py: the per-plugin circuit breaker.
 *
 * Times are microseconds; a call's duration enters only as the answer to
 * "did it exceed its budget?".
 */
module FaultBoundary {

  type Time = int

  /** `_failure_timestamps` and `disabled_due_to_errors` of one plugin. */
  datatype Breaker = Breaker(kept: seq<Time>, disabled: bool)

  datatype Limits = Limits(threshold: int, window: nat)

  const FRESH: Breaker := Breaker([], false)

  /** The entries of `times` not older than `start`, in order. */
  function NotBefore(times: seq<Time>, start: Time): (r: seq<Time>)
    ensures forall t :: t in r <==> t in times && t >= start
    ensures |r| <= |times|
  {
    if times == [] then []
    else if times[0] >= start then [times[0]] + NotBefore(times[1..], start)
    else NotBefore(times[1..], start)
  }

  /** `_record_failure`. */
  function RecordFailure(b: Breaker, lim: Limits, now: Time): Breaker {
    var kept := NotBefore(b.kept + [now], now - lim.window);
    Breaker(kept, b.disabled || |kept| >= lim.threshold)
  }

  /** What the wrapped handler does when it is invoked. */
  datatype Conduct = Conduct(raises: bool, slow: bool)

  predicate Faulty(c: Conduct) { c.raises || c.slow }

  /** `call`: the breaker afterwards. A disabled plugin's handler is not invoked. */
  function AfterCall(b: Breaker, lim: Limits, c: Conduct, now: Time): Breaker {
    if b.disabled || !Faulty(c) then b else RecordFailure(b, lim, now)
  }

  predicate Succeeds(b: Breaker, c: Conduct) { !b.disabled && !Faulty(c) }

  /** The object itself: one per plugin, fields updated by every call. */
  class PluginFaultBoundary {
    const limits: Limits
    var failureTimestamps: seq<Time>
    var disabledDueToErrors: bool

    function State(): Breaker
      reads this
    {
      Breaker(failureTimestamps, disabledDueToErrors)
    }

    constructor (limits: Limits)
      ensures this.limits == limits && State() == FRESH
    {
      this.limits := limits;
      failureTimestamps := [];
      disabledDueToErrors := false;
    }

    /** Reports whether the handler was invoked at all and whether the call succeeded. */
    method Call(conduct: Conduct, now: Time) returns (invoked: bool, succeeded: bool)
      modifies this
      ensures State() == AfterCall(old(State()), limits, conduct, now)
      ensures invoked <==> !old(disabledDueToErrors)
      ensures succeeded <==> !old(disabledDueToErrors) && !conduct.raises && !conduct.slow
    {
      if disabledDueToErrors {
        return false, false;
      }
      invoked := true;
      if conduct.raises {
        RecordFailureNow(now);
        return true, false;
      }
      if conduct.slow {
        RecordFailureNow(now);
        return true, false;
      }
      succeeded := true;
    }

    method RecordFailureNow(now: Time)
      modifies this
      ensures State() == RecordFailure(old(State()), limits, now)
    {
      failureTimestamps := failureTimestamps + [now];
      var windowStart := now - limits.window;
      var kept: seq<Time> := [];
      for i := 0 to |failureTimestamps|
        invariant failureTimestamps == old(failureTimestamps) + [now]
        invariant disabledDueToErrors == old(disabledDueToErrors)
        invariant NotBefore(failureTimestamps, windowStart) == kept + NotBefore(failureTimestamps[i..], windowStart)
      {
        assert failureTimestamps[i..][1..] == failureTimestamps[i + 1..];
        if failureTimestamps[i] >= windowStart {
          kept := kept + [failureTimestamps[i]];
        }
      }
      assert failureTimestamps[|failureTimestamps|..] == [];
      failureTimestamps := kept;
      if |failureTimestamps| >= limits.threshold && !disabledDueToErrors {
        disabledDueToErrors := true;
      }
    }
  }

  // ------------------------------------------------- the breaker over a history

  /** The breaker after failures recorded at `times`, one after the other. */
  function AfterFailures(lim: Limits, times: seq<Time>): Breaker {
    if times == [] then FRESH
    else RecordFailure(AfterFailures(lim, times[..|times| - 1]), lim, times[|times| - 1])
  }

  /** No failure recorded from `j` on was more than a window later than failure `j`. */
  predicate Survives(times: seq<Time>, window: nat, j: nat)
    requires j < |times|
  {
    forall k :: j <= k < |times| ==> times[j] >= times[k] - window
  }

  /** The failures of a history that survive to its end. */
  function Survivors(times: seq<Time>, window: nat, from: nat): seq<Time>
    requires from <= |times|
    decreases |times| - from
  {
    if from == |times| then []
    else (if Survives(times, window, from) then [times[from]] else []) + Survivors(times, window, from + 1)
  }

  lemma {:induction false} NotBeforeConcat(a: seq<Time>, b: seq<Time>, start: Time)
    ensures NotBefore(a + b, start) == NotBefore(a, start) + NotBefore(b, start)
  {
    if a == [] {
      assert a + b == b;
    } else {
      assert (a + b)[1..] == a[1..] + b;
      NotBeforeConcat(a[1..], b, start);
    }
  }

  lemma {:induction false} SurvivorsStep(times: seq<Time>, now: Time, window: nat, from: nat)
    requires from <= |times|
    ensures Survivors(times + [now], window, from) == NotBefore(Survivors(times, window, from) + [now], now - window)
    decreases |times| - from
  {
    var after := times + [now];
    if from == |times| {
      assert Survives(after, window, from);
      assert Survivors(after, window, from + 1) == [];
    } else {
      SurvivorsStep(times, now, window, from + 1);
      assert Survives(after, window, from) <==> Survives(times, window, from) && times[from] >= now - window by {
        assert forall k :: from <= k < |times| ==> after[k] == times[k];
        assert after[|times|] == now;
        if Survives(after, window, from) {
          assert forall k :: from <= k < |times| ==> times[from] >= times[k] - window by {
            assert forall k :: from <= k < |times| ==> after[from] >= after[k] - window;
          }
        }
      }
      var rest := Survivors(times, window, from + 1);
      if Survives(times, window, from) {
        assert [times[from]] + rest + [now] == [times[from]] + (rest + [now]);
        NotBeforeConcat([times[from]], rest + [now], now - window);
      } else {
        assert [] + rest + [now] == rest + [now];
      }
    }
  }

  /** In any order of times, the kept list is exactly the surviving failures. */
  lemma {:induction false} KeptIsSurvivors(lim: Limits, times: seq<Time>)
    ensures AfterFailures(lim, times).kept == Survivors(times, lim.window, 0)
  {
    if times != [] {
      var before, now := times[..|times| - 1], times[|times| - 1];
      KeptIsSurvivors(lim, before);
      SurvivorsStep(before, now, lim.window, 0);
      assert times == before + [now];
    }
  }

  /** In any order of times, the plugin is disabled exactly when some failure found enough survivors. */
  lemma {:induction false} DisabledIffSurvivors(lim: Limits, times: seq<Time>)
    ensures AfterFailures(lim, times).disabled <==>
            exists i :: 1 <= i <= |times| && |Survivors(times[..i], lim.window, 0)| >= lim.threshold
  {
    if times != [] {
      var n := |times|;
      var before := times[..n - 1];
      DisabledIffSurvivors(lim, before);
      KeptIsSurvivors(lim, times);
      assert times[..n] == times;
      assert forall i :: 1 <= i < n ==> before[..i] == times[..i];
      if AfterFailures(lim, before).disabled {
        var i :| 1 <= i <= |before| && |Survivors(before[..i], lim.window, 0)| >= lim.threshold;
        assert times[..i] == before[..i];
      }
      if exists i :: 1 <= i < n && |Survivors(times[..i], lim.window, 0)| >= lim.threshold {
        var i :| 1 <= i < n && |Survivors(times[..i], lim.window, 0)| >= lim.threshold;
        assert before[..i] == times[..i];
      }
    }
  }

  // --------------------------------------------- against the documented promise

  predicate NonDecreasing(times: seq<Time>) {
    forall i, j :: 0 <= i <= j < |times| ==> times[i] <= times[j]
  }

  /** The failures no older than a window when the last one happens. */
  function Recent(times: seq<Time>, window: nat): seq<Time>
    requires times != []
  {
    NotBefore(times, times[|times| - 1] - window)
  }

  lemma {:induction false} SurvivorsAreRecent(times: seq<Time>, window: nat, from: nat)
    requires times != [] && from <= |times|
    ensures |Survivors(times, window, from)| <= |NotBefore(times[from..], times[|times| - 1] - window)|
    ensures NonDecreasing(times) ==>
            Survivors(times, window, from) == NotBefore(times[from..], times[|times| - 1] - window)
    decreases |times| - from
  {
    if from < |times| {
      SurvivorsAreRecent(times, window, from + 1);
      assert times[from..] == [times[from]] + times[from + 1..];
      if NonDecreasing(times) && times[from] >= times[|times| - 1] - window {
        assert Survives(times, window, from);
      }
    }
  }

  /** With a clock that never runs backwards the kept list is the failures inside the window. */
  lemma KeptIsRecent(lim: Limits, times: seq<Time>)
    requires times != [] && NonDecreasing(times)
    ensures AfterFailures(lim, times).kept == Recent(times, lim.window)
  {
    KeptIsSurvivors(lim, times);
    SurvivorsAreRecent(times, lim.window, 0);
    assert times[0..] == times;
  }

  /** Some failure was at least the threshold-th within the window it closes. */
  predicate TooManyRecent(lim: Limits, times: seq<Time>) {
    exists i :: 1 <= i <= |times| && |Recent(times[..i], lim.window)| >= lim.threshold
  }

  /**
   * Disabling is always justified by the rolling count; with a clock that never
   * runs backwards it also always happens when the count is reached.
   */
  lemma DisabledIffTooManyRecent(lim: Limits, times: seq<Time>)
    ensures AfterFailures(lim, times).disabled ==> TooManyRecent(lim, times)
    ensures NonDecreasing(times) && TooManyRecent(lim, times) ==> AfterFailures(lim, times).disabled
  {
    DisabledIffSurvivors(lim, times);
    forall i | 1 <= i <= |times|
      ensures |Survivors(times[..i], lim.window, 0)| <= |Recent(times[..i], lim.window)|
      ensures NonDecreasing(times) ==> |Survivors(times[..i], lim.window, 0)| == |Recent(times[..i], lim.window)|
    {
      SurvivorsAreRecent(times[..i], lim.window, 0);
      assert times[..i][0..] == times[..i];
    }
  }

  /**
   * Out of order the promise fails: a failure stamped far ahead prunes the list,
   * so three failures that are all recent for the last one do not disable.
   */
  lemma OutOfOrderFailuresCanBeMissed()
    ensures TooManyRecent(Limits(3, 300), [0, 1000, 1])
    ensures !AfterFailures(Limits(3, 300), [0, 1000, 1]).disabled
  {
    var lim, times := Limits(3, 300), [0, 1000, 1];
    assert times[..3] == times;
    NotBeforeAll(times, -299);
    assert |Recent(times[..3], 300)| == 3;
    assert times[..2] == [0, 1000] && times[..2][..1] == [0] && [0][..0] == [];
    assert AfterFailures(lim, [0]) == Breaker([0], false) by {
      NotBeforeAll([0], -300);
      assert [] + [0] == [0];
    }
    assert AfterFailures(lim, [0, 1000]) == Breaker([1000], false) by {
      assert [0, 1000][..1] == [0];
      NotBeforeConcat([0], [1000], 700);
      NotBeforeAll([1000], 700);
    }
    assert |AfterFailures(lim, times).kept| <= 2;
  }

  lemma {:induction false} NotBeforeAll(times: seq<Time>, start: Time)
    requires forall i :: 0 <= i < |times| ==> times[i] >= start
    ensures NotBefore(times, start) == times
  {
    if times != [] {
      NotBeforeAll(times[1..], start);
    }
  }

  // ----------------------------------------------------------- runs of whole calls

  datatype Invocation = Invocation(conduct: Conduct, now: Time)

  function AfterCalls(b: Breaker, lim: Limits, calls: seq<Invocation>): Breaker
    decreases |calls|
  {
    if calls == [] then b else AfterCalls(AfterCall(b, lim, calls[0].conduct, calls[0].now), lim, calls[1..])
  }

  /** Once disabled, no handler runs again and nothing is recorded, whatever is called. */
  lemma {:induction false} DisabledForever(b: Breaker, lim: Limits, calls: seq<Invocation>)
    requires b.disabled
    ensures AfterCalls(b, lim, calls) == b
    ensures forall i :: 0 <= i < |calls| ==> !Succeeds(AfterCalls(b, lim, calls[..i]), calls[i].conduct)
    decreases |calls|
  {
    if calls != [] {
      DisabledForever(b, lim, calls[1..]);
      forall i | 0 <= i < |calls| ensures AfterCalls(b, lim, calls[..i]) == b {
        if i > 0 {
          DisabledForever(b, lim, calls[..i - 1]);
          DisabledForever(b, lim, calls[1..i]);
          assert calls[..i][1..] == calls[1..i];
        }
      }
    }
  }

  /** The failures among `calls`, up to the one that disables. */
  function FailureTimes(b: Breaker, lim: Limits, calls: seq<Invocation>): seq<Time>
    decreases |calls|
  {
    if calls == [] || b.disabled then []
    else
      var rest := FailureTimes(AfterCall(b, lim, calls[0].conduct, calls[0].now), lim, calls[1..]);
      if calls[0].conduct.raises || calls[0].conduct.slow then [calls[0].now] + rest else rest
  }

  function ContinueFailures(b: Breaker, lim: Limits, times: seq<Time>): Breaker
    decreases |times|
  {
    if times == [] then b else ContinueFailures(RecordFailure(b, lim, times[0]), lim, times[1..])
  }

  lemma {:induction false} ContinueSnoc(b: Breaker, lim: Limits, times: seq<Time>, now: Time)
    ensures ContinueFailures(b, lim, times + [now]) == RecordFailure(ContinueFailures(b, lim, times), lim, now)
    decreases |times|
  {
    var all := times + [now];
    if times == [] {
      assert all[1..] == [];
    } else {
      assert all[1..] == times[1..] + [now];
      ContinueSnoc(RecordFailure(b, lim, times[0]), lim, times[1..], now);
    }
  }

  lemma {:induction false} ContinueFromFresh(lim: Limits, times: seq<Time>)
    ensures ContinueFailures(FRESH, lim, times) == AfterFailures(lim, times)
  {
    if times != [] {
      var before, now := times[..|times| - 1], times[|times| - 1];
      ContinueFromFresh(lim, before);
      ContinueSnoc(FRESH, lim, before, now);
      assert times == before + [now];
    }
  }

  lemma {:induction false} CallsAreFailures(b: Breaker, lim: Limits, calls: seq<Invocation>)
    ensures AfterCalls(b, lim, calls) == ContinueFailures(b, lim, FailureTimes(b, lim, calls))
    decreases |calls|
  {
    if calls != [] {
      if b.disabled {
        DisabledForever(b, lim, calls);
      } else {
        var next := AfterCall(b, lim, calls[0].conduct, calls[0].now);
        CallsAreFailures(next, lim, calls[1..]);
        var rest := FailureTimes(next, lim, calls[1..]);
        if Faulty(calls[0].conduct) {
          assert ([calls[0].now] + rest)[1..] == rest;
        }
      }
    }
  }

  /** A call succeeds exactly when the plugin is enabled and its handler neither raised nor overran; it then leaves no trace. */
  lemma SucceedsIff(b: Breaker, lim: Limits, c: Conduct, now: Time)
    ensures Succeeds(b, c) <==> !b.disabled && !c.raises && !c.slow
    ensures AfterCall(b, lim, c, now) == if b.disabled || Succeeds(b, c) then b else RecordFailure(b, lim, now)
  {
  }

  /** A fresh boundary after any calls is the breaker of the failures those calls recorded. */
  lemma CallHistory(lim: Limits, calls: seq<Invocation>)
    ensures AfterCalls(FRESH, lim, calls) == AfterFailures(lim, FailureTimes(FRESH, lim, calls))
  {
    CallsAreFailures(FRESH, lim, calls);
    ContinueFromFresh(lim, FailureTimes(FRESH, lim, calls));
  }
}
