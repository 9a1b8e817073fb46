/** infrastructure/startup_lease.py: the one-row lease around startup reconciliation. */
module StartupLease {
  import opened Wrappers

  type Time = int
  type ProcessId = string

  datatype Lease = Lease(heldBy: ProcessId, acquiredAt: Time, expiresAt: Time)

  /** The single row once it exists; releasing leaves it with empty columns. */
  datatype Row = Row(lease: Option<Lease>)

  predicate HeldLive(row: Option<Row>, now: Time) {
    row.Some? && row.value.lease.Some? && row.value.lease.value.expiresAt > now
  }

  function Acquired(row: Option<Row>, p: ProcessId, now: Time, duration: Time): (Option<Row>, Option<Lease>) {
    if HeldLive(row, now) then (row, None)
    else (Some(Row(Some(Lease(p, now, now + duration)))), Some(Lease(p, now, now + duration)))
  }

  /** Clears the row only if it still names this lease's process. */
  function Released(row: Option<Row>, lease: Lease): Option<Row> {
    if row.Some? && row.value.lease.Some? && row.value.lease.value.heldBy == lease.heldBy then Some(Row(None)) else row
  }

  class LeaseTable {
    var row: Option<Row>

    constructor ()
      ensures row.None?
    {
      row := None;
    }

    method AcquireSystemStartupLease(p: ProcessId, now: Time, duration: Time) returns (lease: Option<Lease>)
      modifies this
      ensures (row, lease) == Acquired(old(row), p, now, duration)
      ensures lease.Some? ==> lease.value == Lease(p, now, now + duration) && row == Some(Row(lease))
    {
      if row.Some? && row.value.lease.Some? && row.value.lease.value.expiresAt > now {
        return None;
      }
      var expiresAt := now + duration;
      row := Some(Row(Some(Lease(p, now, expiresAt))));
      return Some(Lease(p, now, expiresAt));
    }

    method ReleaseSystemStartupLease(lease: Lease)
      modifies this
      ensures row == Released(old(row), lease)
    {
      if row.Some? && row.value.lease.Some? && row.value.lease.value.heldBy == lease.heldBy {
        row := Some(Row(None));
      }
    }
  }

  // ------------------------------------------------------------------------ runs

  /** A lease some process was given, and whether it has given it back. */
  datatype Grant = Grant(lease: Lease, returned: bool)

  datatype World = World(row: Option<Row>, grants: seq<Grant>, now: Time)

  datatype Step =
    | Acquire(p: ProcessId, at: Time, duration: Time)
    | Release(g: nat, at: Time)

  /** Time does not run back, a lease is returned once, and by whoever was given it. */
  predicate Enabled(w: World, s: Step) {
    w.now <= s.at && (s.Release? ==> s.g < |w.grants| && !w.grants[s.g].returned)
  }

  function Next(w: World, s: Step): World
    requires Enabled(w, s)
  {
    match s
    case Acquire(p, at, duration) =>
      var (row, lease) := Acquired(w.row, p, at, duration);
      World(row, if lease.Some? then w.grants + [Grant(lease.value, false)] else w.grants, at)
    case Release(g, at) =>
      World(Released(w.row, w.grants[g].lease), w.grants[g := w.grants[g].(returned := true)], at)
  }

  /** Holds at `now`: neither expired nor returned. */
  predicate Holds(g: Grant, now: Time) { !g.returned && g.lease.expiresAt > now }

  /** No process returns a lease while it holds another one. */
  predicate Careful(w: World, s: Step) {
    s.Release? ==>
      forall j :: 0 <= j < |w.grants| && j != s.g && s.g < |w.grants| && Holds(w.grants[j], s.at) ==>
        w.grants[j].lease.heldBy != w.grants[s.g].lease.heldBy
  }

  predicate Runs(w: World, steps: seq<Step>, last: World)
    decreases |steps|
  {
    if steps == [] then w == last
    else Enabled(w, steps[0]) && Runs(Next(w, steps[0]), steps[1..], last)
  }

  /** A run of such processes. */
  predicate CarefulRuns(w: World, steps: seq<Step>, last: World)
    decreases |steps|
  {
    if steps == [] then w == last
    else Enabled(w, steps[0]) && Careful(w, steps[0]) && CarefulRuns(Next(w, steps[0]), steps[1..], last)
  }

  /** Each process id is granted one lease at most. */
  predicate OneEach(grants: seq<Grant>) {
    forall i, j :: 0 <= i < j < |grants| ==> grants[i].lease.heldBy != grants[j].lease.heldBy
  }

  predicate GrantOk(w: World, i: nat)
    requires i < |w.grants|
  {
    Holds(w.grants[i], w.now) ==> i == |w.grants| - 1 && w.row == Some(Row(Some(w.grants[i].lease)))
  }

  /** The row holds no lease but the latest grant's. */
  predicate RowOk(w: World) {
    w.row.Some? && w.row.value.lease.Some? ==>
      w.grants != [] && w.row.value.lease.value == w.grants[|w.grants| - 1].lease && !w.grants[|w.grants| - 1].returned
  }

  predicate Inv(w: World) {
    RowOk(w) && forall i :: 0 <= i < |w.grants| ==> GrantOk(w, i)
  }

  lemma StepKeepsInv(w: World, s: Step)
    requires Inv(w) && Enabled(w, s) && Careful(w, s)
    ensures Inv(Next(w, s))
  {
    var n := Next(w, s);
    forall i | 0 <= i < |n.grants| ensures GrantOk(n, i) {
      if i < |w.grants| {
        assert GrantOk(w, i);
      }
    }
  }

  lemma {:induction false} RunKeepsInv(w: World, steps: seq<Step>, last: World)
    requires Inv(w) && CarefulRuns(w, steps, last)
    ensures Inv(last)
    decreases |steps|
  {
    if steps != [] {
      StepKeepsInv(w, steps[0]);
      RunKeepsInv(Next(w, steps[0]), steps[1..], last);
    }
  }

  /** Grants are only added, so one lease per process id at the end means so all along, and then all are careful. */
  lemma {:induction false} OneEachIsCareful(w: World, steps: seq<Step>, last: World)
    requires Runs(w, steps, last) && OneEach(last.grants)
    ensures OneEach(w.grants) && CarefulRuns(w, steps, last)
    decreases |steps|
  {
    if steps != [] {
      var n := Next(w, steps[0]);
      OneEachIsCareful(n, steps[1..], last);
      assert |w.grants| <= |n.grants| && forall i :: 0 <= i < |w.grants| ==> n.grants[i].lease == w.grants[i].lease;
    }
  }

  predicate Exclusive(w: World, t: Time) {
    forall i, j :: 0 <= i < |w.grants| && 0 <= j < |w.grants| && Holds(w.grants[i], t) && Holds(w.grants[j], t) ==> i == j
  }

  /**
   * At any instant at most one process holds the lease, and it is the one the row
   * names, as long as no process returns a lease while it holds another.
   */
  lemma MutualExclusion(start: Time, steps: seq<Step>, w: World, t: Time)
    requires CarefulRuns(World(None, [], start), steps, w) && w.now <= t
    ensures Exclusive(w, t)
    ensures forall i :: 0 <= i < |w.grants| && Holds(w.grants[i], t) ==> w.row == Some(Row(Some(w.grants[i].lease)))
  {
    RunKeepsInv(World(None, [], start), steps, w);
    forall i | 0 <= i < |w.grants| && Holds(w.grants[i], t)
      ensures i == |w.grants| - 1 && w.row == Some(Row(Some(w.grants[i].lease)))
    {
      assert GrantOk(w, i);
    }
  }

  /** Grant i is what the k-th step of the run asked for: its process, its instant, its duration. */
  predicate AskedFor(steps: seq<Step>, k: nat, g: Grant) {
    && k < |steps| && steps[k].Acquire? && g.lease.heldBy == steps[k].p
    && g.lease.acquiredAt == steps[k].at && g.lease.expiresAt == steps[k].at + steps[k].duration
  }

  /** Every lease granted in a run is one that its process asked for, and until it is returned it holds for what was asked. */
  lemma {:induction false} GrantsAreAskedFor(w: World, steps: seq<Step>, last: World, i: nat)
    requires Runs(w, steps, last) && |w.grants| <= i < |last.grants|
    ensures exists k: nat :: AskedFor(steps, k, last.grants[i])
    ensures !last.grants[i].returned ==> forall t :: Holds(last.grants[i], t) <==> t < last.grants[i].lease.expiresAt
    decreases |steps|
  {
    var n := Next(w, steps[0]);
    if i < |n.grants| {
      LeasesStay(n, steps[1..], last, i);
      assert AskedFor(steps, 0, last.grants[i]);
    } else {
      GrantsAreAskedFor(n, steps[1..], last, i);
      var k: nat :| AskedFor(steps[1..], k, last.grants[i]);
      assert AskedFor(steps, k + 1, last.grants[i]);
    }
  }

  lemma {:induction false} LeasesStay(w: World, steps: seq<Step>, last: World, i: nat)
    requires Runs(w, steps, last) && i < |w.grants|
    ensures i < |last.grants| && last.grants[i].lease == w.grants[i].lease
    decreases |steps|
  {
    if steps != [] {
      LeasesStay(Next(w, steps[0]), steps[1..], last, i);
    }
  }

  /** In particular when every process id is granted one lease at most. */
  lemma OneGrantEachExcludes(start: Time, steps: seq<Step>, w: World, t: Time)
    requires Runs(World(None, [], start), steps, w) && OneEach(w.grants) && w.now <= t
    ensures Exclusive(w, t)
  {
    OneEachIsCareful(World(None, [], start), steps, w);
    MutualExclusion(start, steps, w, t);
  }

  /** Two grants hold at once as soon as some process is granted a lease now. */
  ghost predicate OpensTheDoor(w: World) {
    exists p, duration :: BreaksAt(w, p, duration)
  }

  predicate BreaksAt(w: World, p: ProcessId, duration: Time) {
    !Exclusive(Next(w, Acquire(p, w.now, duration)), w.now)
  }

  /**
   * And exactly then: after any run so far careful, a step lets a second process in
   * beside a holder iff it is a return, by a process that holds another lease.
   */
  lemma ExclusionEndsIff(start: Time, steps: seq<Step>, w: World, s: Step)
    requires CarefulRuns(World(None, [], start), steps, w) && Enabled(w, s)
    ensures OpensTheDoor(Next(w, s)) <==> !Careful(w, s)
  {
    RunKeepsInv(World(None, [], start), steps, w);
    var n := Next(w, s);
    if Careful(w, s) {
      StepKeepsInv(w, s);
      forall p, duration ensures !BreaksAt(n, p, duration) {
        StepKeepsInv(n, Acquire(p, n.now, duration));
        InvExcludes(Next(n, Acquire(p, n.now, duration)));
      }
    } else {
      var j :| 0 <= j < |w.grants| && j != s.g && Holds(w.grants[j], s.at)
               && w.grants[j].lease.heldBy == w.grants[s.g].lease.heldBy;
      assert GrantOk(w, j);
      var m := Next(n, Acquire("", n.now, 1));
      assert n.row == Some(Row(None)) && m.grants == n.grants + [Grant(Lease("", n.now, n.now + 1), false)];
      assert Holds(m.grants[j], n.now) && Holds(m.grants[|n.grants|], n.now);
      assert BreaksAt(n, "", 1);
    }
  }

  lemma InvExcludes(w: World)
    requires Inv(w)
    ensures Exclusive(w, w.now)
  {
    forall i | 0 <= i < |w.grants| && Holds(w.grants[i], w.now) ensures i == |w.grants| - 1 {
      assert GrantOk(w, i);
    }
  }

  /** Returning a lease, however late, never ends another process's. */
  lemma LateReleaseIsHarmless(start: Time, steps: seq<Step>, w: World, s: Step, j: nat)
    requires CarefulRuns(World(None, [], start), steps, w) && s.Release? && Enabled(w, s)
    requires j < |w.grants| && w.grants[j].lease.heldBy != w.grants[s.g].lease.heldBy && Holds(w.grants[j], s.at)
    ensures Holds(Next(w, s).grants[j], s.at) && Next(w, s).row == w.row
  {
    RunKeepsInv(World(None, [], start), steps, w);
    assert GrantOk(w, j);
  }

  /**
   * The release alone: it clears the current lease exactly when it is
   * held under the same process id, so a process that is granted a second lease after
   * the first expired loses it when it returns the first.
   */
  lemma ReleaseClearsIff(current: Lease, late: Lease)
    ensures Released(Some(Row(Some(current))), late) == Some(Row(None)) <==> current.heldBy == late.heldBy
    ensures Released(Some(Row(Some(current))), late) == Some(Row(Some(current))) <==> current.heldBy != late.heldBy
  {
  }

  lemma SameProcessTwice(p: ProcessId)
    ensures var w0 := World(None, [], 0);
            var w1 := Next(w0, Acquire(p, 0, 5));
            var w2 := Next(w1, Acquire(p, 5, 5));
            var w3 := Next(w2, Release(0, 6));
            Holds(w3.grants[1], 6) && w3.row == Some(Row(None))
  {
  }

  /** An attempt is refused exactly while the latest grant holds. */
  lemma RefusedIff(start: Time, steps: seq<Step>, w: World, p: ProcessId, at: Time, duration: Time)
    requires CarefulRuns(World(None, [], start), steps, w) && w.now <= at
    ensures Acquired(w.row, p, at, duration).1.None? <==> exists i :: 0 <= i < |w.grants| && Holds(w.grants[i], at)
  {
    RunKeepsInv(World(None, [], start), steps, w);
    if HeldLive(w.row, at) {
      assert Holds(w.grants[|w.grants| - 1], at);
    }
    forall i | 0 <= i < |w.grants| && Holds(w.grants[i], at) ensures HeldLive(w.row, at) {
      assert GrantOk(w, i);
    }
  }
}
