/**
 * conversation_engine/subject_queue.py: a FIFO lock per subject.
 *
 * A call of turn() is named by its ticket, numbered in the order the calls take
 * the registry lock. Entry objects are named too: a call keeps the entry it
 * found, which the dictionary may meanwhile have dropped. Each step is one
 * critical section, or the return of `my_ticket.wait()`.
 */
module SubjectQueue {
  import opened Wrappers
  import opened Text

  type Ticket = nat

  datatype Entry = Entry(waiting: seq<Ticket>, activeCount: int)

  datatype Phase = Waiting | Running | Done

  /** What a call of turn() holds in its local variables, and where it is. */
  datatype Call = Call(subject: string, entry: nat, phase: Phase)

  datatype Queue = Queue(entries: map<string, nat>, objects: seq<Entry>, signalled: set<Ticket>, calls: seq<Call>)

  const EMPTY: Queue := Queue(map[], [], {}, [])

  datatype QueueError = BlankSubject

  /** The dictionary's entry, if there is one, is an object that exists. */
  predicate CanEnter(q: Queue, subject: string) {
    subject in q.entries ==> q.entries[subject] < |q.objects|
  }

  /** The first critical section: find or make the entry, take a ticket. */
  function Enter(q: Queue, subject: string): Queue
    requires CanEnter(q, subject)
  {
    var t := |q.calls|;
    var known := subject in q.entries;
    var e := if known then q.entries[subject] else |q.objects|;
    var found := if known then q.objects[e] else Entry([], 0);
    var entry := Entry(found.waiting + [t], found.activeCount + 1);
    Queue(q.entries[subject := e],
          if known then q.objects[e := entry] else q.objects + [entry],
          if found.waiting == [] then q.signalled + {t} else q.signalled,
          q.calls + [Call(subject, e, Waiting)])
  }

  predicate CanStart(q: Queue, t: Ticket) {
    t < |q.calls| && q.calls[t].phase == Waiting && t in q.signalled
  }

  /** `my_ticket.wait()` returns: the body of the `with` block begins. */
  function Start(q: Queue, t: Ticket): Queue
    requires CanStart(q, t)
  {
    q.(calls := q.calls[t := q.calls[t].(phase := Running)])
  }

  /** What the finally block needs in order not to raise. */
  predicate CanLeave(q: Queue, t: Ticket) {
    && t < |q.calls| && q.calls[t].phase == Running && q.calls[t].entry < |q.objects|
    && q.objects[q.calls[t].entry].waiting != []
    && (q.objects[q.calls[t].entry].activeCount == 1 ==> q.calls[t].subject in q.entries)
  }

  /** The second critical section: pop the head, whoever it is, and wake the next. */
  function Leave(q: Queue, t: Ticket): Queue
    requires CanLeave(q, t)
  {
    var c := q.calls[t];
    var found := q.objects[c.entry];
    var entry := Entry(found.waiting[1..], found.activeCount - 1);
    Queue(if entry.activeCount == 0 then q.entries - {c.subject} else q.entries,
          q.objects[c.entry := entry],
          if entry.waiting != [] then q.signalled + {entry.waiting[0]} else q.signalled,
          q.calls[t := c.(phase := Done)])
  }

  class SubjectConversationQueue {
    var entries: map<string, nat>
    var objects: seq<Entry>
    var signalled: set<Ticket>
    var calls: seq<Call>

    function State(): Queue
      reads this
    {
      Queue(entries, objects, signalled, calls)
    }

    constructor ()
      ensures State() == EMPTY
    {
      entries, objects, signalled, calls := map[], [], {}, [];
    }

    method TakeTicket(subject: string) returns (r: Result<Ticket, QueueError>)
      requires Inv(State())
      modifies this
      ensures r == if Blank(subject) then Failure(BlankSubject) else Success(|old(calls)|)
      ensures CanEnter(old(State()), subject)
      ensures State() == if Blank(subject) then old(State()) else Enter(old(State()), subject)
      ensures Inv(State())
    {
      EnterKeepsInv(State(), subject);
      if Blank(subject) {
        return Failure(BlankSubject);
      }
      var t := |calls|;
      if subject !in entries {
        entries := entries[subject := |objects|];
        objects := objects + [Entry([], 0)];
      }
      var e := entries[subject];
      objects := objects[e := objects[e].(activeCount := objects[e].activeCount + 1)];
      var isFirstInLine := |objects[e].waiting| == 0;
      objects := objects[e := objects[e].(waiting := objects[e].waiting + [t])];
      if isFirstInLine {
        signalled := signalled + {t};
      }
      calls := calls + [Call(subject, e, Waiting)];
      return Success(t);
    }

    /** `my_ticket.wait()` returning. */
    method BeginTurn(t: Ticket)
      requires Inv(State()) && CanStart(State(), t)
      modifies this
      ensures State() == Start(old(State()), t) && Inv(State())
    {
      StartKeepsInv(State(), t);
      calls := calls[t := calls[t].(phase := Running)];
    }

    method FinishTurn(t: Ticket)
      requires Inv(State()) && t < |calls| && calls[t].phase == Running
      modifies this
      ensures CanLeave(old(State()), t) && State() == Leave(old(State()), t)
      ensures Inv(State())
    {
      LeaveKeepsInv(State(), t);
      var c := calls[t];
      objects := objects[c.entry := objects[c.entry].(waiting := objects[c.entry].waiting[1..])];
      objects := objects[c.entry := objects[c.entry].(activeCount := objects[c.entry].activeCount - 1)];
      if objects[c.entry].waiting != [] {
        signalled := signalled + {objects[c.entry].waiting[0]};
      }
      if objects[c.entry].activeCount == 0 {
        entries := entries - {c.subject};
      }
      calls := calls[t := c.(phase := Done)];
    }
  }

  // ------------------------------------------------------- who is in the queue

  /** The unfinished calls of a subject, in the order they arrived. */
  function Pending(calls: seq<Call>, s: string): seq<Ticket> {
    if calls == [] then []
    else
      var n := |calls| - 1;
      var before := Pending(calls[..n], s);
      if calls[n].subject == s && calls[n].phase != Done then before + [n] else before
  }

  predicate Increasing(ts: seq<Ticket>) {
    forall i, j :: 0 <= i < j < |ts| ==> ts[i] < ts[j]
  }

  lemma {:induction false} PendingMember(calls: seq<Call>, s: string, t: Ticket)
    ensures t in Pending(calls, s) <==> t < |calls| && calls[t].subject == s && calls[t].phase != Done
  {
    if calls != [] {
      PendingMember(calls[..|calls| - 1], s, t);
    }
  }

  lemma {:induction false} PendingIncreases(calls: seq<Call>, s: string)
    ensures Increasing(Pending(calls, s))
  {
    if calls != [] {
      var before := Pending(calls[..|calls| - 1], s);
      PendingIncreases(calls[..|calls| - 1], s);
      forall i | 0 <= i < |before| ensures before[i] < |calls| - 1 {
        PendingMember(calls[..|calls| - 1], s, before[i]);
      }
    }
  }

  lemma PendingMembers(calls: seq<Call>, s: string)
    ensures forall t: Ticket :: t in Pending(calls, s) <==> t < |calls| && calls[t].subject == s && calls[t].phase != Done
    ensures Increasing(Pending(calls, s))
  {
    PendingIncreases(calls, s);
    forall t: Ticket ensures t in Pending(calls, s) <==> t < |calls| && calls[t].subject == s && calls[t].phase != Done {
      PendingMember(calls, s, t);
    }
  }

  lemma HeadIsLeast(calls: seq<Call>, s: string, u: Ticket)
    requires u in Pending(calls, s)
    ensures Pending(calls, s)[0] <= u
  {
    PendingMembers(calls, s);
    var p := Pending(calls, s);
    var k :| 0 <= k < |p| && p[k] == u;
    assert k > 0 ==> p[0] < p[k];
  }

  /** Only who is unfinished matters. */
  lemma {:induction false} PendingSame(a: seq<Call>, b: seq<Call>, s: string)
    requires |a| == |b|
    requires forall i :: 0 <= i < |a| ==>
               (a[i].subject == s && a[i].phase != Done <==> b[i].subject == s && b[i].phase != Done)
    ensures Pending(a, s) == Pending(b, s)
  {
    if a != [] {
      PendingSame(a[..|a| - 1], b[..|b| - 1], s);
    }
  }

  // ----------------------------------------------------------------- invariant

  /** The registered entry of a subject lists exactly its unfinished calls. */
  ghost predicate EntryMatches(q: Queue, s: string) {
    var p := Pending(q.calls, s);
    && (s in q.entries <==> p != [])
    && (s in q.entries ==> q.entries[s] < |q.objects| && q.objects[q.entries[s]] == Entry(p, |p|))
  }

  /** An unfinished call holds its subject's registered entry, and is signalled iff it is the head. */
  ghost predicate CallMatches(q: Queue, t: Ticket)
    requires t < |q.calls|
  {
    var c := q.calls[t];
    && (c.phase != Done ==>
          var p := Pending(q.calls, c.subject);
          && c.subject in q.entries && c.entry == q.entries[c.subject]
          && p != [] && (t in q.signalled <==> t == p[0]))
    && (c.phase == Running ==> t in q.signalled)
  }

  ghost predicate EntriesDistinct(q: Queue) {
    forall s, r :: s in q.entries && r in q.entries && s != r ==> q.entries[s] != q.entries[r]
  }

  /** A call that has started finds every earlier call of its subject finished. */
  ghost predicate StartedInOrder(q: Queue) {
    forall t, u :: 0 <= t < u < |q.calls| && q.calls[t].subject == q.calls[u].subject && q.calls[u].phase != Waiting
      ==> q.calls[t].phase == Done
  }

  ghost predicate Inv(q: Queue) {
    && (forall s :: EntryMatches(q, s))
    && (forall t :: 0 <= t < |q.calls| ==> CallMatches(q, t))
    && EntriesDistinct(q) && StartedInOrder(q)
    && (forall t :: t in q.signalled ==> t < |q.calls|)
  }

  lemma InvInit()
    ensures Inv(EMPTY)
  {
  }

  lemma PendingAppend(calls: seq<Call>, c: Call, s: string)
    ensures Pending(calls + [c], s)
         == if c.subject == s && c.phase != Done then Pending(calls, s) + [|calls|] else Pending(calls, s)
  {
  }

  /** The call that Enter adds. */
  function Entering(q: Queue, subject: string): Call {
    Call(subject, if subject in q.entries then q.entries[subject] else |q.objects|, Waiting)
  }

  lemma EnterKeepsEntry(q: Queue, subject: string, s: string)
    requires Inv(q) && CanEnter(q, subject)
    ensures EntryMatches(Enter(q, subject), s)
  {
    PendingAppend(q.calls, Entering(q, subject), s);
    assert EntryMatches(q, s) && EntryMatches(q, subject);
    if s != subject && s in q.entries && subject in q.entries {
      assert q.entries[s] != q.entries[subject];
    }
    hide Pending;
  }

  /** The calls already in the queue. */
  lemma EnterKeepsCall(q: Queue, subject: string, t: Ticket)
    requires Inv(q) && CanEnter(q, subject) && t < |q.calls|
    ensures CallMatches(Enter(q, subject), t)
  {
    var s := q.calls[t].subject;
    PendingAppend(q.calls, Entering(q, subject), s);
    PendingMember(q.calls, s, t);
    assert EntryMatches(q, subject) && CallMatches(q, t);
    hide Inv;
    hide Pending;
  }

  /** The call that arrives. */
  lemma EnterAddsCall(q: Queue, subject: string)
    requires Inv(q) && CanEnter(q, subject)
    ensures CallMatches(Enter(q, subject), |q.calls|)
  {
    PendingAppend(q.calls, Entering(q, subject), subject);
    assert EntryMatches(q, subject);
    if Pending(q.calls, subject) != [] {
      PendingMember(q.calls, subject, Pending(q.calls, subject)[0]);
    }
    assert |q.calls| !in q.signalled;
    hide Inv;
    hide Pending;
  }

  lemma EnterKeepsInv(q: Queue, subject: string)
    requires Inv(q)
    ensures CanEnter(q, subject) && Inv(Enter(q, subject))
  {
    assert EntryMatches(q, subject);
    var r := Enter(q, subject);
    forall s ensures EntryMatches(r, s) {
      EnterKeepsEntry(q, subject, s);
    }
    forall t | 0 <= t < |r.calls| ensures CallMatches(r, t) {
      if t < |q.calls| {
        EnterKeepsCall(q, subject, t);
      } else {
        EnterAddsCall(q, subject);
      }
    }
    assert EntriesDistinct(r) by {
      forall s | s in q.entries ensures q.entries[s] < |q.objects| {
        assert EntryMatches(q, s);
      }
    }
    hide EntryMatches;
    hide CallMatches;
  }

  lemma PendingRestart(calls: seq<Call>, t: Ticket, s: string)
    requires t < |calls| && calls[t].phase == Waiting
    ensures Pending(calls[t := calls[t].(phase := Running)], s) == Pending(calls, s)
  {
    PendingSame(calls[t := calls[t].(phase := Running)], calls, s);
  }

  lemma StartKeepsInv(q: Queue, t: Ticket)
    requires Inv(q) && CanStart(q, t)
    ensures Inv(Start(q, t))
  {
    var r := Start(q, t);
    forall s ensures EntryMatches(r, s) {
      PendingRestart(q.calls, t, s);
      assert EntryMatches(q, s);
    }
    forall u | 0 <= u < |r.calls| ensures CallMatches(r, u) {
      PendingRestart(q.calls, t, q.calls[u].subject);
      assert CallMatches(q, u);
    }
    HeadFirst(q, t);
  }

  /** No earlier call of the subject is unfinished when a signalled one is. */
  lemma HeadFirst(q: Queue, t: Ticket)
    requires Inv(q) && t < |q.calls| && q.calls[t].phase != Done && t in q.signalled
    ensures Pending(q.calls, q.calls[t].subject) != [] && Pending(q.calls, q.calls[t].subject)[0] == t
    ensures forall u :: 0 <= u < t && q.calls[u].subject == q.calls[t].subject ==> q.calls[u].phase == Done
  {
    var s := q.calls[t].subject;
    assert CallMatches(q, t);
    PendingMembers(q.calls, s);
    forall u | u in Pending(q.calls, s) ensures t <= u {
      HeadIsLeast(q.calls, s, u);
    }
  }

  lemma {:induction false} PendingFinish(calls: seq<Call>, t: Ticket, s: string)
    requires t < |calls| && Pending(calls, calls[t].subject) != [] && Pending(calls, calls[t].subject)[0] == t
    ensures Pending(calls[t := calls[t].(phase := Done)], s)
         == if s == calls[t].subject then Pending(calls, s)[1..] else Pending(calls, s)
  {
    if s == calls[t].subject {
      HeadFinishes(calls, t, s);
    } else {
      PendingSame(calls[t := calls[t].(phase := Done)], calls, s);
    }
  }

  lemma {:induction false} HeadFinishes(calls: seq<Call>, t: Ticket, s: string)
    requires t < |calls| && Pending(calls, s) != [] && Pending(calls, s)[0] == t
    ensures Pending(calls[t := calls[t].(phase := Done)], s) == Pending(calls, s)[1..]
  {
    var n, after := |calls| - 1, calls[t := calls[t].(phase := Done)];
    var before := Pending(calls[..n], s);
    if t == n {
      assert after[..n] == calls[..n];
      PendingMembers(calls[..n], s);
      assert t !in before;
      assert |before| == 0;
    } else {
      assert before != [];
      HeadFinishes(calls[..n], t, s);
      assert after[..n] == calls[..n][t := calls[..n][t].(phase := Done)];
    }
  }

  /** popleft removes the caller's own ticket. */
  lemma LeaveRemovesOwnTicket(q: Queue, t: Ticket)
    requires Inv(q) && t < |q.calls| && q.calls[t].phase == Running
    ensures CanLeave(q, t) && t in q.signalled
    ensures var c := q.calls[t];
            c.subject in q.entries && c.entry == q.entries[c.subject] && q.objects[c.entry].waiting[0] == t
  {
    assert CallMatches(q, t);
    assert EntryMatches(q, q.calls[t].subject);
  }

  lemma LeaveKeepsInv(q: Queue, t: Ticket)
    requires Inv(q) && t < |q.calls| && q.calls[t].phase == Running
    ensures CanLeave(q, t) && Inv(Leave(q, t))
  {
    LeaveRemovesOwnTicket(q, t);
    HeadFirst(q, t);
    var r, subject := Leave(q, t), q.calls[t].subject;
    var p := Pending(q.calls, subject);
    PendingMembers(q.calls, subject);
    assert EntryMatches(q, subject);
    assert p[1..] != [] ==> p[1] in p;
    forall s ensures EntryMatches(r, s) {
      PendingFinish(q.calls, t, s);
      assert EntryMatches(q, s);
    }
    forall u | 0 <= u < |r.calls| ensures CallMatches(r, u) {
      PendingFinish(q.calls, t, r.calls[u].subject);
      if r.calls[u].phase != Done {
        if r.calls[u].subject == subject {
          LeaveCallBehind(q, t, u);
        } else {
          LeaveCallElsewhere(q, t, u);
        }
      }
    }
  }

  lemma LeaveCallBehind(q: Queue, t: Ticket, u: Ticket)
    requires Inv(q) && CanLeave(q, t) && t in q.signalled && u < |q.calls| && u != t
    requires q.calls[u].phase != Done && q.calls[u].subject == q.calls[t].subject
    requires Pending(q.calls, q.calls[t].subject) != []
    requires Pending(Leave(q, t).calls, q.calls[t].subject) == Pending(q.calls, q.calls[t].subject)[1..]
    ensures CallMatches(Leave(q, t), u)
  {
    var s := q.calls[t].subject;
    var p := Pending(q.calls, s);
    assert CallMatches(q, t) && CallMatches(q, u) && EntryMatches(q, s);
    PendingMember(q.calls, s, u);
    PendingIncreases(q.calls, s);
    hide Inv;
    hide Pending;
    hide EntryMatches;
    assert u != p[0] && p == [p[0]] + p[1..];
  }

  lemma LeaveCallElsewhere(q: Queue, t: Ticket, u: Ticket)
    requires Inv(q) && CanLeave(q, t) && t in q.signalled && u < |q.calls|
    requires q.calls[u].phase != Done && q.calls[u].subject != q.calls[t].subject
    requires Pending(Leave(q, t).calls, q.calls[u].subject) == Pending(q.calls, q.calls[u].subject)
    ensures CallMatches(Leave(q, t), u)
  {
    var s := q.calls[t].subject;
    var p := Pending(q.calls, s);
    assert CallMatches(q, t) && CallMatches(q, u) && EntryMatches(q, s);
    if p[1..] != [] {
      PendingMember(q.calls, s, p[1]);
    }
    hide Inv;
    hide Pending;
    hide EntryMatches;
    assert p[1..] != [] ==> p[1] in p && p[1..][0] == p[1];
  }

  // ------------------------------------------------------------- main results

  datatype Step = TakeTicketStep(subject: string) | StartStep(t: Ticket) | LeaveStep(t: Ticket)

  predicate Enabled(q: Queue, s: Step) {
    match s
    case TakeTicketStep(subject) => CanEnter(q, subject)
    case StartStep(t) => CanStart(q, t)
    case LeaveStep(t) => CanLeave(q, t)
  }

  function Apply(q: Queue, s: Step): Queue
    requires Enabled(q, s)
  {
    match s
    case TakeTicketStep(subject) => Enter(q, subject)
    case StartStep(t) => Start(q, t)
    case LeaveStep(t) => Leave(q, t)
  }

  predicate Runs(q: Queue, steps: seq<Step>, last: Queue)
    decreases |steps|
  {
    if steps == [] then q == last
    else Enabled(q, steps[0]) && Runs(Apply(q, steps[0]), steps[1..], last)
  }

  lemma StepKeepsInv(q: Queue, s: Step)
    requires Inv(q) && Enabled(q, s)
    ensures Inv(Apply(q, s))
  {
    match s
    case TakeTicketStep(subject) => EnterKeepsInv(q, subject);
    case StartStep(t) => StartKeepsInv(q, t);
    case LeaveStep(t) => LeaveKeepsInv(q, t);
  }

  lemma {:induction false} RunKeepsInv(q: Queue, steps: seq<Step>, last: Queue)
    requires Inv(q) && Runs(q, steps, last)
    ensures Inv(last)
    decreases |steps|
  {
    hide Inv;
    if steps != [] {
      StepKeepsInv(q, steps[0]);
      RunKeepsInv(Apply(q, steps[0]), steps[1..], last);
    }
  }

  predicate OneRunning(q: Queue, t: Ticket, u: Ticket)
    requires t < |q.calls| && u < |q.calls|
  {
    q.calls[t].subject == q.calls[u].subject && q.calls[t].phase == Running && q.calls[u].phase == Running ==> t == u
  }

  /**
   * Under every interleaving: one call of a subject at a time is inside its turn;
   * turns start in the order the calls arrived; among the unfinished calls exactly
   * the head is signalled; the registered entry lists them in order with their
   * number as active_count; and a subject has an entry iff somebody is unfinished.
   */
  lemma EveryRunIsFifo(steps: seq<Step>, q: Queue)
    requires Runs(EMPTY, steps, q)
    ensures forall t, u :: 0 <= t < |q.calls| && 0 <= u < |q.calls| ==> OneRunning(q, t, u)
    ensures StartedInOrder(q)
    ensures forall s :: EntryMatches(q, s)
    ensures forall t :: 0 <= t < |q.calls| ==> CallMatches(q, t)
  {
    InvInit();
    RunKeepsInv(EMPTY, steps, q);
    forall t, u | 0 <= t < |q.calls| && 0 <= u < |q.calls| ensures OneRunning(q, t, u) {
      assert CallMatches(q, t) && CallMatches(q, u);
    }
  }

  /** When the entry is dropped nobody unfinished refers to it. */
  lemma DroppedEntryIsUnused(q: Queue, t: Ticket)
    requires Inv(q) && t < |q.calls| && q.calls[t].phase == Running
    ensures CanLeave(q, t)
    ensures q.calls[t].subject !in Leave(q, t).entries ==>
              forall u :: 0 <= u < |q.calls| && Leave(q, t).calls[u].phase != Done ==> q.calls[u].entry != q.calls[t].entry
  {
    LeaveKeepsInv(q, t);
    var r := Leave(q, t);
    if q.calls[t].subject !in r.entries {
      assert CallMatches(q, t);
      forall u | 0 <= u < |q.calls| && r.calls[u].phase != Done ensures q.calls[u].entry != q.calls[t].entry {
        assert CallMatches(r, u);
      }
    }
  }

  /** The queue never stalls: the head can begin, or is running and can leave. */
  lemma HeadCanStep(q: Queue, s: string)
    requires Inv(q) && Pending(q.calls, s) != []
    ensures CanStart(q, Pending(q.calls, s)[0]) || CanLeave(q, Pending(q.calls, s)[0])
  {
    PendingMembers(q.calls, s);
    var t := Pending(q.calls, s)[0];
    assert t in Pending(q.calls, s);
    assert CallMatches(q, t);
    if q.calls[t].phase == Running {
      LeaveRemovesOwnTicket(q, t);
    }
  }

  /** How many of the steps release a turn of `s`. */
  function Releases(q: Queue, steps: seq<Step>, s: string): nat
    decreases |steps|
  {
    if steps == [] || !Enabled(q, steps[0]) then 0
    else
      (if steps[0].LeaveStep? && q.calls[steps[0].t].subject == s then 1 else 0)
      + Releases(Apply(q, steps[0]), steps[1..], s)
  }

  /**
   * A call at position k of its subject's queue has, as long as it is unfinished,
   * moved up by exactly the number of releases; it runs after exactly k of them.
   */
  lemma {:induction false} RunsAfterExactlyKReleases(q: Queue, steps: seq<Step>, last: Queue, s: string, k: nat, t: Ticket)
    requires Inv(q) && Runs(q, steps, last)
    requires k < |Pending(q.calls, s)| && Pending(q.calls, s)[k] == t
    requires t < |last.calls| && last.calls[t].phase != Done
    ensures var n := Releases(q, steps, s);
            && n <= k && k - n < |Pending(last.calls, s)| && Pending(last.calls, s)[k - n] == t
            && (last.calls[t].phase == Running ==> n == k)
    decreases |steps|
  {
    hide Inv;
    hide Enter;
    hide Leave;
    hide Pending;
    if steps == [] {
      RunningIsHead(q, s, k, t);
    } else {
      var st, r := steps[0], Apply(q, steps[0]);
      StepKeepsInv(q, st);
      StepMovesUp(q, st, s);
      if st.LeaveStep? && q.calls[st.t].subject == s {
        if k == 0 {
          FinishedStays(r, steps[1..], last, t);
        } else {
          RunsAfterExactlyKReleases(r, steps[1..], last, s, k - 1, t);
        }
      } else {
        RunsAfterExactlyKReleases(r, steps[1..], last, s, k, t);
      }
    }
  }

  lemma RunningIsHead(q: Queue, s: string, k: nat, t: Ticket)
    requires Inv(q) && k < |Pending(q.calls, s)| && Pending(q.calls, s)[k] == t
    ensures t < |q.calls| && (q.calls[t].phase == Running ==> k == 0)
  {
    PendingMembers(q.calls, s);
    assert t in Pending(q.calls, s);
    assert CallMatches(q, t);
  }

  /** A release of the subject drops its head; any other step at most appends. */
  lemma StepMovesUp(q: Queue, st: Step, s: string)
    requires Inv(q) && Enabled(q, st)
    ensures if st.LeaveStep? && q.calls[st.t].subject == s
            then Pending(q.calls, s) != [] && Pending(q.calls, s)[0] == st.t
                 && Pending(Apply(q, st).calls, s) == Pending(q.calls, s)[1..]
                 && st.t < |Apply(q, st).calls| && Apply(q, st).calls[st.t].phase == Done
            else Pending(q.calls, s) <= Pending(Apply(q, st).calls, s)
  {
    match st
    case TakeTicketStep(subject) =>
      PendingAppend(q.calls, Call(subject, Enter(q, subject).entries[subject], Waiting), s);
    case StartStep(t) => PendingRestart(q.calls, t, s);
    case LeaveStep(t) =>
      LeaveRemovesOwnTicket(q, t);
      HeadFirst(q, t);
      PendingFinish(q.calls, t, s);
  }

  lemma {:induction false} FinishedStays(q: Queue, steps: seq<Step>, last: Queue, t: Ticket)
    requires Runs(q, steps, last) && t < |q.calls| && q.calls[t].phase == Done
    ensures t < |last.calls| && last.calls[t].phase == Done
    decreases |steps|
  {
    if steps != [] {
      FinishedStays(Apply(q, steps[0]), steps[1..], last, t);
    }
  }
}
