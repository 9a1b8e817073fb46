/**
 * infrastructure/outbox.py: the transactional outbox.
 *
 * `domain_events` is kept in insertion order and an event's id is its position
 * (the source draws a fresh uuid); `domain_event_consumers` is the map of marks;
 * `rows` stands for every other table a consumer may write in its transaction.
 */
module Outbox {
  import opened Wrappers
  import opened TimeFormat
  import T = TransactionCore

  type EventId = nat
  type Rows = map<string, string>

  datatype Event = Event(
    kind: string, source: string, payload: string, createdAt: Instant,
    claimedAt: Option<Instant>, claimExpires: Option<Instant>, publishedAt: Option<Instant>)

  /** An event before write_event gives it a row. */
  datatype Draft = Draft(kind: string, source: string, payload: string, occurredAt: Instant)

  function NewRow(d: Draft): Event {
    Event(d.kind, d.source, d.payload, d.occurredAt, None, None, None)
  }

  function NewRows(ds: seq<Draft>): (r: seq<Event>)
    ensures |r| == |ds| && forall i :: 0 <= i < |ds| ==> r[i] == NewRow(ds[i])
  {
    seq(|ds|, i requires 0 <= i < |ds| => NewRow(ds[i]))
  }

  datatype Store = Store(events: seq<Event>, marks: map<(EventId, string), Instant>, rows: Rows)

  /** What a handler did inside its transaction before returning or raising. */
  datatype Reaction = Reaction(rows: Rows, emitted: seq<Draft>, raised: bool, slow: bool)

  type Handler = (Rows, Event) -> Reaction

  // ------------------------------------------------------------------ claiming

  predicate Claimable(e: Event, now: Instant) {
    e.publishedAt.None? && (e.claimedAt.None? || (e.claimExpires.Some? && SqlLe(e.claimExpires.value, now)))
  }

  predicate Ids(events: seq<Event>, ids: seq<EventId>) {
    forall i :: 0 <= i < |ids| ==> ids[i] < |events|
  }

  predicate Distinct<T(==)>(s: seq<T>) {
    forall i, j :: 0 <= i < j < |s| ==> s[i] != s[j]
  }

  predicate Ordered(events: seq<Event>, ids: seq<EventId>)
    requires Ids(events, ids)
  {
    forall i, j :: 0 <= i < j < |ids| ==> SqlLe(events[ids[i]].createdAt, events[ids[j]].createdAt)
  }

  /** LIMIT: a negative limit is no limit. */
  predicate WithinLimit(n: nat, limit: int) { limit < 0 || n <= limit }

  /** What SELECT ... ORDER BY created_at LIMIT may return, whatever it does with ties. */
  ghost predicate IsBatch(events: seq<Event>, now: Instant, limit: int, ids: seq<EventId>) {
    && Ids(events, ids) && Distinct(ids) && Ordered(events, ids) && WithinLimit(|ids|, limit)
    && (forall id :: id in ids ==> Claimable(events[id], now))
    && (forall c :: 0 <= c < |events| && Claimable(events[c], now) && c !in ids ==>
          |ids| == limit && forall id :: id in ids ==> SqlLe(events[id].createdAt, events[c].createdAt))
  }

  function Insert(events: seq<Event>, ids: seq<EventId>, id: EventId): (r: seq<EventId>)
    requires Ids(events, ids) && id < |events|
    ensures Ids(events, r) && |r| == |ids| + 1
  {
    if ids == [] || SqlLe(events[ids[|ids| - 1]].createdAt, events[id].createdAt) then ids + [id]
    else
      Insert(events, ids[..|ids| - 1], id) + [ids[|ids| - 1]]
  }

  /** The claimable events among the first `n` by created_at, ties by insertion. */
  function Queue(events: seq<Event>, now: Instant, n: nat): (r: seq<EventId>)
    requires n <= |events|
    ensures Ids(events, r)
  {
    if n == 0 then []
    else if Claimable(events[n - 1], now) then Insert(events, Queue(events, now, n - 1), n - 1)
    else Queue(events, now, n - 1)
  }

  function Select(events: seq<Event>, now: Instant, limit: int): (r: seq<EventId>)
    ensures Ids(events, r)
  {
    var q := Queue(events, now, |events|);
    if limit < 0 || |q| <= limit then q else q[..limit]
  }

  lemma {:induction false} InsertMembers(events: seq<Event>, ids: seq<EventId>, id: EventId)
    requires Ids(events, ids) && id < |events|
    ensures forall x :: x in Insert(events, ids, id) <==> x in ids || x == id
    ensures Distinct(ids) && id !in ids ==> Distinct(Insert(events, ids, id))
  {
    if ids != [] && !SqlLe(events[ids[|ids| - 1]].createdAt, events[id].createdAt) {
      var before, last := ids[..|ids| - 1], ids[|ids| - 1];
      assert ids == before + [last];
      InsertMembers(events, before, id);
      if Distinct(ids) && id !in ids {
        assert forall i :: 0 <= i < |before| ==> before[i] == ids[i];
        assert last !in before && last != id;
        assert last !in Insert(events, before, id);
      }
    }
  }

  lemma {:induction false} InsertOrdered(events: seq<Event>, ids: seq<EventId>, id: EventId)
    requires Ids(events, ids) && id < |events| && Ordered(events, ids)
    ensures Ordered(events, Insert(events, ids, id))
  {
    if ids == [] {
    } else {
      var before, last := ids[..|ids| - 1], ids[|ids| - 1];
      assert forall i :: 0 <= i < |before| ==> SqlLe(events[before[i]].createdAt, events[last].createdAt);
      if SqlLe(events[last].createdAt, events[id].createdAt) {
        forall i | 0 <= i < |ids| ensures SqlLe(events[ids[i]].createdAt, events[id].createdAt) {
          SqlLeIsTotalOrder(events[ids[i]].createdAt, events[last].createdAt, events[id].createdAt);
        }
      } else {
        InsertOrdered(events, before, id);
        InsertMembers(events, before, id);
        var r := Insert(events, before, id);
        forall i | 0 <= i < |r| ensures SqlLe(events[r[i]].createdAt, events[last].createdAt) {
          assert r[i] in r;
        }
      }
    }
  }

  lemma {:induction false} QueueFacts(events: seq<Event>, now: Instant, n: nat)
    requires n <= |events|
    ensures Ordered(events, Queue(events, now, n)) && Distinct(Queue(events, now, n))
    ensures forall id: EventId :: id in Queue(events, now, n) <==> id < n && Claimable(events[id], now)
  {
    hide Claimable;
    hide Insert;
    if n > 0 {
      QueueFacts(events, now, n - 1);
      InsertOrdered(events, Queue(events, now, n - 1), n - 1);
      InsertMembers(events, Queue(events, now, n - 1), n - 1);
    }
  }

  /** The deterministic choice is one of the allowed batches. */
  lemma SelectIsBatch(events: seq<Event>, now: Instant, limit: int)
    ensures IsBatch(events, now, limit, Select(events, now, limit))
  {
    QueueFacts(events, now, |events|);
    var q, ids := Queue(events, now, |events|), Select(events, now, limit);
    forall c | 0 <= c < |events| && Claimable(events[c], now) && c !in ids
      ensures |ids| == limit && forall id :: id in ids ==> SqlLe(events[id].createdAt, events[c].createdAt)
    {
      assert c in q;
      var j :| 0 <= j < |q| && q[j] == c;
      assert j >= |ids| && ids == q[..limit];
      forall id | id in ids ensures SqlLe(events[id].createdAt, events[c].createdAt) {
        var i :| 0 <= i < |ids| && ids[i] == id;
        assert q[i] == id && i < j;
      }
    }
  }

  ghost predicate Chooses(f: (seq<Event>, Instant, int) -> seq<EventId>) {
    forall events, now, limit :: IsBatch(events, now, limit, f(events, now, limit))
  }

  lemma SelectChooses()
    ensures Chooses(Select)
  {
    forall events, now, limit {
      SelectIsBatch(events, now, limit);
    }
  }

  /** How the database breaks ties of created_at: any way of answering the query. */
  type Chooser = f: (seq<Event>, Instant, int) -> seq<EventId> | Chooses(f) ghost witness (SelectChooses(); Select)

  lemma ChosenIsBatch(choose: Chooser, events: seq<Event>, now: Instant, limit: int)
    ensures IsBatch(events, now, limit, choose(events, now, limit))
  {
  }

  /** Never claimed, or its lease text is not after the clock's text; and never once it is published. */
  lemma ClaimableIff(e: Event, now: Instant)
    ensures Claimable(e, now) <==>
            && e.publishedAt.None?
            && (e.claimedAt.None? || (e.claimExpires.Some? && !StrLt(Iso(now), Iso(e.claimExpires.value))))
  {
    if e.claimExpires.Some? {
      SqlLeIsTextOrder(e.claimExpires.value, now);
    }
  }

  /** An empty batch means there was nothing to claim, or that nothing was asked for. */
  lemma EmptyBatch(events: seq<Event>, now: Instant, limit: int)
    ensures IsBatch(events, now, limit, []) <==>
            limit == 0 || forall c :: 0 <= c < |events| ==> !Claimable(events[c], now)
  {
  }

  function SetClaims(events: seq<Event>, ids: seq<EventId>, now: Instant, expires: Instant): (r: seq<Event>)
    ensures |r| == |events|
  {
    seq(|events|, i requires 0 <= i < |events| =>
      if i in ids then events[i].(claimedAt := Some(now), claimExpires := Some(expires)) else events[i])
  }

  function SetPublished(events: seq<Event>, ids: seq<EventId>, now: Instant): (r: seq<Event>)
    ensures |r| == |events|
  {
    seq(|events|, i requires 0 <= i < |events| =>
      if i in ids then events[i].(publishedAt := Some(now)) else events[i])
  }

  /** The store after a reaction that returned: its writes, its events and its mark, together. */
  function Consumed(s: Store, id: EventId, consumer: string, r: Reaction, now: Instant): Store {
    Store(s.events + NewRows(r.emitted), s.marks[(id, consumer) := now], r.rows)
  }

  datatype Outcome = Ran | Absorbed | Failed

  /** consume_event: dedup check, reaction and mark in one transaction. */
  function Consume(s: Store, id: EventId, consumer: string, handler: Handler, now: Instant): (Store, Outcome)
    requires id < |s.events|
  {
    if (id, consumer) in s.marks then (s, Absorbed)
    else
      var r := handler(s.rows, s.events[id]);
      if r.raised then (s, Failed) else (Consumed(s, id, consumer, r, now), Ran)
  }

  datatype ClaimError = Overflow

  class OutboxDatabase {
    const choose: Chooser
    var events: seq<Event>
    var marks: map<(EventId, string), Instant>
    var rows: Rows

    function State(): Store
      reads this
    {
      Store(events, marks, rows)
    }

    constructor (choose: Chooser)
      ensures State() == Store([], map[], map[]) && this.choose == choose
    {
      this.choose := choose;
      events, marks, rows := [], map[], map[];
    }

    method WriteEvent(d: Draft) returns (id: EventId)
      modifies this
      ensures id == |old(events)|
      ensures State() == old(State()).(events := old(events) + [NewRow(d)])
    {
      id := |events|;
      events := events + [NewRow(d)];
    }

    /** Failure is the OverflowError of `now + lease_duration`; nothing is claimed then. */
    method ClaimPendingEvents(limit: int, now: Instant, lease: int) returns (r: Result<seq<EventId>, ClaimError>)
      modifies this
      ensures var ids := choose(old(events), now, limit);
              && r == (if ids != [] && Plus(now, lease).None? then Failure(Overflow) else Success(ids))
              && IsBatch(old(events), now, limit, ids)
              && State() == (if ids != [] && r.Success?
                             then old(State()).(events := SetClaims(old(events), ids, now, Plus(now, lease).value))
                             else old(State()))
    {
      var ids := choose(events, now, limit);
      ChosenIsBatch(choose, events, now, limit);
      if ids == [] {
        return Success([]);
      }
      match Plus(now, lease)
      case None => return Failure(Overflow);
      case Some(expires) =>
        for k := 0 to |ids|
          invariant events == SetClaims(old(events), ids[..k], now, expires)
          invariant marks == old(marks) && rows == old(rows)
        {
          assert ids[..k + 1] == ids[..k] + [ids[k]];
          events := events[ids[k] := events[ids[k]].(claimedAt := Some(now), claimExpires := Some(expires))];
        }
        assert ids[..|ids|] == ids;
        return Success(ids);
    }

    method MarkPublished(ids: seq<EventId>, now: Instant)
      modifies this
      ensures State() == old(State()).(events := SetPublished(old(events), ids, now))
    {
      for k := 0 to |ids|
        invariant events == SetPublished(old(events), ids[..k], now)
        invariant marks == old(marks) && rows == old(rows)
      {
        assert ids[..k + 1] == ids[..k] + [ids[k]];
        if ids[k] < |events| {
          events := events[ids[k] := events[ids[k]].(publishedAt := Some(now))];
        }
      }
      assert ids[..|ids|] == ids;
    }

    /** The handler's writes happen in place; an exception rolls them back. */
    method ConsumeEvent(id: EventId, consumer: string, handler: Handler, now: Instant) returns (outcome: Outcome)
      requires id < |events|
      modifies this
      ensures (State(), outcome) == Consume(old(State()), id, consumer, handler, now)
    {
      var before := State();
      if (id, consumer) in marks {
        return Absorbed;
      }
      var r := handler(rows, events[id]);
      rows := r.rows;
      for k := 0 to |r.emitted|
        invariant events == before.events + NewRows(r.emitted[..k])
        invariant marks == before.marks && rows == r.rows
      {
        assert NewRows(r.emitted[..k + 1]) == NewRows(r.emitted[..k]) + [NewRow(r.emitted[k])];
        var _ := WriteEvent(r.emitted[k]);
      }
      assert r.emitted[..|r.emitted|] == r.emitted;
      if r.raised {
        events, marks, rows := before.events, before.marks, before.rows;
        return Failed;
      }
      marks := marks[(id, consumer) := now];
      outcome := Ran;
    }
  }

  // --------------------------------------------------- what consuming does

  /** Written by write_event from this draft and touched by nobody since. */
  predicate FreshFrom(e: Event, d: Draft) {
    && e.kind == d.kind && e.source == d.source && e.payload == d.payload && e.createdAt == d.occurredAt
    && e.claimedAt.None? && e.claimExpires.None? && e.publishedAt.None?
  }

  /** `after` is `before` with the handler's writes, one fresh event per emitted draft, and the mark. */
  ghost predicate TakesEffect(before: Store, after: Store, id: EventId, consumer: string, r: Reaction, now: Instant) {
    && after.rows == r.rows
    && after.marks == before.marks[(id, consumer) := now]
    && before.events <= after.events && |after.events| == |before.events| + |r.emitted|
    && forall i :: 0 <= i < |r.emitted| ==> FreshFrom(after.events[|before.events| + i], r.emitted[i])
  }

  /** Exactly when the reaction runs to its end, and then it takes effect whole; otherwise nothing happens. */
  lemma ConsumeCases(s: Store, id: EventId, consumer: string, handler: Handler, now: Instant)
    requires id < |s.events|
    ensures var (after, outcome) := Consume(s, id, consumer, handler, now);
            var r := handler(s.rows, s.events[id]);
            && (outcome == Absorbed <==> (id, consumer) in s.marks)
            && (outcome == Ran <==> (id, consumer) !in s.marks && !r.raised)
            && (if outcome == Ran then TakesEffect(s, after, id, consumer, r, now) else after == s)
  {
  }

  function EmitStatements(ds: seq<Draft>): (r: seq<T.Stmt<Store>>)
    ensures forall i :: 0 <= i < |r| ==> r[i].Write?
  {
    if ds == [] then []
    else
      var e := NewRow(ds[0]);
      [T.Write((s: Store) => s.(events := s.events + [e]))] + EmitStatements(ds[1..])
  }

  /** The block consume_event opens: nothing for a marked pair, else what the handler does, then the mark. */
  function ConsumeBlock(s: Store, id: EventId, consumer: string, r: Reaction, now: Instant): seq<T.Stmt<Store>> {
    if (id, consumer) in s.marks then []
    else
      [T.Write((t: Store) => t.(rows := r.rows))] + EmitStatements(r.emitted)
      + [if r.raised then T.Raise else T.Write((t: Store) => t.(marks := t.marks[(id, consumer) := now]))]
  }

  lemma {:induction false} EmitsFold(ds: seq<Draft>, s: Store)
    ensures T.Fold(EmitStatements(ds), s) == s.(events := s.events + NewRows(ds))
  {
    if ds == [] {
      assert s.events + NewRows(ds) == s.events;
    } else {
      var next := s.(events := s.events + [NewRow(ds[0])]);
      EmitsFold(ds[1..], next);
      assert EmitStatements(ds)[1..] == EmitStatements(ds[1..]);
      assert next.events + NewRows(ds[1..]) == s.events + NewRows(ds);
    }
  }

  /** consume_event is one all-or-nothing transaction of the thread that calls it. */
  lemma ConsumeIsTransaction(core: T.Core<Store>, thread: T.Thread, id: EventId, consumer: string, handler: Handler,
                             now: Instant)
    requires id < |core.committed.events| && thread !in core.open
    ensures var s := core.committed;
            var (after, raised) := T.Begin(core, thread, ConsumeBlock(s, id, consumer, handler(s.rows, s.events[id]), now));
            var (store, outcome) := Consume(s, id, consumer, handler, now);
            after.committed == store && (raised <==> outcome == Failed) && after.open == core.open
  {
    var s := core.committed;
    var r := handler(s.rows, s.events[id]);
    var block := ConsumeBlock(s, id, consumer, r, now);
    T.AllOrNothing(core, thread, block);
    if (id, consumer) !in s.marks {
      if r.raised {
        assert block[|block| - 1].Raise?;
      } else {
        BlockFolds(s, id, consumer, r, now);
      }
    }
  }

  lemma BlockFolds(s: Store, id: EventId, consumer: string, r: Reaction, now: Instant)
    requires (id, consumer) !in s.marks && !r.raised
    ensures T.Completes(ConsumeBlock(s, id, consumer, r, now))
    ensures T.Fold(T.Writes(ConsumeBlock(s, id, consumer, r, now)), s) == Consumed(s, id, consumer, r, now)
  {
    var block := ConsumeBlock(s, id, consumer, r, now);
    var first, emits, mark := block[..1], EmitStatements(r.emitted), block[|block| - 1..];
    assert block == first + emits + mark;
    T.WritesOnly(block);
    T.FoldConcat(first + emits, mark, s);
    T.FoldConcat(first, emits, s);
    EmitsFold(r.emitted, s.(rows := r.rows));
    assert first[1..] == [] && mark[1..] == [];
  }

  // -------------------------------------------- what publishing twice does

  /**
   * Marking again is not a no-op: it moves published_at of an already published
   * event exactly when the two publishers read different clocks.
   */
  lemma RepublishMovesTimestamp(events: seq<Event>, ids: seq<EventId>, first: Instant, second: Instant, id: EventId)
    requires id < |events| && id in ids
    ensures SetPublished(SetPublished(events, ids, first), ids, second)[id].publishedAt == Some(second)
    ensures SetPublished(SetPublished(events, ids, first), ids, second)[id] == SetPublished(events, ids, first)[id]
            <==> first == second
  {
  }
}
