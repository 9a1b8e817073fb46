/**
 * infrastructure/database.py: the one way to open an atomic unit of work.
 *
 * A body is the list of things done between BEGIN and COMMIT. Concurrent
 * transactions are serialised by BEGIN IMMEDIATE, so one body sees and replaces
 * one committed state; the threads that have a block open, waiting for that lock
 * or inside it, are a set.
 */
module TransactionCore {
  import opened Wrappers

  type Thread = nat

  /**
   * One statement of a `with db.transaction()` block: a write, a raise, or another
   * `with db.transaction()` block of the same thread, whose exception the outer
   * block may catch or let through.
   */
  datatype Stmt<!S> =
    | Write(update: S -> S)
    | Raise
    | Nest(inner: seq<Stmt<S>>, caught: bool)

  /** `begun` lists the threads of the blocks that ran, in the order they began. */
  datatype Core<S> = Core(committed: S, open: set<Thread>, begun: seq<Thread>)

  /** `with transaction()` around `body`: the guard, the block, and the way out. */
  function Begin<S>(db: Core<S>, t: Thread, body: seq<Stmt<S>>): (Core<S>, bool)
    decreases body, 1
  {
    if t in db.open then (db, true) // NestedTransactionError
    else
      var (after, working) := Statements(Core(db.committed, db.open + {t}, db.begun + [t]), t, body, db.committed);
      (Core(if working.Some? then working.value else after.committed, after.open - {t}, after.begun), working.None?)
  }

  /**
   * The statements one after the other, on the block's own copy; a nested block
   * goes to the database like any other. None when an exception leaves the block.
   */
  function Statements<S>(db: Core<S>, t: Thread, body: seq<Stmt<S>>, working: S): (Core<S>, Option<S>)
    decreases body, 0
  {
    if body == [] then (db, Some(working))
    else
      match body[0]
      case Write(f) => Statements(db, t, body[1..], f(working))
      case Raise => (db, None)
      case Nest(inner, caught) =>
        var (after, raised) := Begin(db, t, inner);
        if raised && !caught then (after, None) else Statements(after, t, body[1..], working)
  }

  class Database<S> {
    var committed: S
    var openThreads: set<Thread>
    ghost var begun: seq<Thread>

    ghost function State(): Core<S>
      reads this
    {
      Core(committed, openThreads, begun)
    }

    constructor (initial: S)
      ensures State() == Core(initial, {}, [])
    {
      committed, openThreads, begun := initial, {}, [];
    }

    method Transaction(thread: Thread, body: seq<Stmt<S>>) returns (raised: bool)
      modifies this
      ensures (State(), raised) == Begin(old(State()), thread, body)
      decreases body
    {
      if thread in openThreads {
        return true;
      }
      ghost var before := State();
      openThreads := openThreads + {thread};
      begun := begun + [thread];
      var working, i := committed, 0;
      raised := false;
      ghost var goal := Statements(State(), thread, body, working);
      assert body[0..] == body;
      while i < |body| && !raised
        invariant 0 <= i <= |body|
        invariant goal == if raised then (State(), None) else Statements(State(), thread, body[i..], working)
        decreases |body| - i
      {
        assert body[i..][1..] == body[i + 1..];
        match body[i] {
          case Write(f) => working := f(working);
          case Raise => raised := true;
          case Nest(inner, caught) =>
            var innerRaised := Transaction(thread, inner);
            raised := innerRaised && !caught;
        }
        i := i + 1;
      }
      if !raised {
        assert body[i..] == [];
        committed := working;
      }
      openThreads := openThreads - {thread};
    }
  }

  // ------------------------------------------- what the guard makes of a block

  /** Nothing in the block raises past it: no statement raises, every nested block is caught. */
  predicate Completes<S>(body: seq<Stmt<S>>) {
    forall i :: 0 <= i < |body| ==> !body[i].Raise? && (body[i].Nest? ==> body[i].caught)
  }

  function Writes<S>(body: seq<Stmt<S>>): (r: seq<Stmt<S>>)
    ensures forall i :: 0 <= i < |r| ==> r[i].Write?
  {
    if body == [] then []
    else if body[0].Write? then [body[0]] + Writes(body[1..])
    else Writes(body[1..])
  }

  function Fold<S>(writes: seq<Stmt<S>>, s: S): S
    requires forall i :: 0 <= i < |writes| ==> writes[i].Write?
  {
    if writes == [] then s else Fold(writes[1..], writes[0].update(s))
  }

  lemma {:induction false} FoldConcat<S>(a: seq<Stmt<S>>, b: seq<Stmt<S>>, s: S)
    requires forall i :: 0 <= i < |a| ==> a[i].Write?
    requires forall i :: 0 <= i < |b| ==> b[i].Write?
    ensures Fold(a + b, s) == Fold(b, Fold(a, s))
  {
    if a == [] {
      assert a + b == b;
    } else {
      assert (a + b)[1..] == a[1..] + b;
      FoldConcat(a[1..], b, a[0].update(s));
    }
  }

  /** A block of writes only is its own list of writes. */
  lemma {:induction false} WritesOnly<S>(body: seq<Stmt<S>>)
    requires forall i :: 0 <= i < |body| ==> body[i].Write?
    ensures Writes(body) == body && Completes(body)
  {
    if body != [] {
      WritesOnly(body[1..]);
      assert body == [body[0]] + body[1..];
    }
  }

  /**
   * Statements of a thread that is open: the database is as it was when they are
   * done, nested blocks included, and only the block's own writes show in its copy.
   */
  lemma {:induction false} OpenThreadIsIsolated<S>(db: Core<S>, t: Thread, body: seq<Stmt<S>>, working: S)
    requires t in db.open
    ensures Statements(db, t, body, working)
         == (db, if Completes(body) then Some(Fold(Writes(body), working)) else None)
    decreases |body|
  {
    if body != [] {
      var head, rest := body[0], body[1..];
      assert forall i :: 0 <= i < |rest| ==> rest[i] == body[i + 1];
      assert forall i :: 0 < i < |body| ==> body[i] == rest[i - 1];
      OpenThreadIsIsolated(db, t, rest, if head.Write? then head.update(working) else working);
      if head.Write? {
        assert Writes(body)[1..] == Writes(rest);
      }
    }
  }

  /**
   * All or nothing: of a thread that is not open, a block commits iff nothing
   * escapes it, and then exactly its own writes in order; it is the only block that
   * runs, whatever is nested in it, and the open threads are as before. Of an open
   * thread nothing happens but the exception.
   */
  lemma AllOrNothing<S>(db: Core<S>, t: Thread, body: seq<Stmt<S>>)
    ensures var (after, raised) := Begin(db, t, body);
            && after.open == db.open
            && (t in db.open ==> raised && after == db)
            && (t !in db.open ==>
                  && (raised <==> !Completes(body))
                  && after.committed == (if raised then db.committed else Fold(Writes(body), db.committed))
                  && after.begun == db.begun + [t])
  {
    if t !in db.open {
      OpenThreadIsIsolated(Core(db.committed, db.open + {t}, db.begun + [t]), t, body, db.committed);
    }
  }

  /** The guard is per thread: which other threads are open plays no part. */
  lemma OtherThreadsPlayNoPart<S>(db: Core<S>, others: set<Thread>, t: Thread, body: seq<Stmt<S>>)
    requires t in others <==> t in db.open
    ensures var (a, ra) := Begin(db, t, body);
            var (b, rb) := Begin(db.(open := others), t, body);
            ra == rb && b == a.(open := others)
  {
    AllOrNothing(db, t, body);
    AllOrNothing(db.(open := others), t, body);
  }

  /** Whatever the nested blocks of `a` and `b` hold, the two do the same. */
  lemma InnerBlocksNeverRun<S>(db: Core<S>, t: Thread, a: seq<Stmt<S>>, b: seq<Stmt<S>>)
    requires |a| == |b|
    requires forall i :: 0 <= i < |a| ==> a[i] == b[i] || (a[i].Nest? && b[i].Nest? && a[i].caught == b[i].caught)
    ensures Begin(db, t, a) == Begin(db, t, b)
  {
    AllOrNothing(db, t, a);
    AllOrNothing(db, t, b);
    SameWrites(a, b);
  }

  lemma {:induction false} SameWrites<S>(a: seq<Stmt<S>>, b: seq<Stmt<S>>)
    requires |a| == |b|
    requires forall i :: 0 <= i < |a| ==> a[i] == b[i] || (a[i].Nest? && b[i].Nest? && a[i].caught == b[i].caught)
    ensures Writes(a) == Writes(b) && (Completes(a) <==> Completes(b))
  {
    if a != [] {
      SameWrites(a[1..], b[1..]);
    }
  }
}
