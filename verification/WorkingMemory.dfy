/** memory_system/working_memory.py: the bounded per-subject memory of exchanges. */
module WorkingMemory {
  import opened Wrappers
  import opened Text

  datatype Exchange = Exchange(user: string, assistant: string)

  datatype Turn = UserTurn(content: string) | AssistantTurn(content: string)

  datatype Limits = Limits(maxExchanges: nat, maxCharacters: nat)

  datatype MemoryError = BlankArgument | CapacityExceeded

  type Memory = map<string, seq<Exchange>>

  function Size(x: Exchange): nat { |x.user| + |x.assistant| }

  function Total(xs: seq<Exchange>): nat {
    if xs == [] then 0 else Size(xs[0]) + Total(xs[1..])
  }

  predicate Fits(xs: seq<Exchange>, lim: Limits) {
    |xs| <= lim.maxExchanges && Total(xs) <= lim.maxCharacters
  }

  /** The promise: of everything accepted, the longest suffix within both limits. */
  ghost predicate IsLongestSuffix(r: seq<Exchange>, xs: seq<Exchange>, lim: Limits) {
    exists k :: 0 <= k <= |xs| && r == xs[k..] && Fits(r, lim) && forall j :: 0 <= j < k ==> !Fits(xs[j..], lim)
  }

  /** That suffix: drop the oldest exchange until the rest fits. */
  function Bounded(xs: seq<Exchange>, lim: Limits): (r: seq<Exchange>)
    ensures IsLongestSuffix(r, xs, lim)
  {
    if Fits(xs, lim) then
      assert xs == xs[0..];
      xs
    else
      var r := Bounded(xs[1..], lim);
      assert forall j :: 0 <= j < |xs| ==> xs[1..][j..] == xs[j + 1..];
      assert IsLongestSuffix(r, xs, lim) by {
        var k :| 0 <= k <= |xs| - 1 && r == xs[1..][k..] && Fits(r, lim) && forall j :: 0 <= j < k ==> !Fits(xs[1..][j..], lim);
        assert xs[1..][k..] == xs[k + 1..];
        forall j | 0 <= j < k + 1 ensures !Fits(xs[j..], lim) {
          if j > 0 {
            assert xs[j..] == xs[1..][j - 1..];
          } else {
            assert xs[0..] == xs;
          }
        }
      }
      r
  }

  lemma {:induction false} TotalConcat(a: seq<Exchange>, b: seq<Exchange>)
    ensures Total(a + b) == Total(a) + Total(b)
  {
    if a == [] {
      assert a + b == b;
    } else {
      assert (a + b)[1..] == a[1..] + b;
      TotalConcat(a[1..], b);
    }
  }

  lemma LongestSuffixUnique(r: seq<Exchange>, s: seq<Exchange>, xs: seq<Exchange>, lim: Limits)
    requires IsLongestSuffix(r, xs, lim) && IsLongestSuffix(s, xs, lim)
    ensures r == s
  {
  }

  /** Trimming what is already bounded gives what bounding the whole history gives. */
  lemma {:induction false} BoundedIncrementally(xs: seq<Exchange>, x: Exchange, lim: Limits)
    ensures Bounded(Bounded(xs, lim) + [x], lim) == Bounded(xs + [x], lim)
  {
    if !Fits(xs, lim) {
      assert (xs + [x])[1..] == xs[1..] + [x];
      TotalConcat(xs, [x]);
      BoundedIncrementally(xs[1..], x, lim);
    }
  }

  /** An exchange that fits on its own is in the memory after it was accepted, as the newest. */
  lemma {:induction false} NewestKept(xs: seq<Exchange>, x: Exchange, lim: Limits)
    requires lim.maxExchanges > 0 && Size(x) <= lim.maxCharacters
    ensures Bounded(xs + [x], lim) != [] && Bounded(xs + [x], lim)[|Bounded(xs + [x], lim)| - 1] == x
  {
    if xs == [] {
      assert xs + [x] == [x];
      assert Total([x]) == Size(x);
    } else if !Fits(xs + [x], lim) {
      assert (xs + [x])[1..] == xs[1..] + [x];
      NewestKept(xs[1..], x, lim);
    }
  }

  // ------------------------------------------------------------------- the store

  function MemoryOf(m: Memory, subject: string): seq<Exchange> {
    if subject in m then m[subject] else []
  }

  /** commit_exchange: what it leaves and what it raises. */
  function Commit(m: Memory, lim: Limits, subject: string, x: Exchange): (Memory, Result<(), MemoryError>) {
    if Blank(subject) || Blank(x.user) || Blank(x.assistant) then (m, Failure(BlankArgument))
    else if Size(x) > lim.maxCharacters then (m, Failure(CapacityExceeded))
    else (m[subject := Bounded(MemoryOf(m, subject) + [x], lim)], Success(()))
  }

  function Turns(xs: seq<Exchange>): (r: seq<Turn>)
    ensures |r| == 2 * |xs|
    ensures forall i :: 0 <= i < |xs| ==> r[2 * i] == UserTurn(xs[i].user) && r[2 * i + 1] == AssistantTurn(xs[i].assistant)
  {
    if xs == [] then []
    else
      var n := |xs| - 1;
      Turns(xs[..n]) + [UserTurn(xs[n].user), AssistantTurn(xs[n].assistant)]
  }

  /** commit_exchange's checks, in their order; nothing is stored when one fails. */
  lemma CommitIff(m: Memory, lim: Limits, subject: string, x: Exchange)
    ensures var (after, r) := Commit(m, lim, subject, x);
            && (r == Failure(BlankArgument) <==> Blank(subject) || Blank(x.user) || Blank(x.assistant))
            && (r == Failure(CapacityExceeded) <==>
                  !Blank(subject) && !Blank(x.user) && !Blank(x.assistant) && |x.user| + |x.assistant| > lim.maxCharacters)
            && (r.Failure? ==> after == m)
            && (r.Success? ==> forall s: string :: s != subject ==> MemoryOf(after, s) == MemoryOf(m, s))
  {
  }

  // -------------------------------------------------------- what a reader gets

  /** The characters of the turns a reader gets. */
  function Characters(turns: seq<Turn>): nat {
    if turns == [] then 0 else Characters(turns[..|turns| - 1]) + |turns[|turns| - 1].content|
  }

  /** Two turns to an exchange, and at most so many characters in all. */
  predicate Readable(turns: seq<Turn>, lim: Limits) {
    |turns| <= 2 * lim.maxExchanges && Characters(turns) <= lim.maxCharacters
  }

  lemma {:induction false} TotalIsRead(xs: seq<Exchange>)
    ensures Characters(Turns(xs)) == Total(xs)
  {
    if xs != [] {
      var n := |xs| - 1;
      TotalIsRead(xs[..n]);
      TotalConcat(xs[..n], [xs[n]]);
      assert xs == xs[..n] + [xs[n]];
      assert Total([xs[n]]) == Size(xs[n]) by {
        assert [xs[n]][1..] == [];
      }
      CharactersAppend(Turns(xs[..n]), UserTurn(xs[n].user), AssistantTurn(xs[n].assistant));
    }
  }

  lemma CharactersAppend(before: seq<Turn>, u: Turn, a: Turn)
    ensures Characters(before + [u, a]) == Characters(before) + |u.content| + |a.content|
  {
    assert (before + [u, a])[..|before| + 1] == before + [u] && (before + [u])[..|before|] == before;
  }

  lemma FitsIsReadable(xs: seq<Exchange>, lim: Limits)
    ensures Fits(xs, lim) <==> Readable(Turns(xs), lim)
  {
    TotalIsRead(xs);
  }

  class InMemoryWorkingMemory {
    const limits: Limits
    var exchanges: Memory

    /** ValueError unless both limits are positive. */
    constructor (limits: Limits)
      requires limits.maxExchanges > 0 && limits.maxCharacters > 0
      ensures this.limits == limits && exchanges == map[]
    {
      this.limits := limits;
      exchanges := map[];
    }

    method Read(subject: string) returns (r: Result<seq<Turn>, MemoryError>)
      ensures r == if Blank(subject) then Failure(BlankArgument) else Success(Turns(MemoryOf(exchanges, subject)))
    {
      if Blank(subject) {
        return Failure(BlankArgument);
      }
      var pairs := if subject in exchanges then exchanges[subject] else [];
      var turns: seq<Turn> := [];
      for i := 0 to |pairs|
        invariant turns == Turns(pairs[..i])
      {
        assert pairs[..i + 1][..i] == pairs[..i];
        turns := turns + [UserTurn(pairs[i].user), AssistantTurn(pairs[i].assistant)];
      }
      assert pairs[..|pairs|] == pairs;
      return Success(turns);
    }

    method CommitExchange(subject: string, user: string, assistant: string) returns (r: Result<(), MemoryError>)
      modifies this
      ensures (exchanges, r) == Commit(old(exchanges), limits, subject, Exchange(user, assistant))
    {
      if Blank(subject) || Blank(user) || Blank(assistant) {
        return Failure(BlankArgument);
      }
      if |user| + |assistant| > limits.maxCharacters {
        return Failure(CapacityExceeded);
      }
      var existing := if subject in exchanges then exchanges[subject] else [];
      var kept := Trim(existing + [Exchange(user, assistant)]);
      exchanges := exchanges[subject := kept];
      return Success(());
    }

    /** Oldest first: by count, then by characters. */
    method Trim(pairs: seq<Exchange>) returns (kept: seq<Exchange>)
      ensures kept == Bounded(pairs, limits)
    {
      kept := pairs;
      while |kept| > limits.maxExchanges
        invariant Bounded(kept, limits) == Bounded(pairs, limits)
        decreases |kept|
      {
        kept := kept[1..];
      }
      while kept != [] && Total(kept) > limits.maxCharacters
        invariant |kept| <= limits.maxExchanges
        invariant Bounded(kept, limits) == Bounded(pairs, limits)
        decreases |kept|
      {
        kept := kept[1..];
      }
    }
  }

  // ---------------------------------------------------------- runs of commits

  datatype Call = Call(subject: string, exchange: Exchange)

  function AfterCommits(m: Memory, lim: Limits, calls: seq<Call>): Memory
    decreases |calls|
  {
    if calls == [] then m
    else
      var last := calls[|calls| - 1];
      Commit(AfterCommits(m, lim, calls[..|calls| - 1]), lim, last.subject, last.exchange).0
  }

  predicate Acceptable(c: Call, lim: Limits) {
    !Blank(c.subject) && !Blank(c.exchange.user) && !Blank(c.exchange.assistant) && Size(c.exchange) <= lim.maxCharacters
  }

  /** The exchanges of `subject` that were not rejected, oldest first. */
  function Accepted(calls: seq<Call>, lim: Limits, subject: string): seq<Exchange>
    decreases |calls|
  {
    if calls == [] then []
    else
      var last, before := calls[|calls| - 1], Accepted(calls[..|calls| - 1], lim, subject);
      if last.subject == subject && Acceptable(last, lim) then before + [last.exchange] else before
  }

  /** The memory of a subject whose accepted exchanges are `accepted`. */
  ghost predicate Remembers(m: seq<Exchange>, accepted: seq<Exchange>, lim: Limits) {
    && m == Bounded(accepted, lim)
    && (accepted != [] ==> m != [] && m[|m| - 1] == accepted[|accepted| - 1])
  }

  lemma AcceptedRemembered(m: seq<Exchange>, accepted: seq<Exchange>, lim: Limits, x: Exchange)
    requires lim.maxExchanges > 0 && Size(x) <= lim.maxCharacters && Remembers(m, accepted, lim)
    ensures Remembers(Bounded(m + [x], lim), accepted + [x], lim)
  {
    BoundedIncrementally(accepted, x, lim);
    NewestKept(accepted, x, lim);
  }

  /**
   * After any commits, for every subject, the memory is the longest suffix of that
   * subject's accepted exchanges within both limits, ending with the newest one.
   */
  lemma {:induction false} MemoryIsLongestSuffix(lim: Limits, calls: seq<Call>, subject: string)
    requires lim.maxExchanges > 0
    ensures Remembers(MemoryOf(AfterCommits(map[], lim, calls), subject), Accepted(calls, lim, subject), lim)
    ensures IsLongestSuffix(MemoryOf(AfterCommits(map[], lim, calls), subject), Accepted(calls, lim, subject), lim)
    decreases |calls|
  {
    if calls == [] {
      assert Fits([], lim);
    } else {
      hide Remembers;
      hide Commit;
      hide Acceptable;
      var last, before := calls[|calls| - 1], calls[..|calls| - 1];
      var m := AfterCommits(map[], lim, before);
      MemoryIsLongestSuffix(lim, before, subject);
      CommitStep(m, lim, last, subject);
      if last.subject == subject && Acceptable(last, lim) {
        AcceptableFits(last, lim);
        AcceptedRemembered(MemoryOf(m, subject), Accepted(before, lim, subject), lim, last.exchange);
      }
      assert Remembers(MemoryOf(AfterCommits(map[], lim, calls), subject), Accepted(calls, lim, subject), lim);
      RememberedSuffix(MemoryOf(AfterCommits(map[], lim, calls), subject), Accepted(calls, lim, subject), lim);
    }
  }

  /** Of the turns of everything accepted, the most from the end that a reader may get. */
  ghost predicate LongestReadable(read: seq<Turn>, accepted: seq<Exchange>, lim: Limits) {
    && Readable(read, lim)
    && exists k :: 0 <= k <= |accepted| && read == Turns(accepted[k..])
         && forall j :: 0 <= j < k ==> !Readable(Turns(accepted[j..]), lim)
  }

  lemma SuffixIsReadable(kept: seq<Exchange>, accepted: seq<Exchange>, lim: Limits)
    requires IsLongestSuffix(kept, accepted, lim)
    ensures LongestReadable(Turns(kept), accepted, lim)
  {
    var k :| 0 <= k <= |accepted| && kept == accepted[k..] && Fits(kept, lim) && forall j :: 0 <= j < k ==> !Fits(accepted[j..], lim);
    FitsIsReadable(kept, lim);
    hide Turns;
    hide Readable;
    hide Fits;
    forall j | 0 <= j < k ensures !Readable(Turns(accepted[j..]), lim) {
      FitsIsReadable(accepted[j..], lim);
    }
  }

  /**
   * What a reader of a subject gets after any commits: the turns of the latest accepted
   * exchanges, as many as keep within the number of turns and of characters.
   */
  lemma ReadIsLongestSuffix(lim: Limits, calls: seq<Call>, subject: string)
    requires lim.maxExchanges > 0
    ensures LongestReadable(Turns(MemoryOf(AfterCommits(map[], lim, calls), subject)), Accepted(calls, lim, subject), lim)
  {
    MemoryIsLongestSuffix(lim, calls, subject);
    SuffixIsReadable(MemoryOf(AfterCommits(map[], lim, calls), subject), Accepted(calls, lim, subject), lim);
    hide *;
  }

  lemma RememberedSuffix(m: seq<Exchange>, accepted: seq<Exchange>, lim: Limits)
    requires Remembers(m, accepted, lim)
    ensures IsLongestSuffix(m, accepted, lim)
  {
  }

  lemma AcceptableFits(c: Call, lim: Limits)
    requires Acceptable(c, lim)
    ensures Size(c.exchange) <= lim.maxCharacters
  {
  }

  /** A commit appends to its own subject's memory and trims, or changes nothing. */
  lemma CommitStep(m: Memory, lim: Limits, c: Call, subject: string)
    ensures MemoryOf(Commit(m, lim, c.subject, c.exchange).0, subject)
         == if c.subject == subject && Acceptable(c, lim) then Bounded(MemoryOf(m, subject) + [c.exchange], lim)
            else MemoryOf(m, subject)
    ensures Commit(m, lim, c.subject, c.exchange).1.Success? <==> Acceptable(c, lim)
    ensures !Acceptable(c, lim) ==> Commit(m, lim, c.subject, c.exchange).0 == m
  {
  }
}
