/**
 * conversation_engine/engine.py: one conversational turn inside the subject's
 * queue, reading and writing the working memory; and all turns of all subjects
 * interleaved. Context assembly, the model and the validator are arbitrary.
 */
module Conversation {
  import opened Wrappers
  import opened Text
  import Q = SubjectQueue
  import WM = WorkingMemory

  type History = seq<WM.Exchange>

  // ------------------------------------------------- the body of one turn, alone

  datatype Context = Assembled | MissingRequired | Raises

  /** Everything outside this module that decides how a turn goes. */
  datatype Surroundings = Surroundings(
    readFails: bool, context: Context, generated: Option<string>, otherwiseValid: bool, commitCrashes: bool)

  datatype Response = Answer(text: string) | MissingContextFallback | GenerationFallback | Raised

  predicate Valid(env: Surroundings, user: string, text: string) {
    env.otherwiseValid && !Blank(text) && !Blank(user)
  }

  /** What the caller gets and the exchange offered to the memory, if any. */
  function Outcome(env: Surroundings, user: string): (Response, Option<WM.Exchange>) {
    match env.context
    case Raises => (Raised, None)
    case MissingRequired => (MissingContextFallback, None)
    case Assembled =>
      match env.generated
      case None => (GenerationFallback, None)
      case Some(text) =>
        if Valid(env, user, text) then (Answer(text), Some(WM.Exchange(user, text))) else (GenerationFallback, None)
  }

  /** A text the model gave in an assembled context that passes the validator, for a message that does. */
  predicate GoodText(env: Surroundings, user: string) {
    && env.context.Assembled? && env.generated.Some? && env.otherwiseValid
    && !Blank(env.generated.value) && !Blank(user)
  }

  /** Exactly which turns answer, and what each of the others gives back; only an answer is offered to the memory. */
  lemma AnsweredIff(env: Surroundings, user: string)
    ensures var (response, offered) := Outcome(env, user);
            && (response.Answer? <==> GoodText(env, user))
            && (response.Raised? <==> env.context.Raises?)
            && (response.MissingContextFallback? <==> env.context.MissingRequired?)
            && (response.GenerationFallback? <==> env.context.Assembled? && !GoodText(env, user))
            && (if response.Answer?
                then response.text == env.generated.value && offered == Some(WM.Exchange(user, env.generated.value))
                else offered.None?)
  {
  }

  class ConversationEngine {
    const memory: WM.InMemoryWorkingMemory

    constructor (memory: WM.InMemoryWorkingMemory)
      ensures this.memory == memory
    {
      this.memory := memory;
    }

    /** The `with self._queue.turn(...)` block; the subject was checked by the queue. */
    method GenerateResponse(subject: string, user: string, env: Surroundings)
      returns (response: Response, history: seq<WM.Turn>)
      requires !Blank(subject)
      modifies memory
      ensures history == if env.readFails then [] else WM.Turns(WM.MemoryOf(old(memory.exchanges), subject))
      ensures response == Outcome(env, user).0
      ensures var offered := Outcome(env, user).1;
              memory.exchanges == if offered.None? || env.commitCrashes then old(memory.exchanges)
                                  else WM.Commit(old(memory.exchanges), memory.limits, subject, offered.value).0
    {
      history := ReadWorkingMemory(subject, env);
      match env.context {
        case Raises => return Raised, history;
        case MissingRequired => return MissingContextFallback, history;
        case Assembled =>
      }
      if env.generated.None? {
        return GenerationFallback, history;
      }
      var text := env.generated.value;
      if !Valid(env, user, text) {
        return GenerationFallback, history;
      }
      if !env.commitCrashes {
        var _ := memory.CommitExchange(subject, user, text); // a capacity error is logged and dropped
      }
      response := Answer(text);
    }

    method ReadWorkingMemory(subject: string, env: Surroundings) returns (history: seq<WM.Turn>)
      requires !Blank(subject)
      ensures history == if env.readFails then [] else WM.Turns(WM.MemoryOf(memory.exchanges, subject))
    {
      if env.readFails {
        return [];
      }
      var r := memory.Read(subject);
      return if r.Success? then r.value else [];
    }
  }

  // -------------------------------------------------------- all turns interleaved

  /** How far a turn has come; `readOk` is false after the degraded read. */
  datatype Stage =
    | Queued
    | Begun
    | HaveRead(history: History, readOk: bool)
    | Ended(history: History, readOk: bool, kept: Option<WM.Exchange>)

  datatype Turn = Turn(user: string, stage: Stage)

  datatype State = State(queue: Q.Queue, memory: WM.Memory, turns: seq<Turn>)

  const INITIAL: State := State(Q.EMPTY, map[], [])

  datatype Step =
    | Arrive(subject: string, user: string)
    | Begin(t: nat)
    | Read(t: nat, fails: bool)
    | Finish(t: nat, env: Surroundings)
    | Release(t: nat)

  predicate AtStage(c: State, t: nat) {
    t < |c.turns| && t < |c.queue.calls| && c.queue.calls[t].phase == Q.Running
  }

  predicate Enabled(c: State, s: Step) {
    match s
    case Arrive(subject, _) => !Blank(subject) && Q.CanEnter(c.queue, subject)
    case Begin(t) => t < |c.turns| && Q.CanStart(c.queue, t)
    case Read(t, _) => AtStage(c, t) && c.turns[t].stage.Begun?
    case Finish(t, _) => AtStage(c, t) && c.turns[t].stage.HaveRead?
    case Release(t) => AtStage(c, t) && c.turns[t].stage.Ended? && Q.CanLeave(c.queue, t)
  }

  /** The exchange a finishing turn leaves in the memory. */
  function Kept(lim: WM.Limits, subject: string, user: string, env: Surroundings): Option<WM.Exchange> {
    var offered := Outcome(env, user).1;
    if offered.Some? && !env.commitCrashes && WM.Acceptable(WM.Call(subject, offered.value), lim) then offered else None
  }

  function SetStage(c: State, t: nat, stage: Stage): seq<Turn>
    requires t < |c.turns|
  {
    c.turns[t := c.turns[t].(stage := stage)]
  }

  function Apply(c: State, lim: WM.Limits, s: Step): State
    requires Enabled(c, s)
  {
    match s
    case Arrive(subject, user) =>
      c.(queue := Q.Enter(c.queue, subject), turns := c.turns + [Turn(user, Queued)])
    case Begin(t) => c.(queue := Q.Start(c.queue, t), turns := SetStage(c, t, Begun))
    case Read(t, fails) =>
      var history := if fails then [] else WM.MemoryOf(c.memory, c.queue.calls[t].subject);
      c.(turns := SetStage(c, t, HaveRead(history, !fails)))
    case Finish(t, env) =>
      var subject, user, stage := c.queue.calls[t].subject, c.turns[t].user, c.turns[t].stage;
      var offered := Outcome(env, user).1;
      State(c.queue,
            if offered.None? || env.commitCrashes then c.memory
            else WM.Commit(c.memory, lim, subject, offered.value).0,
            SetStage(c, t, Ended(stage.history, stage.readOk, Kept(lim, subject, user, env))))
    case Release(t) => c.(queue := Q.Leave(c.queue, t))
  }

  predicate Runs(c: State, lim: WM.Limits, steps: seq<Step>, last: State)
    decreases |steps|
  {
    if steps == [] then c == last
    else Enabled(c, steps[0]) && Runs(Apply(c, lim, steps[0]), lim, steps[1..], last)
  }

  /** The exchange turn `t` left in its subject's memory. */
  function KeptBy(c: State, s: string, t: nat): Option<WM.Exchange>
    requires t < |c.turns| && |c.turns| == |c.queue.calls|
  {
    if c.queue.calls[t].subject == s && c.turns[t].stage.Ended? then c.turns[t].stage.kept else None
  }

  /** What the successful turns of `s` among the first `n` arrivals contributed, in queue order. */
  function Accepted(c: State, s: string, n: nat): History
    requires n <= |c.turns| == |c.queue.calls|
  {
    if n == 0 then []
    else
      var before := Accepted(c, s, n - 1);
      match KeptBy(c, s, n - 1)
      case Some(x) => before + [x]
      case None => before
  }

  predicate StageMatches(c: State, t: nat)
    requires t < |c.turns| == |c.queue.calls|
  {
    match c.queue.calls[t].phase
    case Waiting => c.turns[t].stage.Queued?
    case Running => !c.turns[t].stage.Queued?
    case Done => c.turns[t].stage.Ended?
  }

  ghost predicate HistoryMatches(c: State, lim: WM.Limits, t: nat)
    requires t < |c.turns| == |c.queue.calls|
  {
    var st := c.turns[t].stage;
    (st.HaveRead? || st.Ended?) ==>
      st.history == if st.readOk then WM.Bounded(Accepted(c, c.queue.calls[t].subject, t), lim) else []
  }

  ghost predicate MemoryMatches(c: State, lim: WM.Limits, s: string)
    requires |c.turns| == |c.queue.calls|
  {
    WM.MemoryOf(c.memory, s) == WM.Bounded(Accepted(c, s, |c.turns|), lim)
  }

  predicate StagesMatch(c: State) {
    |c.turns| == |c.queue.calls| && forall t :: 0 <= t < |c.turns| ==> StageMatches(c, t)
  }

  ghost predicate MemoriesMatch(c: State, lim: WM.Limits)
    requires |c.turns| == |c.queue.calls|
  {
    forall s :: MemoryMatches(c, lim, s)
  }

  ghost predicate HistoriesMatch(c: State, lim: WM.Limits)
    requires |c.turns| == |c.queue.calls|
  {
    forall t :: 0 <= t < |c.turns| ==> HistoryMatches(c, lim, t)
  }

  ghost predicate Inv(c: State, lim: WM.Limits) {
    Q.Inv(c.queue) && StagesMatch(c) && MemoriesMatch(c, lim) && HistoriesMatch(c, lim)
  }

  // ---------------------------------------------------------------- preservation

  lemma {:induction false} AcceptedSame(c: State, d: State, s: string, n: nat)
    requires n <= |c.turns| == |c.queue.calls| && n <= |d.turns| == |d.queue.calls|
    requires forall t :: 0 <= t < n ==> KeptBy(c, s, t) == KeptBy(d, s, t)
    ensures Accepted(c, s, n) == Accepted(d, s, n)
  {
    if n > 0 {
      AcceptedSame(c, d, s, n - 1);
    }
  }

  /** Turns that left nothing do not show. */
  lemma {:induction false} AcceptedQuiet(c: State, s: string, m: nat, n: nat)
    requires m <= n <= |c.turns| == |c.queue.calls|
    requires forall t :: m <= t < n ==> KeptBy(c, s, t).None?
    ensures Accepted(c, s, n) == Accepted(c, s, m)
  {
    if m < n {
      AcceptedQuiet(c, s, m, n - 1);
    }
  }

  /** A later turn of the subject of a running one has not begun, so it left nothing. */
  lemma LaterTurnsQuiet(c: State, lim: WM.Limits, t: nat)
    requires Inv(c, lim) && AtStage(c, t)
    ensures forall u :: t < u < |c.turns| && c.queue.calls[u].subject == c.queue.calls[t].subject ==>
              c.queue.calls[u].phase == Q.Waiting && KeptBy(c, c.queue.calls[t].subject, u).None?
  {
    forall u | t < u < |c.turns| && c.queue.calls[u].subject == c.queue.calls[t].subject
      ensures c.queue.calls[u].phase == Q.Waiting && KeptBy(c, c.queue.calls[t].subject, u).None?
    {
      assert StageMatches(c, u);
      assert Q.StartedInOrder(c.queue);
    }
  }

  ghost predicate SameKept(c: State, d: State, s: string, n: nat)
    requires n <= |c.turns| == |c.queue.calls| && n <= |d.turns| == |d.queue.calls|
  {
    forall t :: 0 <= t < n ==> KeptBy(c, s, t) == KeptBy(d, s, t)
  }

  ghost predicate NothingKept(c: State, s: string, m: nat)
    requires |c.turns| == |c.queue.calls|
  {
    forall t :: m <= t < |c.turns| ==> KeptBy(c, s, t).None?
  }

  /** A step that changes neither memory nor any kept exchange keeps the memories ... */
  lemma UnchangedMemories(c: State, d: State, lim: WM.Limits)
    requires |c.turns| == |c.queue.calls| && |d.turns| == |d.queue.calls| && |c.turns| <= |d.turns|
    requires MemoriesMatch(c, lim) && d.memory == c.memory
    requires forall s :: SameKept(c, d, s, |c.turns|) && NothingKept(d, s, |c.turns|)
    ensures MemoriesMatch(d, lim)
  {
    forall s ensures MemoryMatches(d, lim, s) {
      assert MemoryMatches(c, lim, s) && SameKept(c, d, s, |c.turns|) && NothingKept(d, s, |c.turns|);
      AcceptedSame(c, d, s, |c.turns|);
      AcceptedQuiet(d, s, |c.turns|, |d.turns|);
    }
  }

  /** ... and the histories of the turns whose stage stays. */
  lemma UnchangedHistory(c: State, d: State, lim: WM.Limits, t: nat)
    requires |c.turns| == |c.queue.calls| && |d.turns| == |d.queue.calls| && t < |c.turns| <= |d.turns|
    requires HistoriesMatch(c, lim) && d.turns[t].stage == c.turns[t].stage
    requires d.queue.calls[t].subject == c.queue.calls[t].subject && SameKept(c, d, c.queue.calls[t].subject, t)
    ensures HistoryMatches(d, lim, t)
  {
    assert HistoryMatches(c, lim, t);
    AcceptedSame(c, d, c.queue.calls[t].subject, t);
  }

  /** No turn of a step other than a finishing one changes what is kept. */
  lemma NothingNewKept(c: State, lim: WM.Limits, st: Step)
    requires StagesMatch(c) && Enabled(c, st) && !st.Finish?
    ensures var d := Apply(c, lim, st);
            && |c.turns| <= |d.turns| == |d.queue.calls|
            && forall s :: SameKept(c, d, s, |c.turns|) && NothingKept(d, s, |c.turns|)
  {
    var d := Apply(c, lim, st);
    assert |d.turns| == |d.queue.calls|;
    forall s ensures SameKept(c, d, s, |c.turns|) && NothingKept(d, s, |c.turns|) {
      forall t | 0 <= t < |c.turns| ensures KeptBy(c, s, t) == KeptBy(d, s, t) {
        assert StageMatches(c, t);
      }
    }
  }

  lemma StagesKept(c: State, lim: WM.Limits, st: Step)
    requires StagesMatch(c) && Enabled(c, st)
    ensures StagesMatch(Apply(c, lim, st))
  {
    hide WM.Commit;
    hide Kept;
    hide Outcome;
    var d := Apply(c, lim, st);
    forall t | 0 <= t < |d.turns| ensures StageMatches(d, t) {
      if t < |c.turns| {
        assert StageMatches(c, t);
      }
    }
  }

  lemma HistoriesKept(c: State, lim: WM.Limits, st: Step)
    requires StagesMatch(c) && HistoriesMatch(c, lim) && Enabled(c, st) && !st.Finish? && !st.Read?
    ensures StagesMatch(Apply(c, lim, st)) && HistoriesMatch(Apply(c, lim, st), lim)
  {
    StagesKept(c, lim, st);
    NothingNewKept(c, lim, st);
    var d := Apply(c, lim, st);
    forall t | 0 <= t < |d.turns| ensures HistoryMatches(d, lim, t) {
      if t < |c.turns| && d.turns[t].stage == c.turns[t].stage {
        assert SameKept(c, d, c.queue.calls[t].subject, |c.turns|);
        UnchangedHistory(c, d, lim, t);
      }
    }
  }

  lemma QueueStepKeepsInv(c: State, lim: WM.Limits, st: Step)
    requires Inv(c, lim) && Enabled(c, st) && !st.Finish? && !st.Read?
    ensures Inv(Apply(c, lim, st), lim)
  {
    hide Q.Inv;
    match st {
      case Arrive(subject, _) => Q.EnterKeepsInv(c.queue, subject);
      case Begin(t) => Q.StartKeepsInv(c.queue, t);
      case Release(t) => Q.LeaveKeepsInv(c.queue, t);
    }
    NothingNewKept(c, lim, st);
    StagesKept(c, lim, st);
    HistoriesKept(c, lim, st);
    hide StagesMatch;
    hide HistoriesMatch;
    hide Q.Enter;
    hide Q.Start;
    hide Q.Leave;
    UnchangedMemories(c, Apply(c, lim, st), lim);
  }

  /** What a turn reads is what the turns before it left: the later ones left nothing. */
  lemma ReadSeesEarlier(c: State, lim: WM.Limits, t: nat)
    requires Inv(c, lim) && AtStage(c, t) && c.turns[t].stage.Begun?
    ensures WM.MemoryOf(c.memory, c.queue.calls[t].subject)
         == WM.Bounded(Accepted(c, c.queue.calls[t].subject, t), lim)
  {
    LaterTurnsQuiet(c, lim, t);
    assert MemoryMatches(c, lim, c.queue.calls[t].subject);
    AcceptedQuiet(c, c.queue.calls[t].subject, t, |c.turns|);
  }

  lemma ReadKeepsInv(c: State, lim: WM.Limits, st: Step)
    requires Inv(c, lim) && st.Read? && Enabled(c, st)
    ensures Inv(Apply(c, lim, st), lim)
  {
    ReadSeesEarlier(c, lim, st.t);
    hide Q.Inv;
    NothingNewKept(c, lim, st);
    StagesKept(c, lim, st);
    var d := Apply(c, lim, st);
    UnchangedMemories(c, d, lim);
    forall t | 0 <= t < |d.turns| ensures HistoryMatches(d, lim, t) {
      assert SameKept(c, d, c.queue.calls[t].subject, |c.turns|);
      if t == st.t {
        AcceptedSame(c, d, c.queue.calls[t].subject, t);
      } else {
        UnchangedHistory(c, d, lim, t);
      }
    }
  }

  lemma FinishKeepsInv(c: State, lim: WM.Limits, st: Step)
    requires Inv(c, lim) && st.Finish? && Enabled(c, st)
    ensures Inv(Apply(c, lim, st), lim)
  {
    LaterTurnsQuiet(c, lim, st.t);
    StagesKept(c, lim, st);
    hide Q.Inv;
    var d, subject := Apply(c, lim, st), c.queue.calls[st.t].subject;
    forall r ensures MemoryMatches(d, lim, r) {
      assert MemoryMatches(c, lim, r);
      if r == subject {
        assert NothingKept(c, subject, st.t);
        FinishMemory(c, lim, st);
      } else {
        MemoryElsewhere(c, lim, st, r);
      }
    }
    FinishHistories(c, lim, st);
  }

  lemma FinishHistories(c: State, lim: WM.Limits, st: Step)
    requires StagesMatch(c) && HistoriesMatch(c, lim) && st.Finish? && Enabled(c, st)
    requires forall u :: st.t < u < |c.turns| && c.queue.calls[u].subject == c.queue.calls[st.t].subject ==>
               c.queue.calls[u].phase == Q.Waiting
    ensures HistoriesMatch(Apply(c, lim, st), lim)
  {
    hide WM.Commit;
    hide Kept;
    hide Outcome;
    var d, subject := Apply(c, lim, st), c.queue.calls[st.t].subject;
    forall t | 0 <= t < |d.turns| ensures HistoryMatches(d, lim, t) {
      assert HistoryMatches(c, lim, t) && StageMatches(c, t);
      if c.queue.calls[t].subject != subject || t <= st.t {
        AcceptedSame(c, d, c.queue.calls[t].subject, t);
      }
    }
  }

  lemma MemoryElsewhere(c: State, lim: WM.Limits, st: Step, r: string)
    requires st.Finish? && Enabled(c, st) && r != c.queue.calls[st.t].subject
    requires |c.turns| == |c.queue.calls| && MemoryMatches(c, lim, r)
    ensures MemoryMatches(Apply(c, lim, st), lim, r)
  {
    AcceptedSame(c, Apply(c, lim, st), r, |c.turns|);
  }

  /** The exchange a finishing step leaves, as a list of at most one. */
  function KeptOn(c: State, lim: WM.Limits, st: Step): History
    requires st.Finish? && Enabled(c, st)
  {
    match Kept(lim, c.queue.calls[st.t].subject, c.turns[st.t].user, st.env)
    case Some(x) => [x]
    case None => []
  }

  function BoundedWith(m: History, added: History, lim: WM.Limits): History {
    if added == [] then m else WM.Bounded(m + added, lim)
  }

  /** The finishing turn adds its exchange at the end of its subject's accepted ones, or nothing. */
  lemma FinishAccepted(c: State, lim: WM.Limits, st: Step)
    requires |c.turns| == |c.queue.calls| && st.Finish? && Enabled(c, st)
    requires NothingKept(c, c.queue.calls[st.t].subject, st.t)
    ensures Accepted(Apply(c, lim, st), c.queue.calls[st.t].subject, |c.turns|)
         == Accepted(c, c.queue.calls[st.t].subject, |c.turns|) + KeptOn(c, lim, st)
    ensures |Apply(c, lim, st).turns| == |c.turns| && |KeptOn(c, lim, st)| <= 1
    ensures |Apply(c, lim, st).turns| == |Apply(c, lim, st).queue.calls|
  {
    hide WM.Commit;
    hide Kept;
    hide Outcome;
    var d, s, n := Apply(c, lim, st), c.queue.calls[st.t].subject, |c.turns|;
    AcceptedQuiet(c, s, st.t, n);
    forall u | st.t < u < n ensures KeptBy(d, s, u).None? {
      assert KeptBy(c, s, u).None?;
    }
    AcceptedQuiet(d, s, st.t + 1, n);
    AcceptedSame(c, d, s, st.t);
  }

  lemma FinishCommits(c: State, lim: WM.Limits, st: Step)
    requires st.Finish? && Enabled(c, st)
    ensures WM.MemoryOf(Apply(c, lim, st).memory, c.queue.calls[st.t].subject)
         == BoundedWith(WM.MemoryOf(c.memory, c.queue.calls[st.t].subject), KeptOn(c, lim, st), lim)
  {
  }

  lemma FinishMemory(c: State, lim: WM.Limits, st: Step)
    requires |c.turns| == |c.queue.calls| && st.Finish? && Enabled(c, st)
    requires NothingKept(c, c.queue.calls[st.t].subject, st.t)
    requires MemoryMatches(c, lim, c.queue.calls[st.t].subject)
    ensures MemoryMatches(Apply(c, lim, st), lim, c.queue.calls[st.t].subject)
  {
    FinishAccepted(c, lim, st);
    FinishCommits(c, lim, st);
    hide KeptOn;
    hide Apply;
    hide Accepted;
    hide BoundedWith;
    hide NothingKept;
    hide WM.Bounded;
    hide WM.MemoryOf;
    var s := c.queue.calls[st.t].subject;
    BoundedAfter(Accepted(c, s, |c.turns|), KeptOn(c, lim, st), lim);
  }

  /** Bounding again with at most one exchange more. */
  lemma BoundedAfter(accepted: History, added: History, lim: WM.Limits)
    requires |added| <= 1
    ensures BoundedWith(WM.Bounded(accepted, lim), added, lim) == WM.Bounded(accepted + added, lim)
  {
    if added == [] {
      assert accepted + added == accepted;
    } else {
      assert added == [added[0]];
      WM.BoundedIncrementally(accepted, added[0], lim);
    }
    hide WM.Bounded;
  }

  lemma StepKeepsInv(c: State, lim: WM.Limits, s: Step)
    requires Inv(c, lim) && Enabled(c, s)
    ensures Inv(Apply(c, lim, s), lim)
  {
    hide *;
    match s
    case Read(_, _) => ReadKeepsInv(c, lim, s);
    case Finish(_, _) => FinishKeepsInv(c, lim, s);
    case _ => QueueStepKeepsInv(c, lim, s);
  }

  lemma {:induction false} RunKeepsInv(c: State, lim: WM.Limits, steps: seq<Step>, last: State)
    requires Inv(c, lim) && Runs(c, lim, steps, last)
    ensures Inv(last, lim)
    decreases |steps|
  {
    hide Inv;
    hide Apply;
    hide Enabled;
    if steps != [] {
      StepKeepsInv(c, lim, steps[0]);
      RunKeepsInv(Apply(c, lim, steps[0]), lim, steps[1..], last);
    }
  }

  /** What a step does to the queue, as a step of the queue on its own. */
  function QueueSteps(steps: seq<Step>): seq<Q.Step>
    decreases |steps|
  {
    if steps == [] then []
    else
      match steps[0]
      case Arrive(subject, _) => [Q.TakeTicketStep(subject)] + QueueSteps(steps[1..])
      case Begin(t) => [Q.StartStep(t)] + QueueSteps(steps[1..])
      case Release(t) => [Q.LeaveStep(t)] + QueueSteps(steps[1..])
      case _ => QueueSteps(steps[1..])
  }

  /** The queue of any run of turns goes through a run of the queue, so what holds of those holds here. */
  lemma {:induction false} TurnsRunTheQueue(c: State, lim: WM.Limits, steps: seq<Step>, last: State)
    requires Runs(c, lim, steps, last)
    ensures Q.Runs(c.queue, QueueSteps(steps), last.queue)
    decreases |steps|
  {
    hide WM.Commit;
    hide Kept;
    hide Outcome;
    hide Q.Enter;
    hide Q.Start;
    hide Q.Leave;
    if steps != [] {
      TurnsRunTheQueue(Apply(c, lim, steps[0]), lim, steps[1..], last);
      var own, rest := QueueSteps(steps), QueueSteps(steps[1..]);
      assert own != rest ==> own[1..] == rest;
    }
  }

  /**
   * Turns linearise per subject, under every interleaving: the history a turn read
   * is the bounded memory of exactly the exchanges kept by the earlier turns of its
   * subject, in queue order (or empty after a failed read); and each subject's
   * memory is that of all its kept exchanges. Nothing of another subject appears.
   */
  lemma TurnsLinearise(lim: WM.Limits, steps: seq<Step>, c: State)
    requires Runs(INITIAL, lim, steps, c)
    ensures |c.turns| == |c.queue.calls|
    ensures forall t :: 0 <= t < |c.turns| ==> HistoryMatches(c, lim, t)
    ensures forall s :: MemoryMatches(c, lim, s)
  {
    Q.InvInit();
    assert WM.Fits([], lim);
    assert Inv(INITIAL, lim);
    RunKeepsInv(INITIAL, lim, steps, c);
  }

  lemma {:induction false} SubjectsNotBlank(lim: WM.Limits, c: State, steps: seq<Step>, last: State)
    requires Runs(c, lim, steps, last)
    requires forall t :: 0 <= t < |c.queue.calls| ==> !Blank(c.queue.calls[t].subject)
    ensures forall t :: 0 <= t < |last.queue.calls| ==> !Blank(last.queue.calls[t].subject)
    decreases |steps|
  {
    hide Blank;
    hide WM.Commit;
    hide Kept;
    hide Outcome;
    if steps != [] {
      SubjectsNotBlank(lim, Apply(c, lim, steps[0]), steps[1..], last);
    }
  }

  /** The turn's exchange is kept: a good text, a commit that does not crash, and room for it on its own. */
  predicate Keeps(lim: WM.Limits, user: string, env: Surroundings) {
    GoodText(env, user) && !env.commitCrashes && |user| + |env.generated.value| <= lim.maxCharacters
  }

  /**
   * What the end of a turn does, after any run: a failed generation, a failed validation, a missing
   * context, an exception, a crashed commit or an exchange too large leaves every memory as it
   * was; any other turn adds its message and its text to its own subject's exchanges.
   */
  lemma FinishKeepsExactly(lim: WM.Limits, steps: seq<Step>, c: State, t: nat, env: Surroundings)
    requires Runs(INITIAL, lim, steps, c) && Enabled(c, Finish(t, env))
    ensures var d, n, s, user := Apply(c, lim, Finish(t, env)), |c.turns|, c.queue.calls[t].subject, c.turns[t].user;
            && n == |c.queue.calls| == |d.turns| == |d.queue.calls|
            && (forall r :: r != s || !Keeps(lim, user, env) ==>
                  WM.MemoryOf(d.memory, r) == WM.MemoryOf(c.memory, r) && Accepted(d, r, n) == Accepted(c, r, n))
            && (Keeps(lim, user, env) ==>
                  && Accepted(d, s, n) == Accepted(c, s, n) + [WM.Exchange(user, env.generated.value)]
                  && WM.MemoryOf(d.memory, s) == WM.Bounded(Accepted(d, s, n), lim))
  {
    var s, user, st := c.queue.calls[t].subject, c.turns[t].user, Finish(t, env);
    Q.InvInit();
    assert WM.Fits([], lim);
    assert Inv(INITIAL, lim);
    RunKeepsInv(INITIAL, lim, steps, c);
    SubjectsNotBlank(lim, INITIAL, steps, c);
    LaterTurnsQuiet(c, lim, t);
    assert NothingKept(c, s, t);
    KeptIs(lim, s, user, env);
    FinishAccepted(c, lim, st);
    FinishMemory(c, lim, st);
    FinishElsewhere(c, lim, st);
    FinishCommits(c, lim, st);
  }

  lemma KeptIs(lim: WM.Limits, subject: string, user: string, env: Surroundings)
    requires !Blank(subject)
    ensures Kept(lim, subject, user, env)
         == if Keeps(lim, user, env) then Some(WM.Exchange(user, env.generated.value)) else None
  {
  }

  /** The other subjects' memories and kept exchanges stay. */
  lemma FinishElsewhere(c: State, lim: WM.Limits, st: Step)
    requires st.Finish? && Enabled(c, st) && |c.turns| == |c.queue.calls|
    ensures forall r :: r != c.queue.calls[st.t].subject ==>
              WM.MemoryOf(Apply(c, lim, st).memory, r) == WM.MemoryOf(c.memory, r)
              && Accepted(Apply(c, lim, st), r, |c.turns|) == Accepted(c, r, |c.turns|)
  {
    forall r | r != c.queue.calls[st.t].subject
      ensures WM.MemoryOf(Apply(c, lim, st).memory, r) == WM.MemoryOf(c.memory, r)
      ensures Accepted(Apply(c, lim, st), r, |c.turns|) == Accepted(c, r, |c.turns|)
    {
      AcceptedSame(c, Apply(c, lim, st), r, |c.turns|);
    }
  }

  /** A turn leaves an exchange exactly when it answered and the commit went through; then it is that answer. */
  lemma OnlyAnswersAreKept(lim: WM.Limits, subject: string, user: string, env: Surroundings)
    ensures Kept(lim, subject, user, env).Some? <==>
            Outcome(env, user).0.Answer? && !env.commitCrashes && !Blank(subject)
            && |user| + |Outcome(env, user).0.text| <= lim.maxCharacters
    ensures Kept(lim, subject, user, env).Some? ==>
            Kept(lim, subject, user, env).value == WM.Exchange(user, Outcome(env, user).0.text)
  {
  }
}
