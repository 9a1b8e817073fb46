/**
 * application/onboarding_service.py: the three onboarding questions, answered by
 * messages that may act on a stale copy of the preferences row.
 *
 * The identity catalogue is ai/identity_catalog.py without its prose and profiles.
 */
module Onboarding {
  import opened Wrappers
  import opened Text
  import TimeFormat

  type User = nat
  type Time = int

  datatype Group = FEMALE | MALE | NEUTRAL

  datatype Identity = Identity(id: string, group: Group, defaultName: string, czechName: Option<string>)

  type Catalog = seq<Identity>

  const FEMALES: Catalog := [
    Identity("sophia", FEMALE, "Sophia", Some("Sofie")),
    Identity("victoria", FEMALE, "Victoria", Some("Viktorie")),
    Identity("luna", FEMALE, "Luna", None),
    Identity("iris", FEMALE, "Iris", None),
    Identity("scarlett", FEMALE, "Scarlett", None)]

  const MALES: Catalog := [
    Identity("marcus", MALE, "Marcus", None),
    Identity("adrian", MALE, "Adrian", None),
    Identity("ethan", MALE, "Ethan", None),
    Identity("leo", MALE, "Leo", None),
    Identity("damon", MALE, "Damon", None)]

  const NEUTRALS: Catalog := [
    Identity("alex", NEUTRAL, "Alex", None),
    Identity("nova", NEUTRAL, "Nova", None),
    Identity("sage", NEUTRAL, "Sage", None),
    Identity("echo", NEUTRAL, "Echo", None),
    Identity("river", NEUTRAL, "River", None)]

  const CATALOG: Catalog := FEMALES + MALES + NEUTRALS

  datatype Step = LANGUAGE | AI_GENDER | PERSONALITY | COMPLETE

  datatype Row = Row(
    step: Step, language: Option<string>, aiGender: Option<Group>, identity: Option<string>,
    createdAt: Time, updatedAt: Time)

  // -------------------------------------------------------------- reading answers

  /**
   * str.lower() as far as answers go: the letters whose lower case occurs in an
   * accepted answer or a name. All others stay outside every answer either way.
   */
  function LowerChar(c: char): char {
    if 'A' <= c <= 'Z' then c + 32 as char
    else if c == '\U{212A}' then 'k'
    else if c == '\U{10C}' then '\U{10D}'
    else if c == '\U{160}' then '\U{161}'
    else c
  }

  function Lower(s: string): (r: string)
    ensures |r| == |s| && forall i :: 0 <= i < |s| ==> r[i] == LowerChar(s[i])
  {
    seq(|s|, i requires 0 <= i < |s| => LowerChar(s[i]))
  }

  function Strip(s: string): string {
    if s == "" then s
    else if IsSpace(s[0]) then Strip(s[1..])
    else if IsSpace(s[|s| - 1]) then Strip(s[..|s| - 1])
    else s
  }

  function Normalized(text: string): string { Lower(Strip(text)) }

  function LanguageChoice(s: string): Option<string> {
    if s == "1" || s == "english" || s == "en" then Some("en")
    else if s == "2" || s == "cs" || s == "\U{10D}e\U{161}tina" || s == "cestina" || s == "czech" then Some("cs")
    else None
  }

  function GenderChoice(s: string): Option<Group> {
    if s == "1" || s == "female" then Some(FEMALE)
    else if s == "2" || s == "male" then Some(MALE)
    else if s == "3" || s == "neutral" then Some(NEUTRAL)
    else None
  }

  /** The catalogue entries of the chosen group, all of them when none is chosen. */
  function IdentitiesFor(catalog: Catalog, group: Option<Group>): (r: seq<Identity>)
    ensures forall e :: e in r <==> e in catalog && (group.Some? ==> e.group == group.value)
  {
    if catalog == [] then []
    else if group.None? || catalog[0].group == group.value then [catalog[0]] + IdentitiesFor(catalog[1..], group)
    else IdentitiesFor(catalog[1..], group)
  }

  function DisplayName(e: Identity, language: string): string {
    if language == "cs" && e.czechName.Some? then e.czechName.value else e.defaultName
  }

  predicate Named(e: Identity, language: string, s: string) {
    s == e.id || s == Lower(e.defaultName) || s == Lower(DisplayName(e, language))
  }

  function FirstNamed(es: seq<Identity>, language: string, s: string): (r: Option<Identity>)
    ensures r.Some? ==> r.value in es && Named(r.value, language, s)
    ensures r.None? ==> forall e :: e in es ==> !Named(e, language, s)
  {
    if es == [] then None
    else if Named(es[0], language, s) then Some(es[0])
    else FirstNamed(es[1..], language, s)
  }

  /** A number counts from one; anything else is a name. */
  function IdentityChoice(candidates: seq<Identity>, language: string, s: string): (r: Option<Identity>)
    ensures r.Some? ==> r.value in candidates
  {
    if s != "" && TimeFormat.ParseDecimal(s).Some? then
      var n := TimeFormat.ParseDecimal(s).value;
      if 1 <= n <= |candidates| then Some(candidates[n - 1]) else None
    else FirstNamed(candidates, language, s)
  }

  // ------------------------------------------------------------------ the service

  /** What an answer writes: one column and the next step. */
  datatype Answer = Language(code: string) | Gender(group: Group) | Personality(id: string)

  function FromStep(a: Answer): Step {
    match a
    case Language(_) => LANGUAGE
    case Gender(_) => AI_GENDER
    case Personality(_) => PERSONALITY
  }

  /** How the (possibly stale) row makes a message be understood; None re-prompts. */
  function Understood(catalog: Catalog, snapshot: Row, text: string): Option<Answer> {
    var s := Normalized(text);
    match snapshot.step
    case LANGUAGE => (match LanguageChoice(s) case Some(c) => Some(Language(c)) case None => None)
    case AI_GENDER => (match GenderChoice(s) case Some(g) => Some(Gender(g)) case None => None)
    case PERSONALITY =>
      (match IdentityChoice(IdentitiesFor(catalog, snapshot.aiGender), LanguageOf(snapshot), s)
       case Some(e) => Some(Personality(e.id))
       case None => None)
    case COMPLETE => None
  }

  function Written(r: Row, a: Answer, now: Time): Row {
    match a
    case Language(c) => r.(language := Some(c), step := AI_GENDER, updatedAt := now)
    case Gender(g) => r.(aiGender := Some(g), step := PERSONALITY, updatedAt := now)
    case Personality(id) => r.(identity := Some(id), step := COMPLETE, updatedAt := now)
  }

  /** The compare-and-set: it writes only while the row is still at the answer's step. */
  function Advanced(rows: map<User, Row>, u: User, a: Answer, now: Time): map<User, Row> {
    if u in rows && rows[u].step == FromStep(a) then rows[u := Written(rows[u], a, now)] else rows
  }

  function Processed(catalog: Catalog, rows: map<User, Row>, u: User, snapshot: Row, text: string, now: Time): map<User, Row> {
    match Understood(catalog, snapshot, text)
    case Some(a) => Advanced(rows, u, a, now)
    case None => rows
  }

  // ---------------------------------------------------------------------- replies

  /** What a message back asks for or says. */
  datatype Prompt =
    | AskLanguage
    | AskGender
    | AskPersonality(listed: seq<string>) // display names, in the order of their numbers
    | WelcomeBack

  /** `name` is None where the source writes "your AI". */
  datatype Reply = Ask(prompt: Prompt) | AskAgain(prompt: Prompt) | AllSet(name: Option<string>)

  function LanguageOf(r: Row): string { if r.language.Some? then r.language.value else "en" }

  function DisplayNames(es: seq<Identity>, language: string): (r: seq<string>)
    ensures |r| == |es| && forall i :: 0 <= i < |es| ==> r[i] == DisplayName(es[i], language)
  {
    seq(|es|, i requires 0 <= i < |es| => DisplayName(es[i], language))
  }

  function PromptFor(catalog: Catalog, r: Row): Prompt {
    match r.step
    case LANGUAGE => AskLanguage
    case AI_GENDER => AskGender
    case PERSONALITY => AskPersonality(DisplayNames(IdentitiesFor(catalog, r.aiGender), LanguageOf(r)))
    case COMPLETE => WelcomeBack
  }

  /** The dictionary by identity_id: a later entry with the same id would win. */
  function ById(catalog: Catalog, id: string): (r: Option<Identity>)
    ensures r.Some? ==> r.value in catalog && r.value.id == id
    ensures r.None? ==> forall e :: e in catalog ==> e.id != id
  {
    if catalog == [] then None
    else if catalog[|catalog| - 1].id == id then Some(catalog[|catalog| - 1])
    else ById(catalog[..|catalog| - 1], id)
  }

  function CompletionName(catalog: Catalog, r: Row): Option<string> {
    if r.identity.None? || r.identity.value == "" || ById(catalog, r.identity.value).None? then None
    else Some(DisplayName(ById(catalog, r.identity.value).value, LanguageOf(r)))
  }

  /** The reply to an answer read against `snapshot`, when the row then stands at `row`. */
  function ReplyTo(catalog: Catalog, snapshot: Row, text: string, row: Row): Reply {
    if snapshot.step == COMPLETE then Ask(WelcomeBack)
    else if Understood(catalog, snapshot, text).None? then AskAgain(PromptFor(catalog, snapshot))
    else if snapshot.step == PERSONALITY then AllSet(CompletionName(catalog, row))
    else Ask(PromptFor(catalog, row))
  }

  function NewRow(now: Time): Row { Row(LANGUAGE, None, None, None, now, now) }

  class OnboardingService {
    const catalog: Catalog
    var rows: map<User, Row>

    constructor (catalog: Catalog)
      ensures this.catalog == catalog && rows == map[]
    {
      this.catalog := catalog;
      rows := map[];
    }

    method GetOrCreatePreferences(u: User, now: Time) returns (row: Row, created: bool)
      modifies this
      ensures created <==> u !in old(rows)
      ensures rows == (if created then old(rows)[u := NewRow(now)] else old(rows)) && rows[u] == row
    {
      if u in rows {
        return rows[u], false;
      }
      row := Row(LANGUAGE, None, None, None, now, now);
      rows := rows[u := row];
      created := true;
    }

    /** The row as it now stands (the snapshot itself when nothing was understood) and the reply. */
    method ProcessMessage(u: User, snapshot: Row, text: string, now: Time) returns (row: Row, reply: Reply)
      requires u in rows
      modifies this
      ensures rows == Processed(catalog, old(rows), u, snapshot, text, now)
      ensures row == if Understood(catalog, snapshot, text).Some? then rows[u] else snapshot
      ensures reply == ReplyTo(catalog, snapshot, text, row)
    {
      hide DisplayNames;
      hide CompletionName;
      hide IdentitiesFor;
      hide IdentityChoice;
      hide Advanced;
      var normalized := Normalized(text);
      row, reply := snapshot, Ask(WelcomeBack);
      match snapshot.step {
        case LANGUAGE => row, reply := HandleLanguage(u, snapshot, normalized, now);
        case AI_GENDER => row, reply := HandleAiGender(u, snapshot, normalized, now);
        case PERSONALITY => row, reply := HandlePersonality(u, snapshot, normalized, now);
        case COMPLETE =>
      }
    }

    method HandleLanguage(u: User, snapshot: Row, normalized: string, now: Time) returns (row: Row, reply: Reply)
      requires u in rows && snapshot.step == LANGUAGE
      modifies this
      ensures var c := LanguageChoice(normalized);
              if c.None? then rows == old(rows) && row == snapshot && reply == AskAgain(AskLanguage)
              else rows == Advanced(old(rows), u, Language(c.value), now) && u in rows && row == rows[u]
                   && reply == Ask(PromptFor(catalog, row))
    {
      var choice := LanguageChoice(normalized);
      if choice.None? {
        return snapshot, AskAgain(AskLanguage);
      }
      row := Advance(u, Language(choice.value), now);
      reply := Ask(PromptFor(catalog, row));
    }

    method HandleAiGender(u: User, snapshot: Row, normalized: string, now: Time) returns (row: Row, reply: Reply)
      requires u in rows && snapshot.step == AI_GENDER
      modifies this
      ensures var c := GenderChoice(normalized);
              if c.None? then rows == old(rows) && row == snapshot && reply == AskAgain(AskGender)
              else rows == Advanced(old(rows), u, Gender(c.value), now) && u in rows && row == rows[u]
                   && reply == Ask(PromptFor(catalog, row))
    {
      var choice := GenderChoice(normalized);
      if choice.None? {
        return snapshot, AskAgain(AskGender);
      }
      row := Advance(u, Gender(choice.value), now);
      reply := Ask(PromptFor(catalog, row));
    }

    method HandlePersonality(u: User, snapshot: Row, normalized: string, now: Time) returns (row: Row, reply: Reply)
      requires u in rows && snapshot.step == PERSONALITY
      modifies this
      ensures var c := IdentityChoice(IdentitiesFor(catalog, snapshot.aiGender), LanguageOf(snapshot), normalized);
              if c.None? then rows == old(rows) && row == snapshot && reply == AskAgain(PromptFor(catalog, snapshot))
              else rows == Advanced(old(rows), u, Personality(c.value.id), now) && u in rows && row == rows[u]
                   && reply == AllSet(CompletionName(catalog, row))
    {
      hide IdentitiesFor;
      hide FirstNamed;
      hide PromptFor;
      hide CompletionName;
      hide Advanced;
      var candidates, chosen: Option<Identity> := IdentitiesFor(catalog, snapshot.aiGender), None;
      if normalized != "" && TimeFormat.ParseDecimal(normalized).Some? {
        var index := TimeFormat.ParseDecimal(normalized).value - 1;
        if 0 <= index < |candidates| {
          chosen := Some(candidates[index]);
        }
      } else {
        chosen := FindNamed(candidates, LanguageOf(snapshot), normalized);
      }
      if chosen.None? {
        return snapshot, AskAgain(PromptFor(catalog, snapshot));
      }
      row := Advance(u, Personality(chosen.value.id), now);
      reply := AllSet(CompletionName(catalog, row));
    }

    /** The search through the candidates, stopping at the first match. */
    method FindNamed(candidates: seq<Identity>, language: string, normalized: string) returns (chosen: Option<Identity>)
      ensures chosen == FirstNamed(candidates, language, normalized)
    {
      hide Named;
      for i := 0 to |candidates|
        invariant FirstNamed(candidates, language, normalized) == FirstNamed(candidates[i..], language, normalized)
      {
        assert candidates[i..][0] == candidates[i] && candidates[i..][1..] == candidates[i + 1..];
        if Named(candidates[i], language, normalized) {
          return Some(candidates[i]);
        }
      }
      return None;
    }

    method Advance(u: User, a: Answer, now: Time) returns (row: Row)
      requires u in rows
      modifies this
      ensures rows == Advanced(old(rows), u, a, now) && u in rows && row == rows[u]
    {
      if rows[u].step == FromStep(a) {
        match a {
          case Language(c) => rows := rows[u := rows[u].(language := Some(c), step := AI_GENDER, updatedAt := now)];
          case Gender(g) => rows := rows[u := rows[u].(aiGender := Some(g), step := PERSONALITY, updatedAt := now)];
          case Personality(id) => rows := rows[u := rows[u].(identity := Some(id), step := COMPLETE, updatedAt := now)];
        }
      }
      return rows[u];
    }
  }

  // ------------------------------------------------------------------------ runs

  /** A message read the row; its answer is processed later, once or again. */
  datatype Pending = Pending(user: User, snapshot: Row)

  datatype Column = LanguageColumn | GenderColumn | IdentityColumn

  datatype Write = Write(user: User, column: Column)

  /** The table, every copy of a row some message has read, and every column write made. */
  datatype World = World(rows: map<User, Row>, pending: seq<Pending>, writes: seq<Write>)

  datatype Action =
    | Arrives(user: User, at: Time)
    | Answers(p: nat, text: string, now: Time)

  function ColumnOf(a: Answer): Column {
    match a
    case Language(_) => LanguageColumn
    case Gender(_) => GenderColumn
    case Personality(_) => IdentityColumn
  }

  function Act(catalog: Catalog, w: World, a: Action): World {
    match a
    case Arrives(u, at) =>
      var rows := if u in w.rows then w.rows else w.rows[u := NewRow(at)];
      w.(rows := rows, pending := w.pending + [Pending(u, rows[u])])
    case Answers(p, text, now) =>
      if p >= |w.pending| then w
      else
        var u, snapshot := w.pending[p].user, w.pending[p].snapshot;
        w.(rows := Processed(catalog, w.rows, u, snapshot, text, now),
           writes := w.writes + WritesOf(w.rows, u, Understood(catalog, snapshot, text)))
  }

  function WritesOf(rows: map<User, Row>, u: User, a: Option<Answer>): seq<Write> {
    if a.Some? && u in rows && rows[u].step == FromStep(a.value) then [Write(u, ColumnOf(a.value))] else []
  }

  function After(catalog: Catalog, w: World, actions: seq<Action>): World
    decreases |actions|
  {
    if actions == [] then w else After(catalog, Act(catalog, w, actions[0]), actions[1..])
  }

  const NOBODY: World := World(map[], [], [])

  // -------------------------------------------------------------------- promises

  function Order(s: Step): nat {
    match s
    case LANGUAGE => 0
    case AI_GENDER => 1
    case PERSONALITY => 2
    case COMPLETE => 3
  }

  predicate IsIdentityOf(catalog: Catalog, id: string, g: Group) {
    exists e :: e in catalog && e.id == id && e.group == g
  }

  /** A column is filled once its question is behind; the answers are supported ones. */
  predicate RowOk(catalog: Catalog, r: Row) {
    && (r.language.Some? <==> Order(r.step) > 0) && (r.aiGender.Some? <==> Order(r.step) > 1)
    && (r.identity.Some? <==> Order(r.step) > 2)
    && (r.language.Some? ==> r.language.value == "en" || r.language.value == "cs")
    && (r.identity.Some? ==> IsIdentityOf(catalog, r.identity.value, r.aiGender.value))
  }

  /** `b` can be a later state of row `a`: no step back, no answer replaced. */
  predicate Later(a: Row, b: Row) {
    && Order(a.step) <= Order(b.step) && a.createdAt == b.createdAt
    && (a.language.Some? ==> b.language == a.language) && (a.aiGender.Some? ==> b.aiGender == a.aiGender)
    && (a.identity.Some? ==> b.identity == a.identity)
  }

  predicate Filled(r: Row, c: Column) {
    match c
    case LanguageColumn => r.language.Some?
    case GenderColumn => r.aiGender.Some?
    case IdentityColumn => r.identity.Some?
  }

  function Count(ws: seq<Write>, w: Write): nat {
    if ws == [] then 0 else Count(ws[..|ws| - 1], w) + if ws[|ws| - 1] == w then 1 else 0
  }

  /** Each answer column of each user has been written once if it is filled, never otherwise. */
  ghost predicate WrittenOnce(w: World) {
    forall u, c :: Count(w.writes, Write(u, c)) == if u in w.rows && Filled(w.rows[u], c) then 1 else 0
  }

  predicate PendingOk(catalog: Catalog, w: World, p: Pending) {
    p.user in w.rows && RowOk(catalog, p.snapshot) && Later(p.snapshot, w.rows[p.user])
  }

  ghost predicate Inv(catalog: Catalog, w: World) {
    && (forall u :: u in w.rows ==> RowOk(catalog, w.rows[u]))
    && (forall p :: 0 <= p < |w.pending| ==> PendingOk(catalog, w, w.pending[p]))
    && WrittenOnce(w)
  }

  /** An answer understood from an old copy still fits the row, if the row is at its step. */
  lemma AnswerFits(catalog: Catalog, snapshot: Row, row: Row, text: string, now: Time)
    requires RowOk(catalog, snapshot) && RowOk(catalog, row) && Later(snapshot, row)
    ensures var a := Understood(catalog, snapshot, text);
            a.Some? && row.step == FromStep(a.value) ==>
              RowOk(catalog, Written(row, a.value, now)) && Later(row, Written(row, a.value, now))
  {
  }

  lemma LaterTrans(a: Row, b: Row, c: Row)
    requires Later(a, b) && Later(b, c)
    ensures Later(a, c)
  {
  }

  lemma WrittenFills(catalog: Catalog, row: Row, a: Answer, now: Time, c: Column)
    requires RowOk(catalog, row) && row.step == FromStep(a)
    ensures Filled(Written(row, a, now), c) <==> Filled(row, c) || c == ColumnOf(a)
    ensures !Filled(row, ColumnOf(a))
  {
  }

  lemma CountOneMore(ws: seq<Write>, w: Write, x: Write)
    ensures Count(ws + [w], x) == Count(ws, x) + if w == x then 1 else 0
  {
  }

  lemma ArrivesKeepsInv(catalog: Catalog, w: World, a: Action)
    requires Inv(catalog, w) && a.Arrives?
    ensures Inv(catalog, Act(catalog, w, a))
  {
  }

  lemma AnswersKeepsInv(catalog: Catalog, w: World, a: Action)
    requires Inv(catalog, w) && a.Answers? && a.p < |w.pending|
    ensures Inv(catalog, Act(catalog, w, a))
  {
    var u, snapshot := w.pending[a.p].user, w.pending[a.p].snapshot;
    var n, answer := Act(catalog, w, a), Understood(catalog, snapshot, a.text);
    assert PendingOk(catalog, w, w.pending[a.p]);
    AnswerFits(catalog, snapshot, w.rows[u], a.text, a.now);
    hide Understood;
    if answer.Some? && w.rows[u].step == FromStep(answer.value) {
      AdvancePending(catalog, w, n, u);
      forall v, c ensures Count(n.writes, Write(v, c)) == if v in n.rows && Filled(n.rows[v], c) then 1 else 0 {
        CountOneMore(w.writes, Write(u, ColumnOf(answer.value)), Write(v, c));
        WrittenFills(catalog, w.rows[u], answer.value, a.now, c);
      }
    } else {
      assert n.rows == w.rows && n.writes == w.writes;
    }
  }

  lemma AdvancePending(catalog: Catalog, w: World, n: World, u: User)
    requires Inv(catalog, w) && u in w.rows && u in n.rows && n.rows == w.rows[u := n.rows[u]]
    requires Later(w.rows[u], n.rows[u]) && n.pending == w.pending
    ensures forall p :: 0 <= p < |n.pending| ==> PendingOk(catalog, n, n.pending[p])
  {
  }

  lemma ActKeepsInv(catalog: Catalog, w: World, a: Action)
    requires Inv(catalog, w)
    ensures Inv(catalog, Act(catalog, w, a))
  {
    if a.Arrives? {
      ArrivesKeepsInv(catalog, w, a);
    } else if a.p < |w.pending| {
      AnswersKeepsInv(catalog, w, a);
    }
  }

  // ---------------------------------------------------------------- main results

  /**
   * Whatever messages arrive and on however stale a copy each is answered: every
   * column of every user is written exactly once, when its question is answered;
   * and a complete row has a supported language and an identity of the chosen group.
   */
  lemma {:induction false} EveryRun(catalog: Catalog, w: World, actions: seq<Action>)
    requires Inv(catalog, w)
    ensures Inv(catalog, After(catalog, w, actions))
    decreases |actions|
  {
    hide Inv;
    hide Act;
    if actions != [] {
      ActKeepsInv(catalog, w, actions[0]);
      EveryRun(catalog, Act(catalog, w, actions[0]), actions[1..]);
    }
  }

  lemma CompleteMeansChosen(catalog: Catalog, actions: seq<Action>, u: User)
    requires u in After(catalog, NOBODY, actions).rows
    ensures var w := After(catalog, NOBODY, actions);
            && RowOk(catalog, w.rows[u])
            && (forall c :: Count(w.writes, Write(u, c)) == if Filled(w.rows[u], c) then 1 else 0)
            && (w.rows[u].step == COMPLETE ==>
                  (w.rows[u].language == Some("en") || w.rows[u].language == Some("cs"))
                  && w.rows[u].aiGender.Some? && w.rows[u].identity.Some?
                  && IsIdentityOf(catalog, w.rows[u].identity.value, w.rows[u].aiGender.value))
  {
    assert Inv(catalog, NOBODY);
    EveryRun(catalog, NOBODY, actions);
    hide After;
  }

  lemma ActMovesForward(catalog: Catalog, w: World, a: Action, u: User)
    requires Inv(catalog, w) && u in w.rows
    ensures u in Act(catalog, w, a).rows && Later(w.rows[u], Act(catalog, w, a).rows[u])
  {
    if a.Answers? && a.p < |w.pending| && w.pending[a.p].user == u {
      assert PendingOk(catalog, w, w.pending[a.p]);
      AnswerFits(catalog, w.pending[a.p].snapshot, w.rows[u], a.text, a.now);
    }
    hide Understood;
  }

  /** A row only moves forward and keeps every answer given. */
  lemma {:induction false} OnlyForward(catalog: Catalog, w: World, actions: seq<Action>, u: User)
    requires Inv(catalog, w) && u in w.rows
    ensures u in After(catalog, w, actions).rows && Later(w.rows[u], After(catalog, w, actions).rows[u])
    decreases |actions|
  {
    hide Inv;
    hide Act;
    if actions != [] {
      var n := Act(catalog, w, actions[0]);
      ActKeepsInv(catalog, w, actions[0]);
      ActMovesForward(catalog, w, actions[0], u);
      OnlyForward(catalog, n, actions[1..], u);
      LaterTrans(w.rows[u], n.rows[u], After(catalog, n, actions[1..]).rows[u]);
    }
  }

  /**
   * Replies fit the row they are sent with: a question is the one the row stands at, a
   * repeated one that of the copy the message was read against; "all set" comes with a
   * complete row, and names the identity it holds.
   */
  lemma RepliesFit(catalog: Catalog, rows: map<User, Row>, u: User, snapshot: Row, text: string, now: Time)
    requires u in rows && RowOk(catalog, snapshot) && RowOk(catalog, rows[u]) && Later(snapshot, rows[u])
    ensures var understood := Understood(catalog, snapshot, text).Some?;
            var row := if understood then Processed(catalog, rows, u, snapshot, text, now)[u] else snapshot;
            var reply := ReplyTo(catalog, snapshot, text, row);
            && ReplyFits(catalog, snapshot, row, understood, reply)
            && (reply.AskAgain? <==> snapshot.step != COMPLETE && !understood)
            && (reply.AllSet? <==> snapshot.step == PERSONALITY && understood)
  {
    AnswerFits(catalog, snapshot, rows[u], text, now);
    hide Understood;
    hide DisplayNames;
    hide IdentitiesFor;
  }

  predicate ReplyFits(catalog: Catalog, snapshot: Row, row: Row, understood: bool, reply: Reply) {
    match reply
    case Ask(prompt) => prompt == PromptFor(catalog, row)
    case AskAgain(prompt) => !understood && row == snapshot && prompt == PromptFor(catalog, snapshot)
    case AllSet(name) =>
      && understood && row.step == COMPLETE && row.identity.Some?
      && (row.identity.value == "" ==> name.None?)
      && (row.identity.value != "" ==>
            exists e :: e in catalog && e.id == row.identity.value && name == Some(DisplayName(e, LanguageOf(row))))
  }

  /** Acting on a copy older than the row's current question changes nothing. */
  lemma StaleAnswersChangeNothing(catalog: Catalog, rows: map<User, Row>, u: User, snapshot: Row, text: string, now: Time)
    requires u in rows
    ensures Processed(catalog, rows, u, snapshot, text, now) != rows ==>
              && rows[u].step == snapshot.step
              && Order(Processed(catalog, rows, u, snapshot, text, now)[u].step) == Order(snapshot.step) + 1
  {
  }

  /** Any listed number, and any listed name nobody before it on the list has, picks its entry. */
  lemma ChoicesAreHonoured(es: seq<Identity>, language: string, i: nat, s: string)
    requires i < |es|
    ensures s != "" && TimeFormat.ParseDecimal(s) == Some(i + 1) ==> IdentityChoice(es, language, s) == Some(es[i])
    ensures (s == "" || TimeFormat.ParseDecimal(s).None?) && Named(es[i], language, s)
            && (forall j :: 0 <= j < i ==> !Named(es[j], language, s)) ==>
              IdentityChoice(es, language, s) == Some(es[i])
  {
    if (s == "" || TimeFormat.ParseDecimal(s).None?) && Named(es[i], language, s)
       && (forall j :: 0 <= j < i ==> !Named(es[j], language, s)) {
      hide Named;
      FirstNamedIs(es, language, i, s);
    }
  }

  lemma {:induction false} FirstNamedIs(es: seq<Identity>, language: string, i: nat, s: string)
    requires i < |es| && Named(es[i], language, s) && forall j :: 0 <= j < i ==> !Named(es[j], language, s)
    ensures FirstNamed(es, language, s) == Some(es[i])
  {
    hide Named;
    if i > 0 {
      FirstNamedIs(es[1..], language, i - 1, s);
    }
  }

  lemma {:induction false} OneGroup(es: Catalog, g: Group, h: Group)
    requires forall i :: 0 <= i < |es| ==> es[i].group == g
    ensures IdentitiesFor(es, Some(h)) == if g == h then es else []
  {
    if es != [] {
      OneGroup(es[1..], g, h);
    }
  }

  lemma {:induction false} GroupsConcat(a: Catalog, b: Catalog, h: Option<Group>)
    ensures IdentitiesFor(a + b, h) == IdentitiesFor(a, h) + IdentitiesFor(b, h)
  {
    if a == [] {
      assert a + b == b;
    } else {
      assert (a + b)[1..] == a[1..] + b;
      GroupsConcat(a[1..], b, h);
    }
  }

  lemma GroupOf(f: Catalog, m: Catalog, n: Catalog, h: Group)
    requires forall i :: 0 <= i < |f| ==> f[i].group == FEMALE
    requires forall i :: 0 <= i < |m| ==> m[i].group == MALE
    requires forall i :: 0 <= i < |n| ==> n[i].group == NEUTRAL
    ensures IdentitiesFor(f + m + n, Some(h)) == (match h case FEMALE => f case MALE => m case NEUTRAL => n)
  {
    hide IdentitiesFor;
    GroupsConcat(f + m, n, Some(h));
    GroupsConcat(f, m, Some(h));
    match h
    case FEMALE =>
      OthersAreEmpty(m, MALE, n, NEUTRAL, h);
      OneGroup(f, FEMALE, h);
      NothingAround(f);
    case MALE =>
      OthersAreEmpty(f, FEMALE, n, NEUTRAL, h);
      OneGroup(m, MALE, h);
      NothingAround(m);
    case NEUTRAL =>
      OthersAreEmpty(f, FEMALE, m, MALE, h);
      OneGroup(n, NEUTRAL, h);
      NothingAround(n);
  }

  lemma OthersAreEmpty(a: Catalog, g: Group, b: Catalog, k: Group, h: Group)
    requires forall i :: 0 <= i < |a| ==> a[i].group == g
    requires forall i :: 0 <= i < |b| ==> b[i].group == k
    requires g != h && k != h
    ensures IdentitiesFor(a, Some(h)) == [] && IdentitiesFor(b, Some(h)) == []
  {
    OneGroup(a, g, h);
    OneGroup(b, k, h);
  }

  lemma NothingAround(es: Catalog)
    ensures es + [] + [] == es && [] + es + [] == es && [] + [] + es == es
  {
  }

  /** The numbered list shown for a choice is that choice's five identities, in catalogue order. */
  lemma CatalogByGroup(h: Group)
    ensures IdentitiesFor(CATALOG, Some(h)) == (match h case FEMALE => FEMALES case MALE => MALES case NEUTRAL => NEUTRALS)
    ensures |FEMALES| == |MALES| == |NEUTRALS| == 5
  {
    GroupOf(FEMALES, MALES, NEUTRALS, h);
    hide IdentitiesFor;
  }

  // ------------------------------------------------------- what the answers mean

  /** Space around an answer does not count. */
  lemma {:induction false} StripPads(before: string, s: string, after: string)
    requires Blank(before) && Blank(after) && s != "" && !IsSpace(s[0]) && !IsSpace(s[|s| - 1])
    ensures Strip(before + s + after) == s
    decreases |before| + |after|
  {
    var padded := before + s + after;
    if before != "" {
      assert padded[0] == before[0] && padded[1..] == before[1..] + s + after;
      StripPads(before[1..], s, after);
    } else if after != "" {
      var n := |after| - 1;
      assert padded[0] == s[0] && padded[|padded| - 1] == after[n] && padded[..|padded| - 1] == before + s + after[..n];
      StripPads(before, s, after[..n]);
    } else {
      assert padded == s;
    }
  }

  /** What the other modules call blank is what stripping leaves nothing of. */
  lemma {:induction false} BlankStripsToNothing(s: string)
    ensures Strip(s) == "" <==> Blank(s)
    decreases |s|
  {
    if s != "" {
      if IsSpace(s[0]) {
        BlankStripsToNothing(s[1..]);
      } else if IsSpace(s[|s| - 1]) {
        BlankStripsToNothing(s[..|s| - 1]);
      }
    }
  }

  /** Nor do capital letters. */
  lemma CapitalsDoNotCount(s: string, t: string)
    requires |s| == |t|
    requires forall i :: 0 <= i < |s| ==> s[i] == t[i] || ('A' <= s[i] <= 'Z' && t[i] == s[i] + 32 as char)
    ensures Lower(s) == Lower(t)
    ensures (forall i :: 0 <= i < |t| ==> t[i] < '\U{80}' && !('A' <= t[i] <= 'Z')) ==> Lower(t) == t
  {
  }

  /** The capitals outside ASCII that count: the Kelvin sign and two Czech letters. */
  lemma OtherCapitals(c: char)
    requires c > 'Z'
    ensures LowerChar(c) == if c == '\U{212A}' then 'k' else if c == '\U{10C}' then '\U{10D}'
                            else if c == '\U{160}' then '\U{161}' else c
  {
  }

  /** The answers to the first two questions, and that there are no others. */
  lemma AnswersAre(s: string)
    ensures LanguageChoice(s) == Some("en") <==> s in ["1", "english", "en"]
    ensures LanguageChoice(s) == Some("cs") <==> s in ["2", "cs", "\U{10D}e\U{161}tina", "cestina", "czech"]
    ensures LanguageChoice(s).Some? ==> LanguageChoice(s).value == "en" || LanguageChoice(s).value == "cs"
    ensures GenderChoice(s) == Some(FEMALE) <==> s in ["1", "female"]
    ensures GenderChoice(s) == Some(MALE) <==> s in ["2", "male"]
    ensures GenderChoice(s) == Some(NEUTRAL) <==> s in ["3", "neutral"]
  {
  }

  /** An identity answers to its id, its default name and, in Czech, its Czech name if it has one. */
  lemma NamesAre(e: Identity, language: string, s: string)
    ensures Named(e, language, s) <==>
            s == e.id || s == Lower(e.defaultName)
            || (language == "cs" && e.czechName.Some? && s == Lower(e.czechName.value))
  {
  }

  /** The question a row stands at, and the listed names for the third. */
  lemma QuestionsAre(catalog: Catalog, r: Row)
    ensures PromptFor(catalog, r).AskLanguage? <==> r.step == LANGUAGE
    ensures PromptFor(catalog, r).AskGender? <==> r.step == AI_GENDER
    ensures PromptFor(catalog, r).AskPersonality? <==> r.step == PERSONALITY
    ensures PromptFor(catalog, r).WelcomeBack? <==> r.step == COMPLETE
    ensures var listed := IdentitiesFor(catalog, r.aiGender);
            r.step == PERSONALITY ==>
              && |PromptFor(catalog, r).listed| == |listed|
              && forall i :: 0 <= i < |listed| ==>
                   PromptFor(catalog, r).listed[i] == (if r.language == Some("cs") && listed[i].czechName.Some?
                                                       then listed[i].czechName.value else listed[i].defaultName)
  {
  }

  function MenuOf(g: Group): Catalog {
    match g
    case FEMALE => FEMALES
    case MALE => MALES
    case NEUTRAL => NEUTRALS
  }

  /** The three answers by number: what the first two write, against an up-to-date copy ... */
  lemma NumberedAnswers(rows: map<User, Row>, u: User, text: string, now: Time)
    requires u in rows
    ensures var after := Processed(CATALOG, rows, u, rows[u], text, now);
            && (rows[u].step == LANGUAGE && (Normalized(text) == "1" || Normalized(text) == "2") ==>
                  after == rows[u := rows[u].(language := Some(if Normalized(text) == "1" then "en" else "cs"),
                                              step := AI_GENDER, updatedAt := now)])
            && (rows[u].step == AI_GENDER && Normalized(text) in ["1", "2", "3"] ==>
                  after == rows[u := rows[u].(aiGender := Some(if Normalized(text) == "1" then FEMALE
                                                               else if Normalized(text) == "2" then MALE else NEUTRAL),
                                              step := PERSONALITY, updatedAt := now)])
  {
    hide IdentityChoice;
    hide IdentitiesFor;
    hide Normalized;
  }

  /** ... and what the third one does. */
  lemma NumberedPersonality(rows: map<User, Row>, u: User, g: Group, i: nat, text: string, now: Time)
    requires u in rows && rows[u].step == PERSONALITY && rows[u].aiGender == Some(g) && i < 5
    requires Normalized(text) != "" && TimeFormat.ParseDecimal(Normalized(text)) == Some(i + 1)
    ensures i < |MenuOf(g)|
    ensures Processed(CATALOG, rows, u, rows[u], text, now)
         == rows[u := rows[u].(identity := Some(MenuOf(g)[i].id), step := COMPLETE, updatedAt := now)]
  {
    CatalogByGroup(g);
    ChoicesAreHonoured(MenuOf(g), LanguageOf(rows[u]), i, Normalized(text));
    hide IdentityChoice;
    hide IdentitiesFor;
    hide Normalized;
  }

  /**
   * Every combination can be had: three answers by number, each against an up-to-date copy, take
   * a new row to a complete one with that language, that group and that identity, and touch no other row.
   */
  lemma EveryChoiceCanBeMade(rows: map<User, Row>, u: User, a: string, b: string, c: string, g: Group, i: nat,
                             created: Time, now: Time)
    requires u in rows && rows[u] == NewRow(created) && i < 5
    requires Normalized(a) == "1" || Normalized(a) == "2"
    requires Normalized(b) == (match g case FEMALE => "1" case MALE => "2" case NEUTRAL => "3")
    requires Normalized(c) != "" && TimeFormat.ParseDecimal(Normalized(c)) == Some(i + 1)
    ensures var first := Processed(CATALOG, rows, u, rows[u], a, now);
            u in first && var second := Processed(CATALOG, first, u, first[u], b, now);
            u in second && var third := Processed(CATALOG, second, u, second[u], c, now);
            i < |MenuOf(g)|
            && third == rows[u := Row(COMPLETE, Some(if Normalized(a) == "1" then "en" else "cs"), Some(g),
                                      Some(MenuOf(g)[i].id), created, now)]
  {
    hide Processed;
    hide Normalized;
    hide MenuOf;
    var first := Processed(CATALOG, rows, u, rows[u], a, now);
    NumberedAnswers(rows, u, a, now);
    NumberedAnswers(first, u, b, now);
    NumberedPersonality(Processed(CATALOG, first, u, first[u], b, now), u, g, i, c, now);
  }

  /** A message that reads the row and is then answered against it. */
  function AskAndAnswer(w: World, u: User, text: string, at: Time, now: Time): World {
    Act(CATALOG, Act(CATALOG, w, Arrives(u, at)), Answers(|w.pending|, text, now))
  }

  lemma AnsweredAtOnce(w: World, u: User, text: string, at: Time, now: Time)
    ensures var rows := if u in w.rows then w.rows else w.rows[u := NewRow(at)];
            AskAndAnswer(w, u, text, at, now).rows == Processed(CATALOG, rows, u, rows[u], text, now)
  {
    hide Processed;
    hide Understood;
  }

  /** So in any world a user who has no row yet can finish onboarding with any choice, in three messages. */
  lemma OnboardingCanFinish(w: World, u: User, a: string, b: string, c: string, g: Group, i: nat, at: Time, now: Time)
    requires u !in w.rows && i < 5 && (Normalized(a) == "1" || Normalized(a) == "2")
    requires Normalized(b) == (match g case FEMALE => "1" case MALE => "2" case NEUTRAL => "3")
    requires Normalized(c) != "" && TimeFormat.ParseDecimal(Normalized(c)) == Some(i + 1)
    ensures var first := AskAndAnswer(w, u, a, at, now);
            var second := AskAndAnswer(first, u, b, at, now);
            var third := AskAndAnswer(second, u, c, at, now);
            i < |MenuOf(g)|
            && third.rows == w.rows[u := Row(COMPLETE, Some(if Normalized(a) == "1" then "en" else "cs"), Some(g),
                                             Some(MenuOf(g)[i].id), at, now)]
  {
    hide AskAndAnswer;
    hide Processed;
    hide Normalized;
    hide MenuOf;
    var first := AskAndAnswer(w, u, a, at, now);
    var second := AskAndAnswer(first, u, b, at, now);
    AnsweredAtOnce(w, u, a, at, now);
    EveryChoiceCanBeMade(w.rows[u := NewRow(at)], u, a, b, c, g, i, at, now);
    AnsweredAtOnce(first, u, b, at, now);
    AnsweredAtOnce(second, u, c, at, now);
  }
}
