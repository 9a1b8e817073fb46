/**
 * chaster/repository.py and chaster/callback_service.py: one-time OAuth `state`
 * values (sections 4.1.1 and 10.12 of RFC 6749) and the connection a callback writes.
 *
 * The token exchange and the identity lookup are arbitrary outcomes; tokens are kept
 * in the clear.
 */
module OAuthCallback {
  import opened Wrappers
  import opened Text
  import opened TimeFormat

  type Time = Instant
  type User = string

  const STATE_TTL: int := 600 * MICROS_PER_SECOND

  datatype StateRow = StateRow(user: User, createdAt: Time, expiresAt: Time)

  type StateTable = map<string, StateRow>

  datatype ConnectionStatus = ACTIVE | NEEDS_REAUTHORIZATION

  /** The lifetimes are in seconds, as the provider sends them. */
  datatype Tokens = Tokens(access: string, refresh: string, expiresIn: int, refreshExpiresIn: int, scopes: seq<string>)

  datatype Identity = Identity(account: string, username: Option<string>)

  datatype Connection = Connection(
    account: string, username: Option<string>, access: string, refresh: string,
    accessExpiresAt: Time, refreshExpiresAt: Time, scopes: seq<string>, status: ConnectionStatus,
    createdAt: Time, updatedAt: Time)

  type ConnectionTable = map<User, Connection>

  datatype StoreError =
    | BlankArgument
    | UniqueViolation
    | Overflow // a date past the last one Python has

  // ------------------------------------------------------------------ state values

  function WithoutUser(rows: StateTable, u: User): StateTable {
    map t | t in rows && rows[t].user != u :: rows[t]
  }

  /** create_or_replace with the random value it drew. */
  function Minted(rows: StateTable, u: User, token: string, now: Time): (StateTable, Option<StoreError>) {
    if Blank(u) then (rows, Some(BlankArgument))
    else
      match Plus(now, STATE_TTL)
      case None => (rows, Some(Overflow))
      case Some(expiresAt) =>
        if token in WithoutUser(rows, u) then (rows, Some(UniqueViolation))
        else (WithoutUser(rows, u)[token := StateRow(u, now, expiresAt)], None)
  }

  datatype ConsumeResult = Unmatched | Expired | Matched(user: User)

  function ConsumeResultOf(rows: StateTable, token: string, now: Time): ConsumeResult {
    if token !in rows then Unmatched
    else if rows[token].expiresAt <= now then Expired
    else Matched(rows[token].user)
  }

  class ChasterOAuthStateRepository {
    var rows: StateTable

    constructor ()
      ensures rows == map[]
    {
      rows := map[];
    }

    method CreateOrReplace(u: User, token: string, now: Time) returns (error: Option<StoreError>)
      modifies this
      ensures (rows, error) == Minted(old(rows), u, token, now)
    {
      if Blank(u) {
        return Some(BlankArgument);
      }
      var expiresAt := Plus(now, STATE_TTL);
      if expiresAt.None? {
        return Some(Overflow);
      }
      var kept := WithoutUser(rows, u);
      if token in kept { // PRIMARY KEY: the transaction is rolled back
        return Some(UniqueViolation);
      }
      rows := kept[token := StateRow(u, now, expiresAt.value)];
      return None;
    }

    /** The row goes whatever the result is. */
    method Consume(token: string, now: Time) returns (r: ConsumeResult)
      modifies this
      ensures r == ConsumeResultOf(old(rows), token, now) && rows == old(rows) - {token}
    {
      if token !in rows {
        assert rows - {token} == rows;
        return Unmatched;
      }
      var row := rows[token];
      rows := rows - {token};
      return if row.expiresAt <= now then Expired else Matched(row.user);
    }
  }

  // ------------------------------------------------------------------- connections

  predicate AccountTaken(conns: ConnectionTable, u: User, account: string) {
    exists v :: v in conns && v != u && conns[v].account == account
  }

  function Stale(conns: ConnectionTable, u: User, now: Time): ConnectionTable {
    if u in conns then conns[u := conns[u].(status := NEEDS_REAUTHORIZATION, updatedAt := now)] else conns
  }

  /** The upsert; a first write sets created_at, a later one keeps it. */
  function Connected(conns: ConnectionTable, u: User, id: Identity, t: Tokens, accessEnd: Time, refreshEnd: Time, now: Time)
    : (ConnectionTable, Option<StoreError>)
  {
    if Blank(u) || Blank(id.account) then (conns, Some(BlankArgument))
    else if AccountTaken(conns, u, id.account) then (conns, Some(UniqueViolation))
    else
      var createdAt := if u in conns then conns[u].createdAt else now;
      (conns[u := Connection(id.account, id.username, t.access, t.refresh, accessEnd, refreshEnd, t.scopes, ACTIVE,
                             createdAt, now)],
       None)
  }

  /** The end of a lifetime in seconds. */
  function EndOf(now: Time, seconds: int): Option<Time> { Plus(now, seconds * MICROS_PER_SECOND) }

  /** The callback's last step: both dates are computed before the repository is called. */
  function Persisted(conns: ConnectionTable, u: User, id: Identity, t: Tokens, now: Time)
    : (ConnectionTable, Option<StoreError>)
  {
    match (EndOf(now, t.expiresIn), EndOf(now, t.refreshExpiresIn))
    case (Some(accessEnd), Some(refreshEnd)) => Connected(conns, u, id, t, accessEnd, refreshEnd, now)
    case _ => (conns, Some(Overflow))
  }

  class ChasterConnectionRepository {
    var rows: ConnectionTable

    constructor ()
      ensures rows == map[]
    {
      rows := map[];
    }

    method CreateOrReplace(u: User, id: Identity, t: Tokens, accessEnd: Time, refreshEnd: Time, now: Time)
      returns (error: Option<StoreError>)
      modifies this
      ensures (rows, error) == Connected(old(rows), u, id, t, accessEnd, refreshEnd, now)
    {
      if Blank(u) || Blank(id.account) {
        return Some(BlankArgument);
      }
      if AccountTaken(rows, u, id.account) {
        return Some(UniqueViolation);
      }
      var createdAt := if u in rows then rows[u].createdAt else now;
      rows := rows[u := Connection(id.account, id.username, t.access, t.refresh, accessEnd, refreshEnd, t.scopes, ACTIVE,
                                   createdAt, now)];
      return None;
    }

    /** A failed refresh: everything but the status and its time stays. */
    method MarkNeedsReauthorization(u: User, now: Time) returns (error: Option<StoreError>)
      modifies this
      ensures error == if Blank(u) then Some(BlankArgument) else None
      ensures rows == if Blank(u) then old(rows) else Stale(old(rows), u, now)
      ensures rows == if Blank(u) || u !in old(rows) then old(rows)
                      else old(rows)[u := old(rows)[u].(status := NEEDS_REAUTHORIZATION, updatedAt := now)]
    {
      if Blank(u) {
        return Some(BlankArgument);
      }
      if u in rows {
        rows := rows[u := rows[u].(status := NEEDS_REAUTHORIZATION, updatedAt := now)];
      }
      return None;
    }

    method Delete(u: User) returns (error: Option<StoreError>)
      modifies this
      ensures error == if Blank(u) then Some(BlankArgument) else None
      ensures rows == if Blank(u) then old(rows) else old(rows) - {u}
    {
      if Blank(u) {
        return Some(BlankArgument);
      }
      rows := rows - {u};
      return None;
    }
  }

  // ---------------------------------------------------------------- the callback

  /** What the provider sent, and what the calls to it will give. */
  datatype Request = Request(
    state: Option<string>, code: Option<string>, error: Option<string>,
    exchange: Option<Tokens>, identity: Option<Identity>)

  datatype Outcome =
    | MissingState
    | LinkInvalid
    | LinkExpired
    | NotAuthorized(user: User)
    | MissingCode(user: User)
    | ExchangeFailed(user: User)
    | IdentityUnavailable(user: User)
    | ConnectedAs(user: User)
    | Raises(error: StoreError)

  predicate Given(s: Option<string>) { s.Some? && s.value != "" }

  /** After the state was consumed for `u`: what stops the callback before it writes. */
  function StopsBeforeWrite(u: User, r: Request): Option<Outcome> {
    if Given(r.error) then Some(NotAuthorized(u))
    else if !Given(r.code) then Some(MissingCode(u))
    else if r.exchange.None? then Some(ExchangeFailed(u))
    else if r.identity.None? then Some(IdentityUnavailable(u))
    else None
  }

  /** What stops a callback after its state was consumed, in the order in which it is looked at. */
  lemma StopsIff(u: User, r: Request)
    ensures var stop := StopsBeforeWrite(u, r);
            var denied := r.error.Some? && r.error.value != "";
            var coded := r.code.Some? && r.code.value != "";
            && (stop == Some(NotAuthorized(u)) <==> denied)
            && (stop == Some(MissingCode(u)) <==> !denied && !coded)
            && (stop == Some(ExchangeFailed(u)) <==> !denied && coded && r.exchange.None?)
            && (stop == Some(IdentityUnavailable(u)) <==> !denied && coded && r.exchange.Some? && r.identity.None?)
            && (stop.None? <==> !denied && coded && r.exchange.Some? && r.identity.Some?)
  {
  }

  /** An end of a lifetime that is no date. */
  predicate TooLong(now: Time, seconds: int) {
    !(0 <= now + seconds * 1_000_000 < SECONDS * MICROS_PER_SECOND)
  }

  /** When the write goes through, what refuses it otherwise, and the row it leaves. */
  lemma PersistedIff(conns: ConnectionTable, u: User, id: Identity, t: Tokens, now: Time)
    ensures var (after, e) := Persisted(conns, u, id, t, now);
            var long := TooLong(now, t.expiresIn) || TooLong(now, t.refreshExpiresIn);
            var taken := exists v :: v in conns && v != u && conns[v].account == id.account;
            && (e == Some(Overflow) <==> long)
            && (e == Some(BlankArgument) <==> !long && (Blank(u) || Blank(id.account)))
            && (e == Some(UniqueViolation) <==> !long && !Blank(u) && !Blank(id.account) && taken)
            && (e.Some? ==> after == conns)
            && (e.None? ==>
                  after == conns[u := Connection(id.account, id.username, t.access, t.refresh,
                                                 now + t.expiresIn * 1_000_000, now + t.refreshExpiresIn * 1_000_000,
                                                 t.scopes, ACTIVE, if u in conns then conns[u].createdAt else now, now)])
  {
    hide Blank;
  }

  class ChasterCallbackService {
    const states: ChasterOAuthStateRepository
    const connections: ChasterConnectionRepository

    constructor (states: ChasterOAuthStateRepository, connections: ChasterConnectionRepository)
      ensures this.states == states && this.connections == connections
    {
      this.states, this.connections := states, connections;
    }

    /** A connection is written exactly on ConnectedAs, for the user whose state was consumed. */
    method HandleCallback(r: Request, now: Time) returns (outcome: Outcome)
      modifies states, connections
      ensures !Given(r.state) ==> outcome == MissingState && states.rows == old(states.rows)
      ensures Given(r.state) ==> states.rows == old(states.rows) - {r.state.value}
      ensures outcome.LinkInvalid? <==> Given(r.state) && r.state.value !in old(states.rows)
      ensures outcome.LinkExpired? <==>
                Given(r.state) && ConsumeResultOf(old(states.rows), r.state.value, now) == Expired
      ensures var u := if Given(r.state) then ConsumeResultOf(old(states.rows), r.state.value, now) else Unmatched;
              if u.Matched? && StopsBeforeWrite(u.user, r).None? then
                var (conns, e) := Persisted(old(connections.rows), u.user, r.identity.value, r.exchange.value, now);
                connections.rows == conns && outcome == (if e.Some? then Raises(e.value) else ConnectedAs(u.user))
              else connections.rows == old(connections.rows)
                   && (u.Matched? ==> StopsBeforeWrite(u.user, r) == Some(outcome))
    {
      if !Given(r.state) {
        return MissingState;
      }
      var result := states.Consume(r.state.value, now);
      if result.Unmatched? {
        return LinkInvalid;
      }
      if result.Expired? {
        return LinkExpired;
      }
      var u := result.user;
      if Given(r.error) {
        return NotAuthorized(u);
      }
      if !Given(r.code) {
        return MissingCode(u);
      }
      if r.exchange.None? {
        return ExchangeFailed(u);
      }
      if r.identity.None? {
        return IdentityUnavailable(u);
      }
      var t := r.exchange.value;
      var accessEnd, refreshEnd := EndOf(now, t.expiresIn), EndOf(now, t.refreshExpiresIn);
      if accessEnd.None? || refreshEnd.None? {
        return Raises(Overflow);
      }
      var e := connections.CreateOrReplace(u, r.identity.value, t, accessEnd.value, refreshEnd.value, now);
      return if e.Some? then Raises(e.value) else ConnectedAs(u);
    }
  }

  // ------------------------------------------- links and callbacks interleaved

  /** A link given to a user. */
  datatype Mint = Mint(user: User, token: string, at: Time)

  /** A callback that has consumed its state; `links` is how many links existed then. */
  datatype Callback = Callback(token: string, at: Time, result: ConsumeResult, links: nat, ended: bool)

  /** A connection written by a callback, and the row it left. */
  datatype Write = Write(user: User, callback: nat, row: Connection)

  datatype World = World(
    rows: StateTable, connections: ConnectionTable, mints: seq<Mint>, callbacks: seq<Callback>, writes: seq<Write>)

  const NOTHING: World := World(map[], map[], [], [], [])

  datatype Step =
    | Link(user: User, token: string, at: Time)
    | Arrive(token: string, at: Time)
    | Persist(callback: nat, identity: Identity, tokens: Tokens)
    | Stop(callback: nat) // an early exit, an exception, or a crash
    | Reauthorize(user: User, at: Time)
    | Disconnect(user: User)

  /** Random values are fresh, and a callback writes or stops once. */
  predicate Enabled(w: World, s: Step) {
    match s
    case Link(_, token, _) => forall m :: 0 <= m < |w.mints| ==> w.mints[m].token != token
    case Persist(c, _, _) => c < |w.callbacks| && !w.callbacks[c].ended && w.callbacks[c].result.Matched?
    case Stop(c) => c < |w.callbacks| && !w.callbacks[c].ended
    case _ => true
  }

  function End(w: World, c: nat): seq<Callback>
    requires c < |w.callbacks|
  {
    w.callbacks[c := w.callbacks[c].(ended := true)]
  }

  function Next(w: World, s: Step): World
    requires Enabled(w, s)
  {
    match s
    case Link(u, token, at) =>
      var (rows, e) := Minted(w.rows, u, token, at);
      w.(rows := rows, mints := if e.None? then w.mints + [Mint(u, token, at)] else w.mints)
    case Arrive(token, at) =>
      w.(rows := w.rows - {token},
         callbacks := w.callbacks + [Callback(token, at, ConsumeResultOf(w.rows, token, at), |w.mints|, false)])
    case Persist(c, id, t) =>
      var u := w.callbacks[c].result.user;
      var (conns, e) := Persisted(w.connections, u, id, t, w.callbacks[c].at);
      w.(connections := conns, callbacks := End(w, c),
         writes := if e.None? && u in conns then w.writes + [Write(u, c, conns[u])] else w.writes)
    case Stop(c) => w.(callbacks := End(w, c))
    case Reauthorize(u, at) => w.(connections := Stale(w.connections, u, at))
    case Disconnect(u) => w.(connections := w.connections - {u})
  }

  predicate Runs(w: World, steps: seq<Step>, last: World)
    decreases |steps|
  {
    if steps == [] then w == last
    else Enabled(w, steps[0]) && Runs(Next(w, steps[0]), steps[1..], last)
  }

  // -------------------------------------------------------------------- promises

  /** The last link of its user among the first n. */
  predicate LatestOf(mints: seq<Mint>, m: nat, n: nat) {
    m < n <= |mints| && forall k :: m < k < n ==> mints[k].user != mints[m].user
  }

  /** Link m stands behind a state row: same token, user and time, and not replaced since. */
  predicate Backs(w: World, token: string, m: nat) {
    && token in w.rows && LatestOf(w.mints, m, |w.mints|) && w.mints[m].token == token
    && w.rows[token].user == w.mints[m].user && w.rows[token].createdAt == w.mints[m].at
    && w.rows[token].expiresAt == w.mints[m].at + STATE_TTL
  }

  /** Link m was consumed by callback c in time, while it was its user's latest. */
  predicate ConsumedFrom(w: World, c: Callback, m: nat) {
    && c.result.Matched? && LatestOf(w.mints, m, c.links) && w.mints[m].token == c.token
    && w.mints[m].user == c.result.user && c.at < w.mints[m].at + STATE_TTL
  }

  ghost predicate RowsBacked(w: World) {
    forall t :: t in w.rows ==> exists m :: Backs(w, t, m)
  }

  predicate TokensDistinct(mints: seq<Mint>) {
    forall m, k :: 0 <= m < k < |mints| ==> mints[m].token != mints[k].token
  }

  ghost predicate CallbackOk(w: World, c: Callback) {
    c.result.Matched? ==> c.token !in w.rows && exists m :: ConsumedFrom(w, c, m)
  }

  /** A state is matched by one callback only. */
  predicate MatchedOnce(cs: seq<Callback>) {
    forall c, d :: 0 <= c < |cs| && 0 <= d < |cs| && cs[c].result.Matched? && cs[d].result.Matched? && cs[c].token == cs[d].token
      ==> c == d
  }

  predicate WriteOk(w: World, x: Write) {
    x.callback < |w.callbacks| && w.callbacks[x.callback].ended && w.callbacks[x.callback].result == Matched(x.user)
  }

  predicate WritesDistinct(xs: seq<Write>) {
    forall i, j :: 0 <= i < j < |xs| ==> xs[i].callback != xs[j].callback
  }

  /** The last write for `u`. */
  predicate LatestWrite(xs: seq<Write>, u: User, i: nat) {
    i < |xs| && xs[i].user == u && forall k :: i < k < |xs| ==> xs[k].user != u
  }

  /** Equal but for the status and the time of its last change. */
  predicate SameGrant(a: Connection, b: Connection) {
    a.(status := b.status, updatedAt := b.updatedAt) == b
  }

  ghost predicate IsWritten(xs: seq<Write>, u: User, row: Connection) {
    exists i: nat :: LatestWrite(xs, u, i) && SameGrant(xs[i].row, row)
  }

  /** Every connection in the table is the last one a callback wrote for its user. */
  ghost predicate ConnectionsWritten(conns: ConnectionTable, xs: seq<Write>) {
    forall u :: u in conns ==> IsWritten(xs, u, conns[u])
  }

  ghost predicate Inv(w: World) {
    && ConnectionsWritten(w.connections, w.writes) && TokensDistinct(w.mints) && RowsBacked(w) && MatchedOnce(w.callbacks) && WritesDistinct(w.writes)
    && (forall c :: 0 <= c < |w.callbacks| ==> CallbackOk(w, w.callbacks[c]))
    && (forall i :: 0 <= i < |w.writes| ==> WriteOk(w, w.writes[i]))
  }

  /** A new link takes the place of its user's earlier state row. */
  lemma LinkKeepsRows(w: World, n: World, u: User, token: string, at: Time)
    requires RowsBacked(w) && n.mints == w.mints + [Mint(u, token, at)]
    requires token in n.rows && n.rows[token].user == u && n.rows[token].createdAt == at
    requires n.rows[token].expiresAt == at + STATE_TTL
    requires forall t :: t in n.rows && t != token ==> t in w.rows && n.rows[t] == w.rows[t] && w.rows[t].user != u
    ensures RowsBacked(n)
  {
    forall t | t in n.rows ensures exists m :: Backs(n, t, m) {
      if t == token {
        assert Backs(n, t, |w.mints|);
      } else {
        var m :| Backs(w, t, m);
        assert Backs(n, t, m);
      }
    }
  }

  lemma LinkKeepsCallbacks(w: World, n: World, u: User, token: string, at: Time)
    requires n.mints == w.mints + [Mint(u, token, at)] && n.callbacks == w.callbacks
    requires forall m :: 0 <= m < |w.mints| ==> w.mints[m].token != token
    requires forall t :: t in n.rows && t != token ==> t in w.rows
    requires forall c :: 0 <= c < |w.callbacks| ==> CallbackOk(w, w.callbacks[c])
    ensures forall c :: 0 <= c < |n.callbacks| ==> CallbackOk(n, n.callbacks[c])
  {
    forall c | 0 <= c < |n.callbacks| ensures CallbackOk(n, n.callbacks[c]) {
      var b := n.callbacks[c];
      assert CallbackOk(w, b);
      if b.result.Matched? {
        var m :| ConsumedFrom(w, b, m);
        assert ConsumedFrom(n, b, m);
      }
    }
  }

  lemma LinkKeepsInv(w: World, s: Step)
    requires Inv(w) && s.Link? && Enabled(w, s)
    ensures Inv(Next(w, s))
  {
    hide Blank;
    hide RowsBacked;
    hide CallbackOk;
    hide MatchedOnce;
    hide WritesDistinct;
    hide ConnectionsWritten;
    var n := Next(w, s);
    if n.mints != w.mints {
      LinkKeepsRows(w, n, s.user, s.token, s.at);
      LinkKeepsCallbacks(w, n, s.user, s.token, s.at);
    } else {
      assert n == w;
    }
  }

  lemma ArriveKeepsRows(w: World, n: World, token: string)
    requires RowsBacked(w) && n.rows == w.rows - {token} && n.mints == w.mints
    ensures RowsBacked(n)
  {
    forall t | t in n.rows ensures exists m :: Backs(n, t, m) {
      var m :| Backs(w, t, m);
      assert Backs(n, t, m);
    }
  }

  /** A matched arrival is consumed from the link behind its row. */
  lemma ArrivedOk(w: World, n: World, b: Callback)
    requires RowsBacked(w) && n.rows == w.rows - {b.token} && n.mints == w.mints
    requires b.result == ConsumeResultOf(w.rows, b.token, b.at) && b.links == |w.mints|
    ensures CallbackOk(n, b)
  {
    if b.result.Matched? {
      var m :| Backs(w, b.token, m);
      assert ConsumedFrom(n, b, m);
    }
  }

  lemma EarlierStayOk(w: World, n: World, token: string, b: Callback)
    requires CallbackOk(w, b) && n.rows == w.rows - {token} && n.mints == w.mints
    ensures CallbackOk(n, b)
  {
    if b.result.Matched? {
      var m :| ConsumedFrom(w, b, m);
      assert ConsumedFrom(n, b, m);
    }
  }

  lemma ArriveMatchesOnce(w: World, b: Callback)
    requires MatchedOnce(w.callbacks) && forall c :: 0 <= c < |w.callbacks| ==> CallbackOk(w, w.callbacks[c])
    requires b.result.Matched? ==> b.token in w.rows
    ensures MatchedOnce(w.callbacks + [b])
  {
    forall c | 0 <= c < |w.callbacks| && w.callbacks[c].result.Matched? ensures w.callbacks[c].token !in w.rows {
      assert CallbackOk(w, w.callbacks[c]);
    }
  }

  lemma ArriveKeepsInv(w: World, s: Step)
    requires Inv(w) && s.Arrive? && Enabled(w, s)
    ensures Inv(Next(w, s))
  {
    var n := Next(w, s);
    var b := n.callbacks[|w.callbacks|];
    ArriveMatchesOnce(w, b);
    hide RowsBacked;
    hide MatchedOnce;
    hide WritesDistinct;
    hide ConnectionsWritten;
    ArriveKeepsRows(w, n, s.token);
    ArrivedOk(w, n, b);
    hide CallbackOk;
    forall c | 0 <= c < |n.callbacks| ensures CallbackOk(n, n.callbacks[c]) {
      if c < |w.callbacks| {
        EarlierStayOk(w, n, s.token, w.callbacks[c]);
      }
    }
    forall i | 0 <= i < |n.writes| ensures WriteOk(n, n.writes[i]) {
      assert WriteOk(w, w.writes[i]);
    }
  }

  lemma PersistedFrame(conns: ConnectionTable, u: User, id: Identity, t: Tokens, now: Time)
    ensures var (after, e) := Persisted(conns, u, id, t, now);
            && (e.Some? ==> after == conns)
            && (e.None? ==> u in after && after == conns[u := after[u]])
  {
    hide Blank;
  }

  lemma PersistKeepsConnections(conns: ConnectionTable, after: ConnectionTable, xs: seq<Write>, x: Write)
    requires ConnectionsWritten(conns, xs) && after == conns[x.user := x.row]
    ensures ConnectionsWritten(after, xs + [x])
  {
    forall u | u in after ensures IsWritten(xs + [x], u, after[u]) {
      if u == x.user {
        assert LatestWrite(xs + [x], u, |xs|);
      } else {
        assert IsWritten(xs, u, conns[u]);
        var i: nat :| LatestWrite(xs, u, i) && SameGrant(xs[i].row, conns[u]);
        assert LatestWrite(xs + [x], u, i);
      }
    }
  }

  lemma StaleKeepsConnections(conns: ConnectionTable, u: User, now: Time, xs: seq<Write>)
    requires ConnectionsWritten(conns, xs)
    ensures ConnectionsWritten(Stale(conns, u, now), xs) && ConnectionsWritten(conns - {u}, xs)
  {
    var after := Stale(conns, u, now);
    forall v | v in after ensures IsWritten(xs, v, after[v]) {
      assert IsWritten(xs, v, conns[v]);
      var i: nat :| LatestWrite(xs, v, i) && SameGrant(xs[i].row, conns[v]);
      assert SameGrant(xs[i].row, after[v]);
    }
  }

  lemma EndKeepsConnections(w: World, s: Step)
    requires ConnectionsWritten(w.connections, w.writes) && Enabled(w, s)
    requires s.Persist? || s.Stop? || s.Reauthorize? || s.Disconnect?
    ensures ConnectionsWritten(Next(w, s).connections, Next(w, s).writes)
  {
    hide ConnectionsWritten;
    hide Minted;
    match s
    case Persist(c, id, t) =>
      var u, n := w.callbacks[c].result.user, Next(w, s);
      PersistedFrame(w.connections, u, id, t, w.callbacks[c].at);
      hide Persisted;
      if n.writes != w.writes {
        PersistKeepsConnections(w.connections, n.connections, w.writes, Write(u, c, n.connections[u]));
      }
    case Reauthorize(u, at) => StaleKeepsConnections(w.connections, u, at, w.writes);
    case Disconnect(u) => StaleKeepsConnections(w.connections, u, 0, w.writes);
    case Stop(_) =>
  }

  /** A connection is new or different only by a callback that had matched its user, which is logged. */
  lemma ConnectionsChangeByCallback(w: World, s: Step, u: User)
    requires Enabled(w, s) && u in Next(w, s).connections
    requires u !in w.connections || !SameGrant(w.connections[u], Next(w, s).connections[u])
    ensures s.Persist? && w.callbacks[s.callback].result == Matched(u)
    ensures Next(w, s).writes == w.writes + [Write(u, s.callback, Next(w, s).connections[u])]
  {
    if s.Persist? {
      PersistedFrame(w.connections, w.callbacks[s.callback].result.user, s.identity, s.tokens, w.callbacks[s.callback].at);
    }
    hide Persisted;
  }

  /** A step that ends at most one callback and neither consumes nor mints. */
  predicate EndsOnly(w: World, n: World) {
    && n.rows == w.rows && n.mints == w.mints && |n.callbacks| == |w.callbacks|
    && (forall c :: 0 <= c < |w.callbacks| ==>
          (n.callbacks[c] == w.callbacks[c] || n.callbacks[c] == w.callbacks[c].(ended := true)))
  }

  lemma EndKeepsCallbacks(w: World, n: World)
    requires EndsOnly(w, n) && RowsBacked(w) && MatchedOnce(w.callbacks)
    requires forall c :: 0 <= c < |w.callbacks| ==> CallbackOk(w, w.callbacks[c])
    ensures RowsBacked(n) && MatchedOnce(n.callbacks)
    ensures forall c :: 0 <= c < |n.callbacks| ==> CallbackOk(n, n.callbacks[c])
  {
    forall t | t in n.rows ensures exists m :: Backs(n, t, m) {
      var m :| Backs(w, t, m);
      assert Backs(n, t, m);
    }
    forall c | 0 <= c < |n.callbacks| ensures CallbackOk(n, n.callbacks[c]) {
      assert CallbackOk(w, w.callbacks[c]);
      if n.callbacks[c].result.Matched? {
        var m :| ConsumedFrom(w, w.callbacks[c], m);
        assert ConsumedFrom(n, n.callbacks[c], m);
      }
    }
  }

  lemma EndKeepsWrites(w: World, s: Step)
    requires (s.Persist? || s.Stop? || s.Reauthorize? || s.Disconnect?) && Enabled(w, s)
    requires WritesDistinct(w.writes) && forall i :: 0 <= i < |w.writes| ==> WriteOk(w, w.writes[i])
    ensures EndsOnly(w, Next(w, s)) && WritesDistinct(Next(w, s).writes)
    ensures forall i :: 0 <= i < |Next(w, s).writes| ==> WriteOk(Next(w, s), Next(w, s).writes[i])
  {
    hide Persisted;
    hide Stale;
    hide Minted;
    var n := Next(w, s);
    forall i | 0 <= i < |n.writes| ensures WriteOk(n, n.writes[i]) {
      if i < |w.writes| {
        assert WriteOk(w, w.writes[i]);
      }
    }
    forall i | 0 <= i < |w.writes| && s.Persist? ensures w.writes[i].callback != s.callback {
      assert WriteOk(w, w.writes[i]);
    }
  }

  lemma EndKeepsInv(w: World, s: Step)
    requires Inv(w) && (s.Persist? || s.Stop? || s.Reauthorize? || s.Disconnect?) && Enabled(w, s)
    ensures Inv(Next(w, s))
  {
    hide ConnectionsWritten;
    hide WritesDistinct;
    hide RowsBacked;
    hide MatchedOnce;
    hide CallbackOk;
    hide EndsOnly;
    hide WriteOk;
    EndKeepsConnections(w, s);
    EndKeepsWrites(w, s);
    EndKeepsTokens(w, s);
    hide Next;
    EndKeepsCallbacks(w, Next(w, s));
  }

  lemma EndKeepsTokens(w: World, s: Step)
    requires (s.Persist? || s.Stop? || s.Reauthorize? || s.Disconnect?) && Enabled(w, s)
    ensures Next(w, s).mints == w.mints
  {
    hide Persisted;
    hide Stale;
    hide Minted;
  }

  lemma {:induction false} RunKeepsInv(w: World, steps: seq<Step>, last: World)
    requires Inv(w) && Runs(w, steps, last)
    ensures Inv(last)
    decreases |steps|
  {
    hide Inv;
    hide Next;
    if steps != [] {
      var s := steps[0];
      if s.Link? {
        LinkKeepsInv(w, s);
      } else if s.Arrive? {
        ArriveKeepsInv(w, s);
      } else {
        EndKeepsInv(w, s);
      }
      RunKeepsInv(Next(w, s), steps[1..], last);
    }
  }

  // ------------------------------------------------------ which callbacks match

  /** Callbacks with this value all came before link m was given. */
  predicate NoneSince(cs: seq<Callback>, token: string, m: nat) {
    forall c :: 0 <= c < |cs| && cs[c].token == token ==> cs[c].links <= m
  }

  /** Link m is its user's latest and no callback with its value has come since it was given. */
  predicate Usable(w: World, m: nat) {
    LatestOf(w.mints, m, |w.mints|) && NoneSince(w.callbacks, w.mints[m].token, m)
  }

  predicate LinksCounted(w: World) {
    forall c :: 0 <= c < |w.callbacks| ==> w.callbacks[c].links <= |w.mints|
  }

  /** The usable links are those that stand behind a state row. */
  ghost predicate RowsAreUsable(w: World) {
    && (forall m: nat :: Usable(w, m) ==> Backs(w, w.mints[m].token, m))
    && (forall t, m: nat :: Backs(w, t, m) ==> Usable(w, m))
  }

  /** A successful link: one row more for its user, every other user's as it was. */
  predicate Links(w: World, n: World, u: User, token: string, at: Time) {
    && n.mints == w.mints + [Mint(u, token, at)] && n.callbacks == w.callbacks
    && token in n.rows && n.rows[token].user == u && n.rows[token].createdAt == at
    && n.rows[token].expiresAt == at + STATE_TTL
    && (forall t :: t in w.rows && w.rows[t].user != u && t != token ==> t in n.rows && n.rows[t] == w.rows[t])
    && (forall t :: t in n.rows && t != token ==> t in w.rows && n.rows[t] == w.rows[t] && w.rows[t].user != u)
    && (forall m :: 0 <= m < |w.mints| ==> w.mints[m].token != token)
  }

  /** One link more: it is its user's latest, and the others' latest stay. */
  lemma LatestGrows(mints: seq<Mint>, x: Mint, m: nat)
    ensures LatestOf(mints + [x], m, |mints| + 1) <==>
            m == |mints| || (LatestOf(mints, m, |mints|) && mints[m].user != x.user)
  {
    var all := mints + [x];
    assert forall k :: 0 <= k < |mints| ==> all[k] == mints[k];
    if m < |mints| && LatestOf(mints, m, |mints|) && mints[m].user != x.user {
      assert forall k :: m < k < |all| ==> all[k].user != all[m].user;
    }
    if m < |mints| && LatestOf(all, m, |mints| + 1) {
      assert all[|mints|].user != all[m].user;
      assert forall k :: m < k < |mints| ==> all[k].user != all[m].user;
    }
  }

  lemma LinkedIsUsable(w: World, n: World, u: User, token: string, at: Time, m: nat)
    requires RowsAreUsable(w) && LinksCounted(w) && Links(w, n, u, token, at) && m <= |w.mints|
    ensures Usable(n, m) <==> m == |w.mints| || (Usable(w, m) && w.mints[m].user != u)
    ensures Backs(n, n.mints[m].token, m) <==> m == |w.mints| || (Backs(w, w.mints[m].token, m) && w.mints[m].user != u)
  {
    hide RowsAreUsable;
    LatestGrows(w.mints, Mint(u, token, at), m);
    assert forall k :: 0 <= k < |w.mints| ==> n.mints[k] == w.mints[k];
    hide LatestOf;
  }

  lemma LinkKeepsUsable(w: World, n: World, u: User, token: string, at: Time)
    requires RowsAreUsable(w) && LinksCounted(w) && Links(w, n, u, token, at)
    ensures RowsAreUsable(n)
  {
    forall m: nat | Usable(n, m) ensures Backs(n, n.mints[m].token, m) {
      LinkedIsUsable(w, n, u, token, at, m);
    }
    forall t, m: nat | Backs(n, t, m) ensures Usable(n, m) {
      LinkedIsUsable(w, n, u, token, at, m);
      assert t == n.mints[m].token;
    }
    hide Usable;
    hide LinksCounted;
    hide LatestOf;
    hide Links;
  }

  /** A callback more, and the row of its value gone. */
  predicate Comes(w: World, n: World, token: string) {
    && n.mints == w.mints && n.rows == w.rows - {token} && |n.callbacks| == |w.callbacks| + 1
    && n.callbacks[..|w.callbacks|] == w.callbacks
    && n.callbacks[|w.callbacks|].token == token && n.callbacks[|w.callbacks|].links == |w.mints|
  }

  lemma ArriveKeepsUsable(w: World, n: World, token: string)
    requires RowsAreUsable(w) && Comes(w, n, token)
    ensures RowsAreUsable(n)
  {
    var last := |w.callbacks|;
    assert forall c :: 0 <= c < last ==> n.callbacks[c] == n.callbacks[..last][c] == w.callbacks[c];
    forall m: nat | Usable(n, m) ensures Backs(n, n.mints[m].token, m) {
      assert n.callbacks[last].links > m;
      assert Usable(w, m) && Backs(w, w.mints[m].token, m);
    }
    forall t, m: nat | Backs(n, t, m) ensures Usable(n, m) {
      assert Backs(w, t, m) && Usable(w, m);
    }
  }

  lemma EndKeepsUsable(w: World, n: World)
    requires RowsAreUsable(w) && LinksCounted(w) && EndsOnly(w, n)
    ensures RowsAreUsable(n) && LinksCounted(n)
  {
    forall m: nat ensures Usable(n, m) <==> Usable(w, m) {
    }
    forall t, m: nat ensures Backs(n, t, m) <==> Backs(w, t, m) {
    }
  }

  lemma LinkStep(w: World, s: Step)
    requires s.Link? && Enabled(w, s)
    ensures Next(w, s) == w || Links(w, Next(w, s), s.user, s.token, s.at)
    ensures Next(w, s).mints != w.mints <==> Links(w, Next(w, s), s.user, s.token, s.at)
    ensures Links(w, Next(w, s), s.user, s.token, s.at) <==>
              && !Blank(s.user) && s.at + 600_000_000 < SECONDS * MICROS_PER_SECOND
              && !(s.token in w.rows && w.rows[s.token].user != s.user)
  {
    hide Blank;
  }

  lemma StepKeepsUsable(w: World, s: Step)
    requires RowsAreUsable(w) && LinksCounted(w) && Enabled(w, s)
    requires WritesDistinct(w.writes) && forall i :: 0 <= i < |w.writes| ==> WriteOk(w, w.writes[i])
    ensures RowsAreUsable(Next(w, s)) && LinksCounted(Next(w, s))
  {
    hide RowsAreUsable;
    hide Blank;
    hide Minted;
    hide Persisted;
    hide Stale;
    var n := Next(w, s);
    match s
    case Link(u, token, at) =>
      LinkStep(w, s);
      if Links(w, n, u, token, at) {
        LinkKeepsUsable(w, n, u, token, at);
      }
    case Arrive(token, _) =>
      assert n.callbacks[..|w.callbacks|] == w.callbacks;
      ArriveKeepsUsable(w, n, token);
    case _ =>
      EndKeepsWrites(w, s);
      EndKeepsUsable(w, n);
  }

  lemma {:induction false} RunKeepsUsable(w: World, steps: seq<Step>, last: World)
    requires Inv(w) && RowsAreUsable(w) && LinksCounted(w) && Runs(w, steps, last)
    ensures RowsAreUsable(last) && LinksCounted(last)
    decreases |steps|
  {
    hide RowsAreUsable;
    hide LinksCounted;
    hide Next;
    hide Enabled;
    if steps != [] {
      RunKeepsInv(w, steps[..1], Next(w, steps[0]));
      StepKeepsUsable(w, steps[0]);
      RunKeepsUsable(Next(w, steps[0]), steps[1..], last);
    }
  }

  /** Link m has this value and is usable. */
  predicate Offers(w: World, token: string, m: nat) {
    Usable(w, m) && w.mints[m].token == token
  }

  /**
   * Which callbacks match, exactly: whatever has happened before, one with the value of its user's
   * latest link, given less than ten minutes ago and not presented since, matches that user; with
   * such a value given longer ago it is expired; with any other value it is unmatched.
   */
  lemma MatchedIff(steps: seq<Step>, w: World, token: string, at: Time)
    requires Runs(NOTHING, steps, w)
    ensures var r := ConsumeResultOf(w.rows, token, at);
            && (r.Unmatched? <==> forall m: nat :: !Offers(w, token, m))
            && (forall m: nat :: Offers(w, token, m) ==>
                  r == if at < w.mints[m].at + 600_000_000 then Matched(w.mints[m].user) else Expired)
  {
    RunKeepsInv(NOTHING, steps, w);
    RunKeepsUsable(NOTHING, steps, w);
    if token in w.rows {
      var m: nat :| Backs(w, token, m);
      assert Offers(w, token, m);
    }
    forall m: nat | Offers(w, token, m) ensures Backs(w, token, m) {
    }
    hide Usable;
  }

  lemma RowHasLink(w: World, token: string)
    requires RowsBacked(w) && token in w.rows
    ensures exists m :: 0 <= m < |w.mints| && w.mints[m].token == token
  {
    var m :| Backs(w, token, m);
  }

  /** So a link just given works for ten minutes, and once. */
  lemma FreshLinkWorks(steps: seq<Step>, w: World, u: User, token: string, given: Time, at: Time)
    requires Runs(NOTHING, steps, w) && Enabled(w, Link(u, token, given)) && !Blank(u)
    requires given + 600_000_000 < SECONDS * MICROS_PER_SECOND
    ensures var n := Next(w, Link(u, token, given));
            && ConsumeResultOf(n.rows, token, at) == (if at < given + 600_000_000 then Matched(u) else Expired)
            && ConsumeResultOf(Next(n, Arrive(token, at)).rows, token, at).Unmatched?
  {
    RunKeepsInv(NOTHING, steps, w);
    if token in w.rows {
      RowHasLink(w, token);
      assert false;
    }
    LinkStep(w, Link(u, token, given));
  }

  /** What the steps other than links and arrivals leave. */
  lemma OtherSteps(w: World, s: Step)
    requires Enabled(w, s)
    ensures var n := Next(w, s);
            match s
            case Persist(c, id, t) =>
              var u := w.callbacks[c].result.user;
              var (conns, e) := Persisted(w.connections, u, id, t, w.callbacks[c].at);
              && n.connections == conns && n.callbacks == w.callbacks[c := w.callbacks[c].(ended := true)]
              && n.writes == w.writes + (if e.None? && u in conns then [Write(u, c, conns[u])] else [])
            case Stop(c) => n == w.(callbacks := w.callbacks[c := w.callbacks[c].(ended := true)])
            case Reauthorize(u, at) =>
              n == w.(connections := if u !in w.connections then w.connections
                      else w.connections[u := w.connections[u].(status := NEEDS_REAUTHORIZATION, updatedAt := at)])
            case Disconnect(u) => n == w.(connections := map v | v in w.connections && v != u :: w.connections[v])
            case _ => n.connections == w.connections && n.writes == w.writes
  {
    hide Persisted;
    hide Minted;
    if s.Disconnect? {
      assert w.connections - {s.user} == map v | v in w.connections && v != s.user :: w.connections[v];
    }
  }

  /** And so whoever follows a link in time, with an account nobody else has, gets connected. */
  lemma LinkedUserConnects(steps: seq<Step>, w: World, u: User, token: string, given: Time, at: Time, id: Identity, t: Tokens)
    requires Runs(NOTHING, steps, w) && Enabled(w, Link(u, token, given)) && !Blank(u) && !Blank(id.account)
    requires at < given + 600_000_000 < SECONDS * MICROS_PER_SECOND
    requires !TooLong(at, t.expiresIn) && !TooLong(at, t.refreshExpiresIn)
    requires forall v :: v in w.connections && v != u ==> w.connections[v].account != id.account
    ensures var arrived, c := Next(Next(w, Link(u, token, given)), Arrive(token, at)), |w.callbacks|;
            Enabled(arrived, Persist(c, id, t))
            && var done := Next(arrived, Persist(c, id, t));
               && u in done.connections && done.connections[u].account == id.account
               && done.connections[u].access == t.access && done.connections[u].status == ACTIVE
               && done.writes == w.writes + [Write(u, c, done.connections[u])]
  {
    var linked := Next(w, Link(u, token, given));
    var arrived, c := Next(linked, Arrive(token, at)), |w.callbacks|;
    FreshLinkWorks(steps, w, u, token, given, at);
    LinkStep(w, Link(u, token, given));
    OtherSteps(w, Link(u, token, given));
    OtherSteps(linked, Arrive(token, at));
    PersistedIff(w.connections, u, id, t, at);
    OtherSteps(arrived, Persist(c, id, t));
    hide Minted;
    hide Persisted;
    hide Blank;
    hide TooLong;
  }

  // ---------------------------------------------------------------- main results

  lemma OnePendingEach(w: World, t: string, u: string)
    requires RowsBacked(w) && t in w.rows && u in w.rows && w.rows[t].user == w.rows[u].user
    ensures t == u
  {
  }

  /** A user has at most one pending state, in every interleaving. */
  lemma AtMostOnePending(steps: seq<Step>, w: World)
    requires Runs(NOTHING, steps, w)
    ensures forall t, u :: t in w.rows && u in w.rows && w.rows[t].user == w.rows[u].user ==> t == u
  {
    RunKeepsInv(NOTHING, steps, w);
    forall t, u | t in w.rows && u in w.rows && w.rows[t].user == w.rows[u].user ensures t == u {
      OnePendingEach(w, t, u);
    }
  }

  /** The link whose state the writing callback consumed. */
  ghost predicate WrittenFrom(w: World, i: nat, m: nat) {
    && i < |w.writes| && w.writes[i].callback < |w.callbacks| && m < |w.mints|
    && w.mints[m].user == w.writes[i].user && ConsumedFrom(w, w.callbacks[w.writes[i].callback], m)
  }

  ghost predicate HasLink(w: World, i: nat) {
    exists m :: WrittenFrom(w, i, m)
  }

  /**
   * Every connection in the table is the last one written for its user. Every write
   * goes back to a link minted for that same user, consumed strictly within ten
   * minutes while no later link of the user existed; no other callback matched that
   * state, and no two writes go back to the same link.
   */
  lemma EveryWriteHasItsLink(steps: seq<Step>, w: World)
    requires Runs(NOTHING, steps, w)
    ensures ConnectionsWritten(w.connections, w.writes)
    ensures forall i :: 0 <= i < |w.writes| ==> HasLink(w, i)
    ensures forall i, j, m :: WrittenFrom(w, i, m) && WrittenFrom(w, j, m) ==> i == j
    ensures forall i, c :: 0 <= i < |w.writes| && 0 <= c < |w.callbacks| && OtherMatch(w, i, c) ==> c == w.writes[i].callback
  {
    RunKeepsInv(NOTHING, steps, w);
    forall i | 0 <= i < |w.writes| ensures HasLink(w, i) {
      assert WriteOk(w, w.writes[i]);
      var c := w.callbacks[w.writes[i].callback];
      assert CallbackOk(w, c);
      var m :| ConsumedFrom(w, c, m);
      assert WrittenFrom(w, i, m);
    }
    forall i, j, m | WrittenFrom(w, i, m) && WrittenFrom(w, j, m) ensures i == j {
      SameLinkSameWrite(w, i, j, m);
    }
    forall i, c | 0 <= i < |w.writes| && 0 <= c < |w.callbacks| && OtherMatch(w, i, c) ensures c == w.writes[i].callback {
      assert WriteOk(w, w.writes[i]);
    }
  }

  /** Callback c matched the state that write i's callback matched. */
  predicate OtherMatch(w: World, i: nat, c: nat)
    requires i < |w.writes| && c < |w.callbacks|
  {
    w.writes[i].callback < |w.callbacks| && w.callbacks[c].result.Matched?
    && w.callbacks[c].token == w.callbacks[w.writes[i].callback].token
  }

  lemma SameLinkSameWrite(w: World, i: nat, j: nat, m: nat)
    requires Inv(w) && WrittenFrom(w, i, m) && WrittenFrom(w, j, m)
    ensures i == j
  {
  }

  /** No two users are connected to one provider account, and a refused write changes nothing. */
  lemma AccountsStayUnique(conns: ConnectionTable, u: User, id: Identity, t: Tokens, now: Time)
    requires forall v, x :: v in conns && x in conns && conns[v].account == conns[x].account ==> v == x
    ensures var (after, e) := Persisted(conns, u, id, t, now);
            && (forall v, x :: v in after && x in after && after[v].account == after[x].account ==> v == x)
            && (e.Some? ==> after == conns)
            && (e.None? ==> after.Keys == conns.Keys + {u} && forall v :: v in conns && v != u ==> after[v] == conns[v])
            && (e.None? ==> after[u].account == id.account && after[u].access == t.access && after[u].refresh == t.refresh
                            && after[u].accessExpiresAt == now + t.expiresIn * MICROS_PER_SECOND
                            && after[u].refreshExpiresAt == now + t.refreshExpiresIn * MICROS_PER_SECOND
                            && (u in conns ==> after[u].createdAt == conns[u].createdAt))
  {
    hide Blank;
  }
}
