/**
 * Refresh tokens: single-use, descending from one login as a family, revoked by sweeps.
 * READ COMMITTED gives a rotation no more than its statements: it reads the row, and later
 * consumes it by id and inserts the successor, whatever happened to the row in between. An
 * update of many rows reaches those committed when it starts. So a rotation is a read and
 * a write here, and a sweep a start and a finish. Other sessions see nothing of a rotation
 * before it commits, so its write stands for its commit.
 */
module RefreshTokens {
  import opened Wrappers

  type Token = nat
  type FamilyId = nat
  type UserId = nat
  type CallId = nat
  type Time = nat

  /** Seven days, in milliseconds. */
  const TOKEN_TTL_MS: nat := 604800000

  datatype Row = Row(
    user: UserId,
    family: FamilyId,
    expiresAt: Time,
    consumedAt: Option<Time>,
    revokedAt: Option<Time>)

  /** Rows by token: hashes are taken as injective. */
  type Table = map<Token, Row>

  /** What the rotation transaction finds. */
  datatype Outcome = Rotated(user: UserId) | Replayed(family: FamilyId) | Rejected

  function Find(tokens: Table, t: Token, now: Time): Outcome {
    if t !in tokens then Rejected
    else if tokens[t].consumedAt.Some? then Replayed(tokens[t].family)
    else if tokens[t].revokedAt.Some? || tokens[t].expiresAt <= now then Rejected
    else Rotated(tokens[t].user)
  }

  function Issue(tokens: Table, minted: Token, user: UserId, family: FamilyId, now: Time): Table {
    tokens[minted := Row(user, family, now + TOKEN_TTL_MS, None, None)]
  }

  /** The presented token consumed and its successor issued. */
  function Rotate(tokens: Table, t: Token, minted: Token, now: Time): Table
    requires t in tokens
  {
    Issue(tokens[t := tokens[t].(consumedAt := Some(now))], minted, tokens[t].user, tokens[t].family, now)
  }

  function Revoke(row: Row, at: Time): Row {
    if row.revokedAt.Some? then row else row.(revokedAt := Some(at))
  }

  function RevokeRows(tokens: Table, rows: set<Token>, at: Time): (r: Table)
    ensures r.Keys == tokens.Keys
  {
    map t | t in tokens :: if t in rows then Revoke(tokens[t], at) else tokens[t]
  }

  /** Whom a sweep is for: a replay or a logout sweeps a family, a password reset a user. */
  datatype Scope = OfFamily(family: FamilyId) | OfUser(user: UserId)

  predicate Covers(scope: Scope, row: Row) {
    match scope
    case OfFamily(f) => row.family == f
    case OfUser(u) => row.user == u
  }

  function CoveredRows(tokens: Table, scope: Scope): set<Token> {
    set t | t in tokens && Covers(scope, tokens[t])
  }

  // ---------- The machine ----------

  /** A rotation that has read its token usable and not yet written. */
  datatype Reading = Reading(token: Token, at: nat)

  /** A sweep under way: the rows it will reach. */
  datatype Sweeping = Sweeping(scope: Scope, rows: set<Token>, startedAt: nat)

  datatype Exchange = Exchange(family: FamilyId, token: Token, minted: Token, readAt: nat, wroteAt: nat)

  datatype Swept = Swept(scope: Scope, startedAt: nat, finishedAt: nat)

  /**
   * `tokens` are the committed rows, `pending` the sweeps decided on and not yet started.
   * `clock` counts steps; `born`, `roots`, `exchanges` and `swept` keep account of when
   * each row came, each family's first token, and what was exchanged and swept when.
   */
  datatype World = World(
    tokens: Table,
    pending: multiset<FamilyId>,
    readings: map<CallId, Reading>,
    sweeps: map<CallId, Sweeping>,
    clock: nat,
    born: map<Token, nat>,
    roots: map<FamilyId, Token>,
    exchanges: seq<Exchange>,
    swept: seq<Swept>)

  datatype Step =
    | Login(user: UserId, family: FamilyId, minted: Token, now: Time)
    | Read(c: CallId, token: Token, now: Time)
    | Write(c: CallId, minted: Token, at: Time)
    | Drop(c: CallId)
    | Logout(user: UserId, token: Token)
    | StartSweep(c: CallId, family: FamilyId)
    | StartReset(c: CallId, user: UserId)
    | FinishSweep(c: CallId, at: Time)
    | LoseSweep(family: FamilyId)
    | LoseStarted(c: CallId)

  function Begin(w: World, c: CallId, scope: Scope): World {
    w.(sweeps := w.sweeps[c := Sweeping(scope, CoveredRows(w.tokens, scope), w.clock)])
  }

  function Act(w: World, step: Step): World {
    match step
    case Login(u, f, minted, now) =>
      if minted in w.tokens || f in w.roots then w
      else w.(tokens := Issue(w.tokens, minted, u, f, now), born := w.born[minted := w.clock], roots := w.roots[f := minted])
    case Read(c, t, now) =>
      (match Find(w.tokens, t, now) {
         case Rejected => w
         case Replayed(f) => w.(pending := w.pending + multiset{f})
         case Rotated(_) => if c in w.readings then w else w.(readings := w.readings[c := Reading(t, w.clock)])
       })
    case Write(c, minted, at) =>
      if c !in w.readings || w.readings[c].token !in w.tokens then w
      else if minted in w.tokens then w.(readings := w.readings - {c})
      else
        var Reading(t, readAt) := w.readings[c];
        w.(tokens := Rotate(w.tokens, t, minted, at), born := w.born[minted := w.clock], readings := w.readings - {c},
           exchanges := w.exchanges + [Exchange(w.tokens[t].family, t, minted, readAt, w.clock)])
    case Drop(c) => w.(readings := w.readings - {c})
    case Logout(u, t) =>
      if t !in w.tokens || w.tokens[t].user != u then w
      else w.(pending := w.pending + multiset{w.tokens[t].family})
    case StartSweep(c, f) =>
      if f !in w.pending || c in w.sweeps then w
      else Begin(w, c, OfFamily(f)).(pending := w.pending - multiset{f})
    case StartReset(c, u) => if c in w.sweeps then w else Begin(w, c, OfUser(u))
    case FinishSweep(c, at) =>
      if c !in w.sweeps then w
      else
        var Sweeping(scope, rows, startedAt) := w.sweeps[c];
        w.(tokens := RevokeRows(w.tokens, rows, at), sweeps := w.sweeps - {c},
           swept := w.swept + [Swept(scope, startedAt, w.clock)])
    case LoseSweep(f) => w.(pending := w.pending - multiset{f})
    case LoseStarted(c) => w.(sweeps := w.sweeps - {c})
  }

  function Next(w: World, step: Step): World {
    Act(w, step).(clock := w.clock + 1)
  }

  function Run(w: World, steps: seq<Step>): World {
    if steps == [] then w else Next(Run(w, steps[..|steps| - 1]), steps[|steps| - 1])
  }

  const EMPTY := World(map[], multiset{}, map[], map[], 0, map[], map[], [], [])

  // ---------- What has happened to a row ----------

  ghost predicate WasExchanged(w: World, t: Token) {
    exists i :: 0 <= i < |w.exchanges| && w.exchanges[i].token == t
  }

  ghost predicate Minted(w: World, t: Token)
    requires t in w.born
  {
    exists i :: 0 <= i < |w.exchanges| && w.exchanges[i].minted == t && w.exchanges[i].wroteAt == w.born[t]
  }

  /** The sweep reached the row: it covers it, and started once the row was there. */
  predicate Reached(w: World, sweep: Swept, t: Token)
    requires t in w.tokens && t in w.born
  {
    Covers(sweep.scope, w.tokens[t]) && w.born[t] < sweep.startedAt
  }

  ghost predicate ReachedBySome(w: World, t: Token)
    requires t in w.tokens && t in w.born
  {
    exists k :: 0 <= k < |w.swept| && Reached(w, w.swept[k], t)
  }

  // ---------- The invariant ----------

  /** A row's stamps are its history. */
  ghost predicate StampsFit(w: World, t: Token)
    requires t in w.tokens && t in w.born
  {
    && w.born[t] < w.clock
    && (w.tokens[t].consumedAt.Some? <==> WasExchanged(w, t))
    && (w.tokens[t].revokedAt.Some? <==> ReachedBySome(w, t))
  }

  /** A row is its family's first, or came by an exchange; it is its family's user's. */
  ghost predicate OriginFits(w: World, t: Token)
    requires t in w.tokens && t in w.born
  {
    var f := w.tokens[t].family;
    && f in w.roots && w.roots[f] in w.tokens && w.roots[f] in w.born
    && w.tokens[w.roots[f]].family == f && w.tokens[w.roots[f]].user == w.tokens[t].user
    && w.born[w.roots[f]] <= w.born[t]
    && (t == w.roots[f] || Minted(w, t))
  }

  /** A token read at `at` was usable then: it had not been exchanged, and no sweep that reached it had finished. */
  ghost predicate WasUsable(w: World, t: Token, at: nat) {
    && t in w.tokens && t in w.born && w.born[t] < at < w.clock
    && (forall k :: 0 <= k < |w.swept| && Reached(w, w.swept[k], t) ==> at < w.swept[k].finishedAt)
  }

  ghost predicate ExchangeFits(w: World, x: Exchange) {
    && WasUsable(w, x.token, x.readAt) && x.readAt < x.wroteAt < w.clock
    && x.minted in w.tokens && x.minted in w.born && w.born[x.minted] == x.wroteAt
    && w.tokens[x.token].family == w.tokens[x.minted].family == x.family
  }

  ghost predicate ExchangesInOrder(w: World) {
    forall i, j :: 0 <= i < j < |w.exchanges| ==>
      && w.exchanges[i].wroteAt < w.exchanges[j].wroteAt
      && (w.exchanges[i].token == w.exchanges[j].token ==> w.exchanges[j].readAt < w.exchanges[i].wroteAt)
  }

  ghost predicate ReadFits(w: World, r: Reading) {
    WasUsable(w, r.token, r.at) &&
    forall i :: 0 <= i < |w.exchanges| && w.exchanges[i].token == r.token ==> r.at < w.exchanges[i].wroteAt
  }

  ghost predicate SweepFits(w: World, s: Sweeping) {
    s.startedAt < w.clock &&
    forall t :: t in s.rows <==> t in w.tokens && t in w.born && Covers(s.scope, w.tokens[t]) && w.born[t] < s.startedAt
  }

  ghost predicate RowsFit(w: World) {
    && w.born.Keys == w.tokens.Keys
    && (forall t :: t in w.tokens ==> StampsFit(w, t) && OriginFits(w, t))
    && (forall f :: f in w.roots ==> w.roots[f] in w.tokens && w.tokens[w.roots[f]].family == f)
  }

  ghost predicate ExchangesFit(w: World) {
    (forall i :: 0 <= i < |w.exchanges| ==> ExchangeFits(w, w.exchanges[i])) && ExchangesInOrder(w)
  }

  ghost predicate ReadingsFit(w: World) {
    forall c :: c in w.readings ==> ReadFits(w, w.readings[c])
  }

  ghost predicate SweptInOrder(w: World) {
    forall k :: 0 <= k < |w.swept| ==> w.swept[k].startedAt < w.swept[k].finishedAt < w.clock
  }

  ghost predicate SweepsFit(w: World) {
    (forall c :: c in w.sweeps ==> SweepFits(w, w.sweeps[c])) && SweptInOrder(w)
  }

  ghost predicate Inv(w: World) {
    RowsFit(w) && ExchangesFit(w) && ReadingsFit(w) && SweepsFit(w)
  }

  lemma RowAt(w: World, t: Token)
    requires Inv(w) && t in w.tokens
    ensures t in w.born && StampsFit(w, t) && OriginFits(w, t)
  {
  }

  lemma ExchangeAt(w: World, i: nat)
    requires Inv(w) && i < |w.exchanges|
    ensures ExchangeFits(w, w.exchanges[i])
  {
  }

  lemma ReadingAt(w: World, c: CallId)
    requires Inv(w) && c in w.readings
    ensures ReadFits(w, w.readings[c])
  {
  }

  lemma SweepAt(w: World, c: CallId)
    requires Inv(w) && c in w.sweeps
    ensures SweepFits(w, w.sweeps[c])
  {
  }

  /** Taken together. */
  lemma Assemble(w: World)
    requires w.born.Keys == w.tokens.Keys
    requires forall t :: t in w.tokens ==> StampsFit(w, t) && OriginFits(w, t)
    requires forall f :: f in w.roots ==> w.roots[f] in w.tokens && w.tokens[w.roots[f]].family == f
    requires forall i :: 0 <= i < |w.exchanges| ==> ExchangeFits(w, w.exchanges[i])
    requires ExchangesInOrder(w)
    requires forall c :: c in w.readings ==> ReadFits(w, w.readings[c])
    requires forall c :: c in w.sweeps ==> SweepFits(w, w.sweeps[c])
    requires SweptInOrder(w)
    ensures Inv(w)
  {
  }

  /** What holds of the accounts as a whole. */
  lemma Accounts(w: World)
    requires Inv(w)
    ensures w.born.Keys == w.tokens.Keys && ExchangesInOrder(w) && SweptInOrder(w)
    ensures forall f :: f in w.roots ==> w.roots[f] in w.tokens && w.tokens[w.roots[f]].family == f
  {
  }

  /** A step that touches no row and no account of rows. */
  lemma QuietInv(w: World, w': World)
    requires Inv(w) && w' == w.(pending := w'.pending, readings := w'.readings, sweeps := w'.sweeps, clock := w.clock + 1)
    requires forall c :: c in w'.readings ==> (c in w.readings && w'.readings[c] == w.readings[c]) || ReadFits(w', w'.readings[c])
    requires forall c :: c in w'.sweeps ==> (c in w.sweeps && w'.sweeps[c] == w.sweeps[c]) || SweepFits(w', w'.sweeps[c])
    ensures Inv(w')
  {
    hide Inv;
    Accounts(w);
    assert Extends(w, w') && SweptInOrder(w') && ExchangesInOrder(w');
    hide StampsFit, OriginFits, ExchangeFits, WasUsable, ReadFits, SweepFits, Extends, ExchangesInOrder, SweptInOrder;
    KeptAll(w, w');
    forall c | c in w'.readings ensures ReadFits(w', w'.readings[c]) {
      if c in w.readings { KeptReading(w, w', c); }
    }
    forall c | c in w'.sweeps ensures SweepFits(w', w'.sweeps[c]) {
      if c in w.sweeps { KeptSweep(w, w', c); }
    }
    Assemble(w');
  }

  /** Rows, and what is known of them, kept as they are; a row may have come. */
  ghost predicate Extends(w: World, w': World) {
    && w'.clock == w.clock + 1 && w'.exchanges == w.exchanges && w'.swept == w.swept
    && (forall s :: s in w.tokens && s in w.born ==> s in w'.tokens && w'.tokens[s] == w.tokens[s] && s in w'.born && w'.born[s] == w.born[s])
    && (forall s :: s in w'.tokens && s !in w.tokens ==> s in w'.born && w'.born[s] == w.clock)
    && (forall f :: f in w.roots ==> f in w'.roots && w'.roots[f] == w.roots[f])
  }

  lemma KeptRow(w: World, w': World, t: Token)
    requires Inv(w) && t in w.tokens && Extends(w, w')
    ensures t in w'.tokens && t in w'.born && StampsFit(w', t) && OriginFits(w', t)
  {
    hide Inv;
    RowAt(w, t);
    assert WasExchanged(w', t) == WasExchanged(w, t);
    if Minted(w, t) {
      var i :| 0 <= i < |w.exchanges| && w.exchanges[i].minted == t && w.exchanges[i].wroteAt == w.born[t];
      assert w'.exchanges[i].minted == t;
    }
    assert forall k :: 0 <= k < |w.swept| ==> Reached(w', w'.swept[k], t) == Reached(w, w.swept[k], t);
  }

  lemma KeptUsable(w: World, w': World, t: Token, at: nat)
    requires Extends(w, w') && WasUsable(w, t, at)
    ensures WasUsable(w', t, at) && w'.tokens[t] == w.tokens[t]
  {
    assert forall k :: 0 <= k < |w.swept| ==> Reached(w', w'.swept[k], t) == Reached(w, w.swept[k], t);
  }

  lemma KeptExchange(w: World, w': World, i: nat)
    requires Inv(w) && Extends(w, w') && i < |w.exchanges|
    ensures ExchangeFits(w', w'.exchanges[i])
  {
    hide Inv;
    ExchangeAt(w, i);
    KeptUsable(w, w', w.exchanges[i].token, w.exchanges[i].readAt);
    hide WasUsable;
  }

  lemma KeptReading(w: World, w': World, c: CallId)
    requires Inv(w) && Extends(w, w') && c in w.readings
    ensures ReadFits(w', w.readings[c])
  {
    hide Inv;
    ReadingAt(w, c);
    KeptUsable(w, w', w.readings[c].token, w.readings[c].at);
    hide WasUsable;
  }

  lemma KeptSweep(w: World, w': World, c: CallId)
    requires Inv(w) && Extends(w, w') && c in w.sweeps && w'.born.Keys == w'.tokens.Keys
    ensures SweepFits(w', w.sweeps[c])
  {
    hide Inv;
    SweepAt(w, c);
    Accounts(w);
  }

  lemma KeptAll(w: World, w': World)
    requires Inv(w) && Extends(w, w')
    ensures forall t :: t in w.tokens ==> t in w'.tokens && t in w'.born && StampsFit(w', t) && OriginFits(w', t)
    ensures forall i :: 0 <= i < |w.exchanges| ==> i < |w'.exchanges| && ExchangeFits(w', w'.exchanges[i])
  {
    hide Inv;
    hide StampsFit, OriginFits, ExchangeFits;
    forall t | t in w.tokens ensures t in w'.tokens && t in w'.born && StampsFit(w', t) && OriginFits(w', t) { KeptRow(w, w', t); }
    forall i | 0 <= i < |w.exchanges| ensures ExchangeFits(w', w'.exchanges[i]) { KeptExchange(w, w', i); }
  }

  // ---------- A new family ----------

  lemma LoginInv(w: World, step: Step)
    requires Inv(w) && step.Login? && step.minted !in w.tokens && step.family !in w.roots
    ensures Inv(Next(w, step))
  {
    hide Inv;
    var w', m := Next(w, step), step.minted;
    Accounts(w);
    assert Extends(w, w') && SweptInOrder(w') && ExchangesInOrder(w') && w'.born.Keys == w'.tokens.Keys;
    assert w'.sweeps == w.sweeps && w'.readings == w.readings && w'.roots == w.roots[step.family := m];
    NewRowUntouched(w, w', m);
    assert StampsFit(w', m) && OriginFits(w', m);
    hide StampsFit, OriginFits, ExchangeFits, WasUsable, ReadFits, SweepFits, Extends, ExchangesInOrder, SweptInOrder;
    KeptAll(w, w');
    forall c | c in w'.readings ensures ReadFits(w', w'.readings[c]) { KeptReading(w, w', c); }
    forall c | c in w'.sweeps ensures SweepFits(w', w'.sweeps[c]) { KeptSweep(w, w', c); }
    Assemble(w');
  }

  /** The row that just came: never exchanged, reached by no sweep that has finished. */
  lemma NewRowUntouched(w: World, w': World, m: Token)
    requires Inv(w) && m !in w.tokens && m in w'.tokens && m in w'.born && w'.born[m] == w.clock
    requires w'.exchanges == w.exchanges && w'.swept == w.swept
    ensures !WasExchanged(w', m) && !ReachedBySome(w', m)
  {
    hide Inv, Wrote;
    Accounts(w);
    forall i | 0 <= i < |w.exchanges| ensures w.exchanges[i].token != m { ExchangeAt(w, i); }
  }

  // ---------- An exchange ----------

  /** What a write leaves of the tables and accounts. */
  predicate Wrote(w: World, w': World, c: CallId, minted: Token, at: Time) {
    && c in w.readings && w.readings[c].token in w.tokens && minted !in w.tokens
    && w' == Next(w, Write(c, minted, at))
  }

  /** The same, row by row. */
  lemma WroteRows(w: World, w': World, c: CallId, minted: Token, at: Time)
    requires Wrote(w, w', c, minted, at)
    ensures c in w.readings && w.readings[c].token in w.tokens && minted !in w.tokens
    ensures var t := w.readings[c].token;
      && w'.clock == w.clock + 1 && w'.swept == w.swept && w'.roots == w.roots && w'.sweeps == w.sweeps
      && w'.readings == w.readings - {c}
      && w'.exchanges == w.exchanges + [Exchange(w.tokens[t].family, t, minted, w.readings[c].at, w.clock)]
      && w'.tokens.Keys == w.tokens.Keys + {minted} && w'.born == w.born[minted := w.clock]
      && w'.tokens[t] == w.tokens[t].(consumedAt := Some(at))
      && w'.tokens[minted] == Row(w.tokens[t].user, w.tokens[t].family, at + TOKEN_TTL_MS, None, None)
      && forall s :: s in w.tokens && s != t ==> w'.tokens[s] == w.tokens[s]
  {
  }

  lemma WriteStamps(w: World, w': World, c: CallId, minted: Token, at: Time, t: Token)
    requires Inv(w) && Wrote(w, w', c, minted, at) && t in w'.tokens && t in w'.born
    ensures StampsFit(w', t)
  {
    hide Inv, Wrote;
    WroteRows(w, w', c, minted, at);
    Accounts(w);
    ExchangedMore(w, w', t);
    if t == minted {
      forall i | 0 <= i < |w.exchanges| ensures w.exchanges[i].token != minted { ExchangeAt(w, i); }
    } else {
      RowAt(w, t);
      assert forall k :: 0 <= k < |w.swept| ==> Reached(w', w'.swept[k], t) == Reached(w, w.swept[k], t);
      assert ReachedBySome(w', t) == ReachedBySome(w, t);
    }
    hide OriginFits;
  }

  lemma WriteOrigin(w: World, w': World, c: CallId, minted: Token, at: Time, t: Token)
    requires Inv(w) && Wrote(w, w', c, minted, at) && t in w'.tokens && t in w'.born
    ensures OriginFits(w', t)
  {
    hide Inv, Wrote;
    WroteRows(w, w', c, minted, at);
    var n := |w.exchanges|;
    var s := if t == minted then w.readings[c].token else t;
    RowAt(w, s);
    if t == minted {
      assert w'.exchanges[n].minted == minted && w'.exchanges[n].wroteAt == w.clock;
    } else if Minted(w, t) {
      var i :| 0 <= i < n && w.exchanges[i].minted == t && w.exchanges[i].wroteAt == w.born[t];
      assert w'.exchanges[i] == w.exchanges[i];
    }
  }

  lemma ExchangedMore(w: World, w': World, t: Token)
    requires |w'.exchanges| == |w.exchanges| + 1 && w'.exchanges[..|w.exchanges|] == w.exchanges
    ensures WasExchanged(w', t) <==> WasExchanged(w, t) || w'.exchanges[|w.exchanges|].token == t
  {
    var n := |w.exchanges|;
    assert forall i :: 0 <= i < n ==> w'.exchanges[i] == w'.exchanges[..n][i];
    if WasExchanged(w, t) {
      var i :| 0 <= i < n && w.exchanges[i].token == t;
      assert w'.exchanges[i].token == t;
    }
  }

  lemma UsableKept(w: World, w': World, c: CallId, minted: Token, at: Time, t: Token, readAt: nat)
    requires Inv(w) && Wrote(w, w', c, minted, at) && WasUsable(w, t, readAt)
    ensures WasUsable(w', t, readAt) && w'.tokens[t].family == w.tokens[t].family && w'.born[t] == w.born[t]
  {
    hide Inv, Wrote;
    WroteRows(w, w', c, minted, at);
    assert forall k :: 0 <= k < |w.swept| ==> Reached(w', w'.swept[k], t) == Reached(w, w.swept[k], t);
  }

  lemma WriteExchange(w: World, w': World, c: CallId, minted: Token, at: Time, i: nat)
    requires Inv(w) && Wrote(w, w', c, minted, at) && i < |w'.exchanges|
    ensures ExchangeFits(w', w'.exchanges[i])
  {
    hide Inv, Wrote;
    WroteRows(w, w', c, minted, at);
    var n, r := |w.exchanges|, w.readings[c];
    if i < n {
      ExchangeAt(w, i);
      UsableKept(w, w', c, minted, at, w.exchanges[i].token, w.exchanges[i].readAt);
    } else {
      ReadingAt(w, c);
      UsableKept(w, w', c, minted, at, r.token, r.at);
    }
    hide WasUsable;
  }

  lemma WriteInOrder(w: World, w': World, c: CallId, minted: Token, at: Time)
    requires Inv(w) && Wrote(w, w', c, minted, at)
    ensures ExchangesInOrder(w')
  {
    hide Inv, Wrote;
    WroteRows(w, w', c, minted, at);
    Accounts(w);
    ReadingAt(w, c);
    var n := |w.exchanges|;
    hide WasUsable;
    forall i, j | 0 <= i < j < |w'.exchanges|
      ensures w'.exchanges[i].wroteAt < w'.exchanges[j].wroteAt
      ensures w'.exchanges[i].token == w'.exchanges[j].token ==> w'.exchanges[j].readAt < w'.exchanges[i].wroteAt
    {
      ExchangeAt(w, i);
      assert w'.exchanges[i] == w.exchanges[i];
      if j < n { assert w'.exchanges[j] == w.exchanges[j]; }
    }
  }

  lemma WriteReading(w: World, w': World, c: CallId, minted: Token, at: Time, d: CallId)
    requires Inv(w) && Wrote(w, w', c, minted, at) && d in w'.readings
    ensures ReadFits(w', w'.readings[d])
  {
    hide Inv, Wrote;
    WroteRows(w, w', c, minted, at);
    var r := w.readings[d];
    ReadingAt(w, d);
    UsableKept(w, w', c, minted, at, r.token, r.at);
    assert r.at < w.clock;
    hide WasUsable;
    forall i | 0 <= i < |w'.exchanges| && w'.exchanges[i].token == r.token ensures r.at < w'.exchanges[i].wroteAt {
      if i < |w.exchanges| { assert w'.exchanges[i] == w.exchanges[i]; }
    }
  }

  lemma WriteSweep(w: World, w': World, c: CallId, minted: Token, at: Time, d: CallId)
    requires Inv(w) && Wrote(w, w', c, minted, at) && d in w.sweeps
    ensures SweepFits(w', w.sweeps[d])
  {
    hide Inv, Wrote;
    WroteRows(w, w', c, minted, at);
    Accounts(w);
    SweepAt(w, d);
  }

  lemma WriteAccounts(w: World, w': World, c: CallId, minted: Token, at: Time)
    requires Inv(w) && Wrote(w, w', c, minted, at)
    ensures SweptInOrder(w') && w'.born.Keys == w'.tokens.Keys
    ensures w'.sweeps == w.sweeps
    ensures forall f :: f in w'.roots ==> w'.roots[f] in w'.tokens && w'.tokens[w'.roots[f]].family == f
  {
    hide Inv, Wrote, ExchangesInOrder;
    WroteRows(w, w', c, minted, at);
    Accounts(w);
  }

  lemma WriteInv(w: World, w': World, c: CallId, minted: Token, at: Time)
    requires Inv(w) && Wrote(w, w', c, minted, at)
    ensures Inv(w')
  {
    hide Inv, Wrote, Finished, StampsFit, OriginFits, ExchangeFits, ReadFits, SweepFits, ExchangesInOrder, SweptInOrder;
    WriteAccounts(w, w', c, minted, at);
    forall t | t in w'.tokens ensures t in w'.born && StampsFit(w', t) && OriginFits(w', t) {
      WriteStamps(w, w', c, minted, at, t);
      WriteOrigin(w, w', c, minted, at, t);
    }
    forall i | 0 <= i < |w'.exchanges| ensures ExchangeFits(w', w'.exchanges[i]) { WriteExchange(w, w', c, minted, at, i); }
    WriteInOrder(w, w', c, minted, at);
    forall d | d in w'.readings ensures ReadFits(w', w'.readings[d]) { WriteReading(w, w', c, minted, at, d); }
    forall d | d in w'.sweeps ensures SweepFits(w', w'.sweeps[d]) { WriteSweep(w, w', c, minted, at, d); }
    Assemble(w');
  }

  // ---------- A sweep ----------

  predicate Finished(w: World, w': World, c: CallId, at: Time) {
    c in w.sweeps && w' == Next(w, FinishSweep(c, at))
  }

  lemma FinishedRows(w: World, w': World, c: CallId, at: Time)
    requires Finished(w, w', c, at)
    ensures c in w.sweeps
    ensures w'.clock == w.clock + 1 && w'.exchanges == w.exchanges && w'.roots == w.roots && w'.born == w.born
    ensures w'.readings == w.readings && w'.sweeps == w.sweeps - {c}
    ensures w'.swept == w.swept + [Swept(w.sweeps[c].scope, w.sweeps[c].startedAt, w.clock)]
    ensures w'.tokens.Keys == w.tokens.Keys
    ensures forall t :: t in w.tokens ==> w'.tokens[t] == if t in w.sweeps[c].rows then Revoke(w.tokens[t], at) else w.tokens[t]
  {
  }

  lemma FinishStamps(w: World, w': World, c: CallId, at: Time, t: Token)
    requires Inv(w) && Finished(w, w', c, at) && t in w.tokens && t in w'.born
    ensures t in w'.tokens && StampsFit(w', t)
  {
    hide Inv, Finished;
    FinishedRows(w, w', c, at);
    SweepAt(w, c);
    RowAt(w, t);
    hide OriginFits;
    var n := |w.swept|;
    assert w'.swept[n] == Swept(w.sweeps[c].scope, w.sweeps[c].startedAt, w.clock);
    assert Reached(w', w'.swept[n], t) <==> t in w.sweeps[c].rows;
    ReachedMore(w, w', t);
    assert WasExchanged(w', t) == WasExchanged(w, t);
    hide WasExchanged, ReachedBySome, Reached;
  }

  lemma FinishOrigin(w: World, w': World, c: CallId, at: Time, t: Token)
    requires Inv(w) && Finished(w, w', c, at) && t in w.tokens && t in w'.born
    ensures t in w'.tokens && OriginFits(w', t)
  {
    hide Inv, Finished;
    FinishedRows(w, w', c, at);
    RowAt(w, t);
    hide StampsFit;
    assert Minted(w', t) == Minted(w, t);
  }

  lemma ReachedMore(w: World, w': World, t: Token)
    requires t in w.tokens && t in w.born && t in w'.tokens && t in w'.born && w'.born[t] == w.born[t]
    requires w'.tokens[t].family == w.tokens[t].family && w'.tokens[t].user == w.tokens[t].user
    requires |w'.swept| == |w.swept| + 1 && forall k :: 0 <= k < |w.swept| ==> w'.swept[k] == w.swept[k]
    ensures ReachedBySome(w', t) <==> ReachedBySome(w, t) || Reached(w', w'.swept[|w.swept|], t)
  {
    if ReachedBySome(w, t) {
      var k :| 0 <= k < |w.swept| && Reached(w, w.swept[k], t);
      assert Reached(w', w'.swept[k], t);
    }
    if k :| 0 <= k < |w'.swept| && Reached(w', w'.swept[k], t) {
      if k < |w.swept| { assert Reached(w, w.swept[k], t); }
    }
  }

  lemma UsableAfterSweep(w: World, w': World, c: CallId, at: Time, t: Token, readAt: nat)
    requires Inv(w) && Finished(w, w', c, at) && WasUsable(w, t, readAt)
    ensures WasUsable(w', t, readAt) && w'.tokens[t].family == w.tokens[t].family
  {
    hide Inv, Finished;
    FinishedRows(w, w', c, at);
    forall k | 0 <= k < |w'.swept| && Reached(w', w'.swept[k], t) ensures readAt < w'.swept[k].finishedAt {
      if k < |w.swept| { assert w'.swept[k] == w.swept[k] && Reached(w, w.swept[k], t); }
    }
  }

  lemma FinishExchange(w: World, w': World, c: CallId, at: Time, i: nat)
    requires Inv(w) && Finished(w, w', c, at) && i < |w.exchanges|
    ensures i < |w'.exchanges| && ExchangeFits(w', w'.exchanges[i])
  {
    hide Inv, Finished;
    FinishedRows(w, w', c, at);
    ExchangeAt(w, i);
    UsableAfterSweep(w, w', c, at, w.exchanges[i].token, w.exchanges[i].readAt);
    hide WasUsable;
  }

  lemma FinishReading(w: World, w': World, c: CallId, at: Time, d: CallId)
    requires Inv(w) && Finished(w, w', c, at) && d in w.readings
    ensures ReadFits(w', w.readings[d])
  {
    hide Inv, Finished;
    FinishedRows(w, w', c, at);
    ReadingAt(w, d);
    UsableAfterSweep(w, w', c, at, w.readings[d].token, w.readings[d].at);
    hide WasUsable;
  }

  lemma FinishOthers(w: World, w': World, c: CallId, at: Time, d: CallId)
    requires Inv(w) && Finished(w, w', c, at) && d in w.sweeps
    ensures SweepFits(w', w.sweeps[d]) && SweptInOrder(w')
  {
    hide Inv, Finished;
    FinishedRows(w, w', c, at);
    SweepAt(w, c);
    SweepAt(w, d);
    Accounts(w);
  }

  lemma FinishInv(w: World, w': World, c: CallId, at: Time)
    requires Inv(w) && Finished(w, w', c, at)
    ensures Inv(w')
  {
    hide Inv, Finished;
    FinishedRows(w, w', c, at);
    Accounts(w);
    assert ExchangesInOrder(w');
    hide StampsFit, OriginFits, ExchangeFits, ReadFits, SweepFits, ExchangesInOrder, SweptInOrder;
    forall t | t in w'.tokens ensures StampsFit(w', t) && OriginFits(w', t) {
      FinishStamps(w, w', c, at, t);
      FinishOrigin(w, w', c, at, t);
    }
    forall i | 0 <= i < |w'.exchanges| ensures ExchangeFits(w', w'.exchanges[i]) { FinishExchange(w, w', c, at, i); }
    forall d | d in w'.readings ensures ReadFits(w', w'.readings[d]) { FinishReading(w, w', c, at, d); }
    forall d | d in w'.sweeps ensures SweepFits(w', w'.sweeps[d]) { FinishOthers(w, w', c, at, d); }
    FinishOthers(w, w', c, at, c);
    Assemble(w');
  }

  // ---------- Every step ----------

  /** What `Find` calls usable has neither been exchanged nor reached. */
  lemma UsableNow(w: World, t: Token, now: Time)
    requires Inv(w)
    ensures Find(w.tokens, t, now).Rotated? <==>
            t in w.tokens && t in w.born && !WasExchanged(w, t) && !ReachedBySome(w, t) && now < w.tokens[t].expiresAt
  {
    hide Inv;
    if t in w.tokens { RowAt(w, t); }
    Accounts(w);
    hide WasExchanged, ReachedBySome;
  }

  lemma ReadInv(w: World, step: Step)
    requires Inv(w) && step.Read?
    ensures Inv(Next(w, step))
  {
    hide Inv;
    var w' := Next(w, step);
    UsableNow(w, step.token, step.now);
    if Find(w.tokens, step.token, step.now).Rotated? && step.c !in w.readings {
      RowAt(w, step.token);
      assert forall k :: 0 <= k < |w.swept| ==> Reached(w', w'.swept[k], step.token) == Reached(w, w.swept[k], step.token);
      assert ReadFits(w', w'.readings[step.c]);
    }
    hide ReadFits, WasUsable;
    QuietInv(w, w');
  }

  lemma StartInv(w: World, step: Step)
    requires Inv(w) && (step.StartSweep? || step.StartReset?)
    ensures Inv(Next(w, step))
  {
    hide Inv;
    var w' := Next(w, step);
    Accounts(w);
    forall t | t in w.tokens ensures t in w.born && w.born[t] < w.clock {
      RowAt(w, t);
    }
    assert step.c in w'.sweeps && step.c !in w.sweeps ==> SweepFits(w', w'.sweeps[step.c]);
    hide SweepFits;
    QuietInv(w, w');
  }

  /** A step that comes too late, or only opens or closes a call. */
  lemma OtherInv(w: World, step: Step)
    requires Inv(w) && !step.Read? && !step.StartSweep? && !step.StartReset?
    requires step.Login? ==> step.minted in w.tokens || step.family in w.roots
    requires step.Write? ==> step.c !in w.readings || w.readings[step.c].token !in w.tokens || step.minted in w.tokens
    requires step.FinishSweep? ==> step.c !in w.sweeps
    ensures Inv(Next(w, step))
  {
    hide Inv, Find, Rotate, Issue, RevokeRows, CoveredRows, ReadFits, SweepFits;
    QuietInv(w, Next(w, step));
  }

  lemma StepInv(w: World, step: Step)
    requires Inv(w)
    ensures Inv(Next(w, step))
  {
    if step.Read? {
      ReadInv(w, step);
    } else if step.StartSweep? || step.StartReset? {
      StartInv(w, step);
    } else if step.Login? && step.minted !in w.tokens && step.family !in w.roots {
      LoginInv(w, step);
    } else if step.Write? && step.c in w.readings && w.readings[step.c].token in w.tokens && step.minted !in w.tokens {
      WriteInv(w, Next(w, step), step.c, step.minted, step.at);
    } else if step.FinishSweep? && step.c in w.sweeps {
      FinishInv(w, Next(w, step), step.c, step.at);
    } else {
      OtherInv(w, step);
    }
    hide Inv, Next;
  }

  lemma {:induction false} InvInEveryRun(w: World, steps: seq<Step>)
    requires Inv(w)
    ensures Inv(Run(w, steps))
    decreases |steps|
  {
    hide Inv;
    hide Next;
    if steps != [] {
      InvInEveryRun(w, steps[..|steps| - 1]);
      StepInv(Run(w, steps[..|steps| - 1]), steps[|steps| - 1]);
    }
  }

  // ---------- What calls for a sweep ----------

  /** A replay calls for a sweep of its family, and so does a logout with one's own token; nothing else happens then. */
  lemma ReplayCallsForASweep(w: World, c: CallId, t: Token, now: Time)
    requires t in w.tokens && w.tokens[t].consumedAt.Some?
    ensures Next(w, Read(c, t, now)) == w.(pending := w.pending + multiset{w.tokens[t].family}, clock := w.clock + 1)
    ensures Next(w, Logout(w.tokens[t].user, t)) == w.(pending := w.pending + multiset{w.tokens[t].family}, clock := w.clock + 1)
  {
  }

  // ---------- The service as an object ----------

  datatype Rotation = Exchanged(user: UserId) | Unauthorized | Thrown

  class RefreshTokenService {
    var tokens: Table

    /** A new family; the unique hash is the database's. */
    method IssueForNewSession(user: UserId, family: FamilyId, minted: Token, now: Time) returns (issued: bool)
      modifies this
      ensures issued <==> minted !in old(tokens)
      ensures tokens == if issued then Issue(old(tokens), minted, user, family, now) else old(tokens)
      ensures issued ==> forall t: Time :: Find(tokens, minted, t) == if t < now + 7 * 24 * 60 * 60 * 1000 then Rotated(user) else Rejected
    {
      if minted in tokens {
        return false;
      }
      tokens := tokens[minted := Row(user, family, now + TOKEN_TTL_MS, None, None)];
      return true;
    }

    /** The transaction reports a replay instead of throwing, and the sweep runs once it has committed. */
    method RotateToken(presented: Token, minted: Token, now: Time, at: Time) returns (r: Rotation)
      modifies this
      ensures match Find(old(tokens), presented, now)
              case Rejected => r == Unauthorized && tokens == old(tokens)
              case Replayed(f) => r == Unauthorized && tokens == RevokeRows(old(tokens), CoveredRows(old(tokens), OfFamily(f)), at)
              case Rotated(user) =>
                if minted in old(tokens) then r == Thrown && tokens == old(tokens)
                else r == Rotation.Exchanged(user) && tokens == Rotate(old(tokens), presented, minted, now)
      ensures r.Exchanged? <==>
                && presented in old(tokens) && minted !in old(tokens) && now < old(tokens)[presented].expiresAt
                && old(tokens)[presented].consumedAt.None? && old(tokens)[presented].revokedAt.None?
      ensures r.Exchanged? ==>
                && presented in old(tokens) && r.user == old(tokens)[presented].user && minted in tokens && tokens[minted].family == old(tokens)[presented].family
                && (forall t: Time :: Find(tokens, minted, t) == if t < now + 7 * 24 * 60 * 60 * 1000 then Rotated(r.user) else Rejected)
                && (forall t: Time :: Find(tokens, presented, t) == Replayed(old(tokens)[presented].family))
                && forall s :: s in old(tokens) && s != presented ==> s in tokens && tokens[s] == old(tokens)[s]
    {
      if presented !in tokens {
        return Unauthorized;
      }
      var existing := tokens[presented];
      if existing.consumedAt.Some? {
        RevokeFamily(existing.family, at);
        return Unauthorized;
      }
      if existing.revokedAt.Some? || existing.expiresAt <= now {
        return Unauthorized;
      }
      var before := tokens;
      tokens := tokens[presented := existing.(consumedAt := Some(now))];
      var issued := IssueForNewSession(existing.user, existing.family, minted, now);
      if !issued {
        tokens := before;
        return Thrown;
      }
      return Rotation.Exchanged(existing.user);
    }

    method RevokeSession(user: UserId, presented: Token, at: Time)
      modifies this
      ensures tokens ==
              if presented in old(tokens) && old(tokens)[presented].user == user
              then RevokeRows(old(tokens), CoveredRows(old(tokens), OfFamily(old(tokens)[presented].family)), at) else old(tokens)
    {
      if presented !in tokens || tokens[presented].user != user {
        return;
      }
      RevokeFamily(tokens[presented].family, at);
    }

    /** No session of the user is left; nobody else's moved, and no earlier revocation did. */
    method RevokeAllSessions(user: UserId, at: Time)
      modifies this
      ensures tokens.Keys == old(tokens).Keys
      ensures forall t :: t in tokens && tokens[t].user == user ==>
                && tokens[t].revokedAt == (if old(tokens)[t].revokedAt.Some? then old(tokens)[t].revokedAt else Some(at))
                && tokens[t] == old(tokens)[t].(revokedAt := tokens[t].revokedAt)
      ensures forall t :: t in tokens && tokens[t].user != user ==> tokens[t] == old(tokens)[t]
      ensures forall t, now :: t in tokens && tokens[t].user == user ==> !Find(tokens, t, now).Rotated?
    {
      tokens := map t | t in tokens ::
        if tokens[t].user == user && tokens[t].revokedAt.None? then tokens[t].(revokedAt := Some(at)) else tokens[t];
    }

    /** No token of the family rotates any more; no other family moved, and no earlier revocation did. */
    method RevokeFamily(family: FamilyId, at: Time)
      modifies this
      ensures tokens == RevokeRows(old(tokens), CoveredRows(old(tokens), OfFamily(family)), at)
      ensures forall t :: t in tokens && tokens[t].family == family ==>
                && tokens[t].revokedAt == (if old(tokens)[t].revokedAt.Some? then old(tokens)[t].revokedAt else Some(at))
                && tokens[t] == old(tokens)[t].(revokedAt := tokens[t].revokedAt)
      ensures forall t :: t in tokens && tokens[t].family != family ==> tokens[t] == old(tokens)[t]
      ensures forall t, now :: t in tokens && tokens[t].family == family ==> !Find(tokens, t, now).Rotated?
    {
      tokens := map t | t in tokens ::
        if tokens[t].family == family && tokens[t].revokedAt.None? then tokens[t].(revokedAt := Some(at)) else tokens[t];
    }
  }

  /** The machine with nobody else about does what the object does: a rotation read and written at once. */
  lemma RotationAlone(w: World, t: Token, c: CallId, minted: Token, now: Time)
    requires c !in w.readings && Find(w.tokens, t, now).Rotated? && minted !in w.tokens
    ensures Next(Next(w, Read(c, t, now)), Write(c, minted, now)).tokens == Rotate(w.tokens, t, minted, now)
  {
    assert Next(w, Read(c, t, now)) == w.(readings := w.readings[c := Reading(t, w.clock)], clock := w.clock + 1);
  }
}
