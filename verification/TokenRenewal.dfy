/**
 * getValidAccessToken: double-checked locking over a marketplace credential row whose
 * refresh token may be used once, with any number of callers, disconnections and
 * re-authorisations at once. Serves the three connectors: Mercado Livre and Shopee
 * rotate the refresh token on every exchange, Amazon may keep it.
 */
module TokenRenewal {
  import opened Wrappers
  import opened Seqs

  type CallerId = nat
  type Token = nat
  type Time = nat

  /** Five minutes, in milliseconds. */
  const MARGIN_MS: nat := 300000

  datatype Credentials = Credentials(access: Token, refresh: Token)

  /** The credential row: disconnecting blanks the credentials and the expiry. */
  datatype Row = Row(active: bool, credentials: Option<Credentials>, expiresAt: Option<Time>)

  /** The marketplace's answer to an exchange; `rotated` is absent when it keeps the refresh token. */
  datatype Answer = Answer(access: Token, rotated: Option<Token>, lifetime: nat)

  datatype Reading = Fresh(token: Token) | Refuse | Stale(refresh: Token)

  /** Both checks, before and under the lock: refuse, hand back a token good beyond the margin, or renew. */
  function Check(row: Option<Row>, now: Time): Reading {
    if row.None? || !row.value.active || row.value.credentials.None? then Refuse
    else if row.value.expiresAt.Some? && row.value.expiresAt.value > now + MARGIN_MS then
      Fresh(row.value.credentials.value.access)
    else Stale(row.value.credentials.value.refresh)
  }

  /** The row a renewal writes. */
  function Renewed(row: Row, answer: Answer, now: Time): Row
    requires row.credentials.Some?
  {
    var refresh := if answer.rotated.Some? then answer.rotated.value else row.credentials.value.refresh;
    Row(true, Some(Credentials(answer.access, refresh)), Some(now + answer.lifetime))
  }

  const DISCONNECTED := Row(false, None, None)

  datatype Caller =
    | Waiting
    | Exchanging(refresh: Token, lockedAt: Time)
    | Writing(spent: Token, answer: Answer, lockedAt: Time)
    | Returned(token: Token)
    | Unavailable

  /** An access token granted until `expiresAt`: by a renewal that read the row at `lockedAt`, or by a re-authorisation. */
  datatype Grant = Grant(renewal: bool, lockedAt: Time, access: Token, expiresAt: Time)

  /**
   * `spent` are the refresh tokens the marketplace has exchanged and will not take again,
   * `replayed` those presented to it after that; `known` every refresh token it ever
   * handed out. `mislaid` records a rotation whose result never reached the row, `expired`
   * a transaction rolled back, its lock gone, with its exchange still on the way.
   */
  datatype World = World(
    row: Option<Row>,
    holder: Option<CallerId>,
    callers: map<CallerId, Caller>,
    now: Time,
    known: set<Token>,
    spent: set<Token>,
    replayed: set<Token>,
    grants: seq<Grant>,
    mislaid: bool,
    expired: bool)

  datatype Step =
    | Tick(elapsed: nat)
    | Arrive(c: CallerId)
    | TakeLock(c: CallerId)
    | Exchange(c: CallerId, answer: Answer)
    | ExchangeRefused(c: CallerId)
    | ExchangeLost(c: CallerId)
    | Commit(c: CallerId)
    | CommitLost(c: CallerId)
    | Expire(c: CallerId)
    | Disconnect
    | Reauthorise(credentials: Credentials, lifetime: nat)

  function Finish(w: World, c: CallerId, outcome: Caller): World {
    w.(callers := w.callers[c := outcome], holder := if w.holder == Some(c) then None else w.holder)
  }

  /** Whether `token` is new to the marketplace. */
  predicate New(w: World, token: Token) {
    token !in w.known && token !in w.spent
  }

  /** The request is on its way, and arrives whether or not the lock is still held. */
  predicate Presents(w: World, c: CallerId) {
    c in w.callers && w.callers[c].Exchanging?
  }

  predicate Writes(w: World, c: CallerId) {
    c in w.callers && w.callers[c].Writing?
  }

  function Next(w: World, step: Step): World {
    match step
    case Tick(elapsed) => w.(now := w.now + elapsed)
    case Arrive(c) =>
      if c in w.callers then w
      else
        var next :=
          match Check(w.row, w.now) {
            case Refuse => Unavailable
            case Fresh(token) => Returned(token)
            case Stale(_) => Waiting
          };
        w.(callers := w.callers[c := next])
    case TakeLock(c) =>
      if c !in w.callers || !w.callers[c].Waiting? || w.holder.Some? then w
      else
        match Check(w.row, w.now) {
          case Refuse => Finish(w, c, Unavailable)
          case Fresh(token) => Finish(w, c, Returned(token))
          case Stale(refresh) => w.(callers := w.callers[c := Exchanging(refresh, w.now)], holder := Some(c))
        }
    case Exchange(c, answer) =>
      if !Presents(w, c) then w
      else
        var Exchanging(refresh, lockedAt) := w.callers[c];
        if refresh in w.spent then Finish(w, c, Unavailable).(replayed := w.replayed + {refresh})
        else if answer.rotated.Some? && !New(w, answer.rotated.value) then w
        else
          w.(callers := w.callers[c := Writing(refresh, answer, lockedAt)],
             spent := if answer.rotated.Some? then w.spent + {refresh} else w.spent,
             known := if answer.rotated.Some? then w.known + {answer.rotated.value} else w.known)
    case ExchangeRefused(c) =>
      if !Presents(w, c) then w
      else
        var refresh := w.callers[c].refresh;
        Finish(w, c, Unavailable).(replayed := if refresh in w.spent then w.replayed + {refresh} else w.replayed)
    case ExchangeLost(c) =>
      if !Presents(w, c) then w
      else
        var refresh := w.callers[c].refresh;
        Finish(w, c, Unavailable).(
          replayed := if refresh in w.spent then w.replayed + {refresh} else w.replayed,
          spent := w.spent + {refresh}, mislaid := true)
    case Commit(c) =>
      if !Writes(w, c) then w
      else if w.holder != Some(c) then Finish(w, c, Unavailable).(mislaid := w.mislaid || w.callers[c].answer.rotated.Some?)
      else if w.row.None? || w.row.value.credentials.None? then w
      else
        var Writing(_, answer, lockedAt) := w.callers[c];
        Finish(w, c, Returned(answer.access)).(
          row := Some(Renewed(w.row.value, answer, w.now)),
          grants := w.grants + [Grant(true, lockedAt, answer.access, w.now + answer.lifetime)])
    case CommitLost(c) =>
      if !Writes(w, c) then w
      else Finish(w, c, Unavailable).(mislaid := w.mislaid || w.callers[c].answer.rotated.Some?)
    case Expire(c) =>
      if !Presents(w, c) || w.holder != Some(c) then w else w.(holder := None, expired := true)
    case Disconnect => if w.holder.Some? || w.row.None? then w else w.(row := Some(DISCONNECTED))
    case Reauthorise(credentials, lifetime) =>
      if w.holder.Some? || !New(w, credentials.refresh) then w
      else
        w.(row := Some(Row(true, Some(credentials), Some(w.now + lifetime))),
           known := w.known + {credentials.refresh},
           grants := w.grants + [Grant(false, w.now, credentials.access, w.now + lifetime)])
  }

  function Run(w: World, steps: seq<Step>): World {
    if steps == [] then w else Next(Run(w, steps[..|steps| - 1]), steps[|steps| - 1])
  }

  /** No integration yet. */
  function Opening(now: Time): World {
    World(None, None, map[], now, {}, {}, {}, [], false, false)
  }

  // ---------- The invariant ----------

  predicate HoldsLock(caller: Caller) {
    caller.Exchanging? || caller.Writing?
  }

  /** The row cannot move under the caller that holds its lock. */
  predicate LockFits(w: World, caller: Caller) {
    && w.row.Some? && w.row.value.active && w.row.value.credentials.Some? && w.grants != []
    && match caller
       case Exchanging(refresh, lockedAt) =>
         && refresh == w.row.value.credentials.value.refresh
         && lockedAt <= w.now && lockedAt + MARGIN_MS >= w.grants[|w.grants| - 1].expiresAt
       case Writing(spent, answer, lockedAt) =>
         && spent == w.row.value.credentials.value.refresh
         && lockedAt <= w.now && lockedAt + MARGIN_MS >= w.grants[|w.grants| - 1].expiresAt
         && (answer.rotated.Some? ==> answer.rotated.value in w.known && answer.rotated.value !in w.spent)
         && (answer.rotated.None? ==> spent !in w.spent || w.mislaid || w.expired)
         && (answer.rotated.Some? ==> spent in w.spent)
       case _ => true
  }

  /** Each renewal read the row within the margin of the expiry granted before it. */
  ghost predicate GrantsSpaced(grants: seq<Grant>) {
    forall i :: 0 < i < |grants| && grants[i].renewal ==> grants[i].lockedAt + MARGIN_MS >= grants[i - 1].expiresAt
  }

  predicate LockInv(w: World) {
    w.holder.Some? ==> w.holder.value in w.callers && HoldsLock(w.callers[w.holder.value]) && LockFits(w, w.callers[w.holder.value])
  }

  predicate RowInv(w: World) {
    && (w.row.Some? && w.row.value.active ==>
          && w.row.value.credentials.Some? && w.row.value.credentials.value.refresh in w.known && w.grants != []
          && w.row.value.expiresAt == Some(w.grants[|w.grants| - 1].expiresAt)
          && w.row.value.credentials.value.access == w.grants[|w.grants| - 1].access)
    && (w.row.Some? && !w.row.value.active ==> w.row.value == DISCONNECTED)
  }

  /** The lock is held by a rotation that has been answered and not yet written. */
  predicate Rotating(w: World) {
    w.holder.Some? && w.holder.value in w.callers && w.callers[w.holder.value].Writing? && w.callers[w.holder.value].answer.rotated.Some?
  }

  /** What a request presents was handed out once. */
  ghost predicate RequestsKnown(w: World) {
    w.spent <= w.known && forall c :: Presents(w, c) ==> w.callers[c].refresh in w.known
  }

  /** Only an expired transaction leaves a call without its lock. */
  ghost predicate NoOrphans(w: World) {
    !w.expired ==> forall c :: c in w.callers && HoldsLock(w.callers[c]) ==> w.holder == Some(c)
  }

  /** And nobody has a token that is still to be written. */
  ghost predicate UnwrittenUnseen(w: World) {
    Rotating(w) ==> forall c :: Presents(w, c) ==> w.callers[c].refresh != w.callers[w.holder.value].answer.rotated.value
  }

  ghost predicate RequestsInv(w: World) {
    RequestsKnown(w) && NoOrphans(w) && UnwrittenUnseen(w)
  }

  /** Without mishap nothing is replayed, and a used token is in the row only while its successor is being written. */
  predicate Unspoilt(w: World) {
    !w.mislaid && !w.expired ==>
      && w.replayed == {}
      && (w.row.Some? && w.row.value.active && w.row.value.credentials.Some? && w.row.value.credentials.value.refresh in w.spent ==>
            Rotating(w))
  }

  ghost predicate Inv(w: World) {
    LockInv(w) && RowInv(w) && RequestsInv(w) && Unspoilt(w) && GrantsSpaced(w.grants)
  }

  lemma StepLock(w: World, step: Step)
    requires LockInv(w) && RowInv(w) && RequestsInv(w)
    ensures LockInv(Next(w, step))
  {
    match step {
      case Exchange(_, _) =>
      case ExchangeLost(_) =>
      case Commit(_) =>
      case TakeLock(_) =>
      case _ =>
    }
  }

  lemma StepRow(w: World, step: Step)
    requires LockInv(w) && RowInv(w) && RequestsInv(w)
    ensures RowInv(Next(w, step))
  {
  }

  lemma StepKnown(w: World, step: Step)
    requires RowInv(w) && RequestsKnown(w)
    ensures RequestsKnown(Next(w, step))
  {
  }

  lemma StepOrphans(w: World, step: Step)
    requires NoOrphans(w)
    ensures NoOrphans(Next(w, step))
  {
  }

  lemma StepUnwritten(w: World, step: Step)
    requires RequestsKnown(w) && UnwrittenUnseen(w)
    ensures UnwrittenUnseen(Next(w, step))
  {
  }

  lemma StepUnspoilt(w: World, step: Step)
    requires LockInv(w) && RowInv(w) && RequestsInv(w) && Unspoilt(w)
    ensures Unspoilt(Next(w, step))
  {
    match step {
      case Exchange(_, _) =>
      case Commit(_) =>
      case TakeLock(_) =>
      case _ =>
    }
  }

  lemma StepGrants(w: World, step: Step)
    requires LockInv(w) && GrantsSpaced(w.grants)
    ensures GrantsSpaced(Next(w, step).grants)
  {
  }

  lemma StepInv(w: World, step: Step)
    requires Inv(w)
    ensures Inv(Next(w, step))
  {
    StepLock(w, step);
    StepRow(w, step);
    StepKnown(w, step);
    StepOrphans(w, step);
    StepUnwritten(w, step);
    StepUnspoilt(w, step);
    StepGrants(w, step);
    hide Next, LockInv, RowInv, RequestsKnown, NoOrphans, UnwrittenUnseen, Unspoilt, GrantsSpaced;
  }

  lemma {:induction false} InvInEveryRun(now: Time, steps: seq<Step>)
    ensures Inv(Run(Opening(now), steps))
    decreases |steps|
  {
    if steps != [] {
      InvInEveryRun(now, steps[..|steps| - 1]);
      StepInv(Run(Opening(now), steps[..|steps| - 1]), steps[|steps| - 1]);
    }
  }

  // ---------- Main results ----------

  /**
   * No refresh token is ever presented after the marketplace has exchanged it, by any
   * number of callers, as long as every rotation reaches its row and no lock expires
   * under an exchange.
   */
  lemma NeverReplayed(now: Time, steps: seq<Step>)
    requires Unmarred(Run(Opening(now), steps))
    ensures Run(Opening(now), steps).replayed == {}
  {
    InvInEveryRun(now, steps);
  }

  /** While a granted lifetime is beyond the margin nobody exchanges again: renewals are that far apart. */
  lemma RenewalsAreSpaced(now: Time, steps: seq<Step>, i: nat)
    ensures var grants := Run(Opening(now), steps).grants;
      0 < i < |grants| && grants[i].renewal ==> grants[i].lockedAt + MARGIN_MS >= grants[i - 1].expiresAt
  {
    InvInEveryRun(now, steps);
  }

  /** A caller that waited behind such a renewal gets its token, and the marketplace hears nothing. */
  lemma WaiterReusesRenewal(w: World, c: CallerId)
    requires Inv(w) && c in w.callers && w.callers[c].Waiting? && w.holder.None?
    requires w.row.Some? && w.row.value.active
    ensures var w', last := Next(w, TakeLock(c)), w.grants[|w.grants| - 1];
      if last.expiresAt > w.now + MARGIN_MS
      then w'.callers[c] == Returned(last.access) && w'.row == w.row && w'.holder == None
      else w'.callers[c] == Exchanging(w.row.value.credentials.value.refresh, w.now) && w'.holder == Some(c)
  {
  }

  /**
   * In every run, whoever gets a token gets the last one granted: by its own renewal, or
   * off the row, at arrival or after waiting, and then valid beyond the margin.
   */
  lemma ReturnsTheLastGrant(now: Time, steps: seq<Step>, step: Step, c: CallerId)
    requires var w := Run(Opening(now), steps);
      c in Next(w, step).callers && Next(w, step).callers[c].Returned? && (c !in w.callers || !w.callers[c].Returned?)
    ensures var w, w' := Run(Opening(now), steps), Next(Run(Opening(now), steps), step);
      && w'.grants != [] && w'.callers[c].token == w'.grants[|w'.grants| - 1].access
      && (step != Commit(c) ==> w'.grants == w.grants && w'.grants[|w'.grants| - 1].expiresAt > w.now + MARGIN_MS)
  {
    InvInEveryRun(now, steps);
    hide Run;
  }

  predicate Disconnected(w: World) {
    w.row == Some(DISCONNECTED)
  }

  predicate NoReauthorisation(steps: seq<Step>) {
    forall i :: 0 <= i < |steps| ==> !steps[i].Reauthorise?
  }

  /** A disconnected row stays so until someone authorises it again: no renewal revives it. */
  lemma {:induction false} RenewalNeverReconnects(w: World, steps: seq<Step>)
    requires Inv(w) && Disconnected(w) && NoReauthorisation(steps)
    ensures Inv(Run(w, steps)) && Disconnected(Run(w, steps))
    decreases |steps|
  {
    if steps != [] {
      var init := steps[..|steps| - 1];
      assert forall i :: 0 <= i < |init| ==> init[i] == steps[i];
      RenewalNeverReconnects(w, init);
      StepInv(Run(w, init), steps[|steps| - 1]);
    }
  }

  /** Once disconnected with its row free, an integration answers nobody until it is authorised again. */
  lemma DisconnectedAnswersNobody(w: World, steps: seq<Step>, c: CallerId)
    requires Inv(w) && w.holder.None? && w.row.Some? && NoReauthorisation(steps)
    ensures var w' := Run(Next(w, Disconnect), steps);
      && w'.row.Some? && w'.row.value.credentials.None? && !w'.row.value.active
      && (c !in w'.callers ==> Next(w', Arrive(c)) == w'.(callers := w'.callers[c := Unavailable]))
  {
    StepInv(w, Disconnect);
    RenewalNeverReconnects(Next(w, Disconnect), steps);
    hide Inv, Run;
  }

  // ---------- When an exchange does not reach the row ----------

  /** Arrival, lock and exchange of one caller, with the lock free. */
  lemma OneExchange(w: World, c: CallerId, answer: Answer)
    requires c !in w.callers && w.holder.None?
    ensures var w' := Run(w, [Arrive(c), TakeLock(c), Exchange(c, answer)]);
      && w' == Next(Next(Next(w, Arrive(c)), TakeLock(c)), Exchange(c, answer))
      && w'.replayed == w.replayed + (if Strands(w) then {w.row.value.credentials.value.refresh} else {})
  {
    assert [Arrive(c), TakeLock(c), Exchange(c, answer)][..2] == [Arrive(c), TakeLock(c)];
    assert [Arrive(c), TakeLock(c)][..1] == [Arrive(c)];
    assert [Arrive(c)][..0] == [];
    assert Run(w, []) == w && Run(w, [Arrive(c)]) == Next(w, Arrive(c));
    if Check(w.row, w.now).Stale? {
      assert Check(w.row, w.now).refresh == w.row.value.credentials.value.refresh;
    }
  }

  /** The row asks for a renewal and its refresh token is already used up. */
  predicate Strands(w: World) {
    Check(w.row, w.now).Stale? && Check(w.row, w.now).refresh in w.spent
  }

  /**
   * Exactly when the next renewal replays a token: when the row was left holding a used
   * one, which only a mishap can do.
   */
  lemma ReplaysIffStranded(now: Time, steps: seq<Step>, c: CallerId, answer: Answer)
    requires Idle(Run(Opening(now), steps)) && c !in Run(Opening(now), steps).callers
    ensures var w := Run(Opening(now), steps);
      && (Run(w, [Arrive(c), TakeLock(c), Exchange(c, answer)]).replayed != {} <==> Strands(w))
      && (Strands(w) ==> w.mislaid || w.expired)
  {
    InvInEveryRun(now, steps);
    OneExchange(Run(Opening(now), steps), c, answer);
  }

  lemma RunOfFive(w: World, a: Step, b: Step, c: Step, d: Step, e: Step)
    ensures Run(w, [a, b, c, d, e]) == Next(Next(Next(Next(Next(w, a), b), c), d), e)
  {
    hide Next;
    assert [a, b, c, d, e][..4] == [a, b, c, d];
    assert [a, b, c, d][..3] == [a, b, c] && [a, b, c][..2] == [a, b] && [a, b][..1] == [a] && [a][..0] == [];
    assert Run(w, [a]) == Next(w, a);
    assert Run(w, [a, b, c]) == Next(Next(Next(w, a), b), c);
  }

  /** A renewal whose exchange succeeds and whose commit is lost. */
  function LostCommit(): seq<Step> {
    [Reauthorise(Credentials(0, 1), 60000), Arrive(0), TakeLock(0), Exchange(0, Answer(2, Some(3), 60000)), CommitLost(0)]
  }

  /** Such a run exists. */
  lemma LostCommitStrands()
    ensures Idle(Run(Opening(0), LostCommit())) && Strands(Run(Opening(0), LostCommit()))
  {
    var grant, lost := Credentials(0, 1), Answer(2, Some(3), 60000);
    var w1 := Next(Opening(0), Reauthorise(grant, 60000));
    assert w1.row == Some(Row(true, Some(grant), Some(60000))) && w1.callers == map[] && 1 in w1.known && 3 !in w1.known;
    var w2 := Next(w1, Arrive(0));
    assert 0 in w2.callers && w2.callers[0] == Waiting && w2.row == w1.row && w2.holder.None?;
    var w3 := Next(w2, TakeLock(0));
    assert w3.callers[0] == Exchanging(1, 0) && w3.holder == Some(0) && w3.row == w1.row && w3.known == w1.known;
    var w4 := Next(w3, Exchange(0, lost));
    assert w4.callers[0] == Writing(1, lost, 0) && 1 in w4.spent && w4.holder == Some(0) && w4.row == w1.row;
    var w5 := Next(w4, CommitLost(0));
    assert Idle(w5) && Strands(w5);
    RunOfFive(Opening(0), Reauthorise(grant, 60000), Arrive(0), TakeLock(0), Exchange(0, lost), CommitLost(0));
    hide Next, Idle, Strands;
  }

  /** Nobody holds the lock and nothing has been replayed. */
  predicate Idle(w: World) {
    w.holder.None? && w.replayed == {}
  }

  // ---------- Mishaps ----------

  /** A rotation lost on the way back or at its commit, or a lock that expires under its exchange. */
  predicate Mishap(w: World, step: Step) {
    match step
    case ExchangeLost(c) => Presents(w, c)
    case CommitLost(c) => Writes(w, c) && w.callers[c].answer.rotated.Some?
    case Expire(c) => Presents(w, c) && w.holder == Some(c)
    case _ => false
  }

  predicate Calm(steps: seq<Step>) {
    forall i :: 0 <= i < |steps| ==> !steps[i].ExchangeLost? && !steps[i].CommitLost? && !steps[i].Expire?
  }

  predicate Unmarred(w: World) {
    !w.mislaid && !w.expired
  }

  lemma StaysUnmarred(w: World, step: Step)
    requires Inv(w) && Unmarred(w)
    ensures Unmarred(Next(w, step)) <==> !Mishap(w, step)
  {
    hide LockInv, RowInv, RequestsKnown, UnwrittenUnseen, Unspoilt, GrantsSpaced, Check, Renewed;
  }

  lemma {:induction false} CalmRun(w: World, steps: seq<Step>)
    requires Inv(w) && Unmarred(w) && Calm(steps)
    ensures Inv(Run(w, steps)) && Unmarred(Run(w, steps))
    decreases |steps|
  {
    hide Inv, Next, Unmarred;
    if steps != [] {
      var init := steps[..|steps| - 1];
      assert forall i :: 0 <= i < |init| ==> init[i] == steps[i];
      CalmRun(w, init);
      StaysUnmarred(Run(w, init), steps[|steps| - 1]);
      StepInv(Run(w, init), steps[|steps| - 1]);
    }
  }

  predicate Replays(w: World, steps: seq<Step>) {
    Run(w, steps).replayed != {}
  }

  /** A stranded row makes the next call replay its token. */
  lemma StrandedReplays(w: World)
    requires Strands(w) && w.holder.None?
    ensures exists more :: Calm(more) && Replays(w, more)
  {
    Unused(w.callers.Keys);
    var d: nat :| d !in w.callers.Keys && forall t :: t in w.callers.Keys ==> t < d;
    var more := [Arrive(d), TakeLock(d), Exchange(d, Answer(0, None, 0))];
    OneExchange(w, d, Answer(0, None, 0));
    assert w.row.value.credentials.value.refresh in Run(w, more).replayed;
    assert Calm(more) && Replays(w, more);
  }

  /** Either loss strands the row. */
  lemma LossStrands(w: World, step: Step)
    requires Inv(w) && Unmarred(w) && Mishap(w, step) && !step.Expire?
    ensures Strands(Next(w, step)) && Next(w, step).holder.None?
  {
    hide RequestsKnown, UnwrittenUnseen, Unspoilt, GrantsSpaced;
  }

  /**
   * In any world, with nothing lost: the transaction of a call expires while its request is
   * on the way, another call renews in full, and the request arrives with a used token.
   */
  lemma ExpiredLockReplays(w: World, c: CallerId, d: CallerId, renewal: Answer, late: Answer)
    requires Inv(w) && Presents(w, c) && w.holder == Some(c) && w.callers[c].refresh !in w.spent
    requires d !in w.callers && renewal.rotated.Some? && New(w, renewal.rotated.value)
    ensures var w' := Run(Next(w, Expire(c)), [Arrive(d), TakeLock(d), Exchange(d, renewal), Commit(d), Exchange(c, late)]);
      && w.callers[c].refresh in w'.replayed && w'.mislaid == w.mislaid
      && d in w'.callers && w'.callers[d] == Returned(renewal.access)
      && w'.row == Some(Renewed(w.row.value, renewal, w.now))
  {
    var w1, t := Next(w, Expire(c)), w.callers[c].refresh;
    RunOfFive(w1, Arrive(d), TakeLock(d), Exchange(d, renewal), Commit(d), Exchange(c, late));
    hide Run;
    assert w1 == w.(holder := None, expired := true) && Check(w1.row, w1.now) == Stale(t);
    var w3 := Next(Next(w1, Arrive(d)), TakeLock(d));
    assert w3 == w1.(callers := w1.callers[d := Waiting][d := Exchanging(t, w.now)], holder := Some(d));
    var w4 := Next(w3, Exchange(d, renewal));
    assert w4.callers[d] == Writing(t, renewal, w.now) && t in w4.spent && w4.holder == Some(d) && w4.row == w.row;
    assert w4.callers[c] == w.callers[c];
    var w5 := Next(w4, Commit(d));
    assert w5.callers[c] == w.callers[c] && t in w5.spent;
  }

  lemma ExpiryReplays(w: World, c: CallerId)
    requires Inv(w) && Unmarred(w) && Presents(w, c) && w.holder == Some(c)
    ensures exists more :: Calm(more) && Replays(Next(w, Expire(c)), more)
  {
    Unused(w.callers.Keys);
    var d: nat :| d !in w.callers.Keys && forall t :: t in w.callers.Keys ==> t < d;
    Unused(w.known);
    var m: nat :| m !in w.known && forall t :: t in w.known ==> t < m;
    var renewal := Answer(0, Some(m), 0);
    ExpiredLockReplays(w, c, d, renewal, renewal);
    var more := [Arrive(d), TakeLock(d), Exchange(d, renewal), Commit(d), Exchange(c, renewal)];
    assert w.callers[c].refresh in Run(Next(w, Expire(c)), more).replayed;
    hide Run, Next, Inv;
    assert Calm(more) && Replays(Next(w, Expire(c)), more);
  }

  /**
   * Exactly what it takes: after any run without mishap, one more step opens the way to a
   * replay, by steps that all go well, if and only if that step is a mishap.
   */
  lemma ReplayFollowsIff(now: Time, steps: seq<Step>, step: Step)
    requires Unmarred(Run(Opening(now), steps))
    ensures var w := Run(Opening(now), steps);
      (exists more :: Calm(more) && Replays(Next(w, step), more)) <==> Mishap(w, step)
  {
    InvInEveryRun(now, steps);
    var w := Run(Opening(now), steps);
    hide Inv, Run, Next, Calm;
    if Mishap(w, step) {
      if step.Expire? {
        ExpiryReplays(w, step.c);
      } else {
        LossStrands(w, step);
        StrandedReplays(Next(w, step));
      }
    } else {
      StaysUnmarred(w, step);
      StepInv(w, step);
      forall more | Calm(more) ensures !Replays(Next(w, step), more) {
        CalmRun(Next(w, step), more);
        NothingReplayed(Run(Next(w, step), more));
      }
    }
  }

  lemma NothingReplayed(w: World)
    requires Inv(w) && Unmarred(w)
    ensures w.replayed == {}
  {
  }

  // ---------- The row as an object ----------

  /** What one call makes of the row and returns when nobody else is about; no `answer` is a failed exchange. */
  function AfterCall(row: Option<Row>, now: Time, answer: Option<Answer>, writtenAt: Time): (Option<Row>, Option<Token>) {
    match Check(row, now)
    case Refuse => (row, None)
    case Fresh(token) => (row, Some(token))
    case Stale(_) =>
      if answer.None? then (row, None)
      else (Some(Renewed(row.value, answer.value, writtenAt)), Some(answer.value.access))
  }

  /** At any time the row hands out this access token up to the margin before its end, and from then on asks to renew with the refresh token it has. */
  ghost predicate Serves(row: Option<Row>, access: Token, spent: Token, rotated: Option<Token>, end: Time) {
    forall t: Time :: Check(row, t) ==
      if t + 5 * 60 * 1000 < end then Reading.Fresh(access) else Stale(if rotated.Some? then rotated.value else spent)
  }

  class TenantIntegration {
    var row: Option<Row>

    /** The check before the lock. */
    method ReadToken(now: Time) returns (reading: Reading)
      ensures reading == Check(row, now)
    {
      if row.None? || !row.value.active || row.value.credentials.None? {
        return Refuse;
      }
      if row.value.expiresAt.Some? && row.value.expiresAt.value > now + MARGIN_MS {
        return Reading.Fresh(row.value.credentials.value.access);
      }
      return Stale(row.value.credentials.value.refresh);
    }

    /** The transaction behind it: whatever others wrote meanwhile is in `row` once the lock is held. */
    method RenewUnderLock(lockedAt: Time, answer: Option<Answer>, writtenAt: Time) returns (token: Option<Token>)
      requires lockedAt <= writtenAt
      modifies this
      ensures (row, token) == AfterCall(old(row), lockedAt, answer, writtenAt)
      ensures row != old(row) ==> Check(old(row), lockedAt).Stale?
      ensures Check(old(row), lockedAt).Stale? && answer.Some? ==>
                && token == Some(answer.value.access)
                && Serves(row, answer.value.access, Check(old(row), lockedAt).refresh, answer.value.rotated, writtenAt + answer.value.lifetime)
      ensures Check(old(row), lockedAt).Stale? && answer.None? ==> token == None && row == old(row)
      ensures Check(old(row), lockedAt).Fresh? ==> token == Some(Check(old(row), lockedAt).token) && row == old(row)
      ensures Check(old(row), lockedAt).Refuse? ==> token == None && row == old(row)
    {
      var locked := ReadToken(lockedAt);
      if locked.Refuse? {
        return None;
      }
      if locked.Fresh? {
        return Some(locked.token);
      }
      if answer.None? {
        return None;
      }
      row := Some(Renewed(row.value, answer.value, writtenAt));
      return Some(answer.value.access);
    }

    /** updateMany: no row, no change. */
    method Disconnect()
      modifies this
      ensures row == if old(row).Some? then Some(DISCONNECTED) else None
      ensures forall t: Time :: Check(row, t) == Refuse
    {
      if row.Some? {
        row := Some(DISCONNECTED);
      }
    }

    /** The upsert of the authorisation callbacks, after which no call is refused, whatever the row was. */
    method Reauthorise(credentials: Credentials, now: Time, lifetime: nat)
      modifies this
      ensures row == Some(Row(true, Some(credentials), Some(now + lifetime)))
      ensures forall t: Time :: Check(row, t) ==
                if t + 5 * 60 * 1000 < now + lifetime then Reading.Fresh(credentials.access) else Stale(credentials.refresh)
    {
      row := Some(Row(true, Some(credentials), Some(now + lifetime)));
    }
  }

  /** The interleaved machine, left undisturbed, does what the object does. */
  lemma UndisturbedCall(w: World, c: CallerId, answer: Answer)
    requires Inv(w) && c !in w.callers && w.holder.None? && !Strands(w)
    requires answer.rotated.Some? ==> New(w, answer.rotated.value)
    ensures var w' := Next(Run(w, [Arrive(c), TakeLock(c), Exchange(c, answer)]), Commit(c));
      var (row, token) := AfterCall(w.row, w.now, Some(answer), w.now);
      && w'.row == row && c in w'.callers
      && w'.callers[c] == if token.Some? then Returned(token.value) else Unavailable
  {
    OneExchange(w, c, answer);
    assert Check(w.row, w.now).Stale? ==> w.row.value.active;
    var w2 := Next(Next(w, Arrive(c)), TakeLock(c));
    hide Run, Inv;
    if Check(w.row, w.now).Stale? {
      assert w2.callers[c] == Exchanging(w.row.value.credentials.value.refresh, w.now) && w2.row == w.row;
      var w3 := Next(w2, Exchange(c, answer));
      assert w3.callers[c].Writing? && w3.callers[c].answer == answer && w3.row == w.row && w3.now == w.now;
    } else {
      assert w2 == Next(w, Arrive(c)) && Next(w2, Exchange(c, answer)) == w2;
    }
  }
}
