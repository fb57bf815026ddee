/**
 * Links sent by mail: issuing one retires the ones before it for the same purpose,
 * consuming one spends it. READ COMMITTED gives neither more than its statements: issuing
 * retires the rows committed when its update starts and inserts later, consuming reads the
 * row and later stamps it by id. So each is two steps here, and its second stands for its
 * commit, before which nobody sees anything of it.
 */
module VerificationTokens {
  import opened Wrappers

  type Token = nat
  type UserId = nat
  type CallId = nat
  type Time = nat

  datatype Purpose = EMAIL_VERIFICATION | PASSWORD_RESET

  function TtlMs(purpose: Purpose): nat {
    if purpose.EMAIL_VERIFICATION? then 86400000 else 3600000
  }

  datatype Row = Row(user: UserId, purpose: Purpose, expiresAt: Time, consumedAt: Option<Time>)

  /** Rows by token: hashes are taken as injective. */
  type Table = map<Token, Row>

  /** The one answer to every bad token, or whose the token was. */
  function Check(rows: Table, presented: Token, purpose: Purpose, now: Time): Option<UserId> {
    if presented !in rows || rows[presented].purpose != purpose || rows[presented].consumedAt.Some?
       || rows[presented].expiresAt <= now then None
    else Some(rows[presented].user)
  }

  predicate InSlot(row: Row, user: UserId, purpose: Purpose) {
    row.user == user && row.purpose == purpose
  }

  function OpenRows(rows: Table, user: UserId, purpose: Purpose): set<Token> {
    set t | t in rows && InSlot(rows[t], user, purpose) && rows[t].consumedAt.None?
  }

  function Retire(rows: Table, which: set<Token>, at: Time): (r: Table)
    ensures r.Keys == rows.Keys
  {
    map t | t in rows ::
      if t in which && rows[t].consumedAt.None? then rows[t].(consumedAt := Some(at)) else rows[t]
  }

  // ---------- The machine ----------

  datatype Reading = Reading(token: Token, at: nat)

  datatype Issuing = Issuing(user: UserId, purpose: Purpose, retires: set<Token>, startedAt: nat)

  datatype Spend = Spend(token: Token, readAt: nat, wroteAt: nat)

  datatype Issued = Issued(user: UserId, purpose: Purpose, minted: Token, startedAt: nat, finishedAt: nat)

  /** `clock` counts steps; `born`, `spends` and `issues` keep account of when rows came, and what was spent and issued when. */
  datatype World = World(
    rows: Table,
    readings: map<CallId, Reading>,
    issuing: map<CallId, Issuing>,
    clock: nat,
    born: map<Token, nat>,
    spends: seq<Spend>,
    issues: seq<Issued>)

  datatype Step =
    | StartIssue(c: CallId, user: UserId, purpose: Purpose)
    | FinishIssue(c: CallId, minted: Token, at: Time)
    | Read(c: CallId, presented: Token, purpose: Purpose, now: Time)
    | Stamp(c: CallId, at: Time)
    | Drop(c: CallId)

  function Act(w: World, step: Step): World {
    match step
    case StartIssue(c, u, p) =>
      if c in w.issuing then w else w.(issuing := w.issuing[c := Issuing(u, p, OpenRows(w.rows, u, p), w.clock)])
    case FinishIssue(c, minted, at) =>
      if c !in w.issuing then w
      else if minted in w.rows then w.(issuing := w.issuing - {c})
      else
        var Issuing(u, p, retires, startedAt) := w.issuing[c];
        w.(rows := Retire(w.rows, retires, at)[minted := Row(u, p, at + TtlMs(p), None)], issuing := w.issuing - {c},
           born := w.born[minted := w.clock], issues := w.issues + [Issued(u, p, minted, startedAt, w.clock)])
    case Read(c, t, p, now) =>
      if c in w.readings || Check(w.rows, t, p, now).None? then w else w.(readings := w.readings[c := Reading(t, w.clock)])
    case Stamp(c, at) =>
      if c !in w.readings || w.readings[c].token !in w.rows then w
      else
        var Reading(t, readAt) := w.readings[c];
        w.(rows := w.rows[t := w.rows[t].(consumedAt := Some(at))], readings := w.readings - {c},
           spends := w.spends + [Spend(t, readAt, w.clock)])
    case Drop(c) => w.(readings := w.readings - {c}, issuing := w.issuing - {c})
  }

  function Next(w: World, step: Step): World {
    Act(w, step).(clock := w.clock + 1)
  }

  function Run(w: World, steps: seq<Step>): World {
    if steps == [] then w else Next(Run(w, steps[..|steps| - 1]), steps[|steps| - 1])
  }

  const EMPTY := World(map[], map[], map[], 0, map[], [], [])

  // ---------- What has happened to a row ----------

  ghost predicate Spent(w: World, t: Token) {
    exists i :: 0 <= i < |w.spends| && w.spends[i].token == t
  }

  /** The issue retired the row: it is for its slot, and started once the row was there. */
  predicate RetiredBy(w: World, issue: Issued, t: Token)
    requires t in w.rows && t in w.born
  {
    InSlot(w.rows[t], issue.user, issue.purpose) && w.born[t] < issue.startedAt
  }

  ghost predicate Retired(w: World, t: Token)
    requires t in w.rows && t in w.born
  {
    exists k :: 0 <= k < |w.issues| && RetiredBy(w, w.issues[k], t)
  }

  ghost predicate IssuedAt(w: World, t: Token, k: nat) {
    k < |w.issues| && w.issues[k].minted == t && t in w.born && w.issues[k].finishedAt == w.born[t]
      && t in w.rows && InSlot(w.rows[t], w.issues[k].user, w.issues[k].purpose)
  }

  // ---------- The invariant ----------

  ghost predicate RowFits(w: World, t: Token)
    requires t in w.rows && t in w.born
  {
    && w.born[t] < w.clock
    && (w.rows[t].consumedAt.Some? <==> Spent(w, t) || Retired(w, t))
    && (exists k :: IssuedAt(w, t, k))
  }

  ghost predicate WasOpen(w: World, t: Token, at: nat) {
    && t in w.rows && t in w.born && w.born[t] < at < w.clock
    && (forall k :: 0 <= k < |w.issues| && RetiredBy(w, w.issues[k], t) ==> at < w.issues[k].finishedAt)
  }

  ghost predicate ReadFits(w: World, r: Reading) {
    WasOpen(w, r.token, r.at) &&
    forall i :: 0 <= i < |w.spends| && w.spends[i].token == r.token ==> r.at < w.spends[i].wroteAt
  }

  ghost predicate SpendsInOrder(w: World) {
    && (forall i :: 0 <= i < |w.spends| ==> w.spends[i].readAt < w.spends[i].wroteAt < w.clock)
    && (forall i, j :: 0 <= i < j < |w.spends| ==>
          && w.spends[i].wroteAt < w.spends[j].wroteAt
          && (w.spends[i].token == w.spends[j].token ==> w.spends[j].readAt < w.spends[i].wroteAt))
  }

  ghost predicate IssuingFits(w: World, s: Issuing) {
    && s.startedAt < w.clock
    && (forall t :: t in s.retires ==> t in w.rows && t in w.born && InSlot(w.rows[t], s.user, s.purpose) && w.born[t] < s.startedAt)
    && (forall t :: t in w.rows && t in w.born && InSlot(w.rows[t], s.user, s.purpose) && w.born[t] < s.startedAt ==>
          t in s.retires || w.rows[t].consumedAt.Some?)
  }

  ghost predicate IssueFits(w: World, k: nat) {
    k < |w.issues| && w.issues[k].startedAt < w.issues[k].finishedAt < w.clock && IssuedAt(w, w.issues[k].minted, k)
  }

  ghost predicate SpentKnown(w: World) {
    forall i :: 0 <= i < |w.spends| ==> w.spends[i].token in w.rows
  }

  ghost predicate Inv(w: World) {
    && w.born.Keys == w.rows.Keys
    && (forall t :: t in w.rows ==> RowFits(w, t))
    && (forall c :: c in w.readings ==> ReadFits(w, w.readings[c]))
    && SpendsInOrder(w) && SpentKnown(w)
    && (forall c :: c in w.issuing ==> IssuingFits(w, w.issuing[c]))
    && (forall k :: 0 <= k < |w.issues| ==> IssueFits(w, k))
  }

  lemma RowAt(w: World, t: Token)
    requires Inv(w) && t in w.rows
    ensures t in w.born && RowFits(w, t)
  {
  }

  lemma ReadingAt(w: World, c: CallId)
    requires Inv(w) && c in w.readings
    ensures ReadFits(w, w.readings[c])
  {
  }

  lemma IssuingAt(w: World, c: CallId)
    requires Inv(w) && c in w.issuing
    ensures IssuingFits(w, w.issuing[c])
  {
  }

  lemma IssueAt(w: World, k: nat)
    requires Inv(w) && k < |w.issues|
    ensures IssueFits(w, k)
  {
  }

  lemma Accounts(w: World)
    requires Inv(w)
    ensures w.born.Keys == w.rows.Keys && SpendsInOrder(w) && SpentKnown(w)
  {
  }

  lemma Assemble(w: World)
    requires w.born.Keys == w.rows.Keys
    requires forall t :: t in w.rows ==> RowFits(w, t)
    requires forall c :: c in w.readings ==> ReadFits(w, w.readings[c])
    requires SpendsInOrder(w) && SpentKnown(w)
    requires forall c :: c in w.issuing ==> IssuingFits(w, w.issuing[c])
    requires forall k :: 0 <= k < |w.issues| ==> IssueFits(w, k)
    ensures Inv(w)
  {
  }

  // ---------- Quiet steps ----------

  predicate Quiet(w: World, w': World) {
    w' == w.(readings := w'.readings, issuing := w'.issuing, clock := w.clock + 1)
  }

  lemma QuietRow(w: World, w': World, t: Token)
    requires Inv(w) && Quiet(w, w') && t in w.rows
    ensures t in w'.born && RowFits(w', t)
  {
    hide Inv;
    RowAt(w, t);
    assert Spent(w', t) == Spent(w, t);
    assert Retired(w', t) == Retired(w, t);
    var k :| IssuedAt(w, t, k);
    assert IssuedAt(w', t, k);
  }

  lemma QuietInv(w: World, w': World)
    requires Inv(w) && Quiet(w, w')
    requires forall c :: c in w'.readings ==> (c in w.readings && w'.readings[c] == w.readings[c]) || ReadFits(w', w'.readings[c])
    requires forall c :: c in w'.issuing ==> (c in w.issuing && w'.issuing[c] == w.issuing[c]) || IssuingFits(w', w'.issuing[c])
    ensures Inv(w')
  {
    hide Inv;
    Accounts(w);
    assert SpendsInOrder(w') && SpentKnown(w');
    hide RowFits, SpendsInOrder, SpentKnown;
    assert w'.rows == w.rows && w'.born == w.born && w'.issues == w.issues;
    forall t | t in w'.rows ensures RowFits(w', t) { QuietRow(w, w', t); }
    forall c | c in w'.readings ensures ReadFits(w', w'.readings[c]) {
      if c in w.readings { ReadingAt(w, c); }
    }
    forall c | c in w'.issuing ensures IssuingFits(w', w'.issuing[c]) {
      if c in w.issuing { IssuingAt(w, c); }
    }
    forall k | 0 <= k < |w'.issues| ensures IssueFits(w', k) { IssueAt(w, k); }
    Assemble(w');
  }

  // ---------- Issuing ----------

  predicate Issues(w: World, w': World, c: CallId, minted: Token, at: Time) {
    c in w.issuing && minted !in w.rows && w' == Next(w, FinishIssue(c, minted, at))
  }

  lemma IssuedRows(w: World, w': World, c: CallId, minted: Token, at: Time)
    requires Issues(w, w', c, minted, at)
    ensures c in w.issuing && minted !in w.rows
    ensures var s := w.issuing[c];
      && w'.clock == w.clock + 1 && w'.spends == w.spends && w'.readings == w.readings && w'.issuing == w.issuing - {c}
      && w'.issues == w.issues + [Issued(s.user, s.purpose, minted, s.startedAt, w.clock)]
      && w'.rows.Keys == w.rows.Keys + {minted} && w'.born == w.born[minted := w.clock]
      && w'.rows[minted] == Row(s.user, s.purpose, at + TtlMs(s.purpose), None)
      && forall t :: t in w.rows ==>
           w'.rows[t] == if t in s.retires && w.rows[t].consumedAt.None? then w.rows[t].(consumedAt := Some(at)) else w.rows[t]
  {
  }

  lemma RetiredMore(w: World, w': World, t: Token)
    requires t in w.rows && t in w.born && t in w'.rows && t in w'.born && w'.born[t] == w.born[t]
    requires w'.rows[t].user == w.rows[t].user && w'.rows[t].purpose == w.rows[t].purpose
    requires |w'.issues| == |w.issues| + 1 && forall k :: 0 <= k < |w.issues| ==> w'.issues[k] == w.issues[k]
    ensures Retired(w', t) <==> Retired(w, t) || RetiredBy(w', w'.issues[|w.issues|], t)
  {
    if Retired(w, t) {
      var k :| 0 <= k < |w.issues| && RetiredBy(w, w.issues[k], t);
      assert RetiredBy(w', w'.issues[k], t);
    }
    if k :| 0 <= k < |w'.issues| && RetiredBy(w', w'.issues[k], t) {
      if k < |w.issues| { assert RetiredBy(w, w.issues[k], t); }
    }
  }

  lemma IssueRow(w: World, w': World, c: CallId, minted: Token, at: Time, t: Token)
    requires Inv(w) && Issues(w, w', c, minted, at) && t in w'.rows && t in w'.born
    ensures RowFits(w', t)
  {
    hide Inv, Issues;
    IssuedRows(w, w', c, minted, at);
    Accounts(w);
    IssuingAt(w, c);
    var n := |w.issues|;
    assert Spent(w', t) == Spent(w, t);
    if t == minted {
      forall k | 0 <= k < |w'.issues| ensures !RetiredBy(w', w'.issues[k], t) {
        if k < n { IssueAt(w, k); }
      }
      assert IssuedAt(w', t, n);
    } else {
      RowAt(w, t);
      RetiredMore(w, w', t);
      var k :| IssuedAt(w, t, k);
      assert IssuedAt(w', t, k);
    }
  }

  lemma OpenKept(w: World, w': World, c: CallId, minted: Token, at: Time, t: Token, readAt: nat)
    requires Inv(w) && Issues(w, w', c, minted, at) && WasOpen(w, t, readAt)
    ensures WasOpen(w', t, readAt)
  {
    hide Inv, Issues;
    IssuedRows(w, w', c, minted, at);
    forall k | 0 <= k < |w'.issues| && RetiredBy(w', w'.issues[k], t) ensures readAt < w'.issues[k].finishedAt {
      if k < |w.issues| { assert RetiredBy(w, w.issues[k], t); }
    }
  }

  lemma IssueIssuing(w: World, w': World, c: CallId, minted: Token, at: Time, d: CallId)
    requires Inv(w) && Issues(w, w', c, minted, at) && d in w.issuing
    ensures IssuingFits(w', w.issuing[d])
  {
    hide Inv, Issues;
    IssuedRows(w, w', c, minted, at);
    Accounts(w);
    IssuingAt(w, d);
  }

  lemma IssueIssue(w: World, w': World, c: CallId, minted: Token, at: Time, k: nat)
    requires Inv(w) && Issues(w, w', c, minted, at) && k < |w'.issues|
    ensures IssueFits(w', k)
  {
    hide Inv, Issues;
    IssuedRows(w, w', c, minted, at);
    IssuingAt(w, c);
    if k < |w.issues| { IssueAt(w, k); assert w'.issues[k] == w.issues[k]; }
  }

  lemma IssueInv(w: World, w': World, c: CallId, minted: Token, at: Time)
    requires Inv(w) && Issues(w, w', c, minted, at)
    ensures Inv(w')
  {
    hide Inv, Issues;
    IssuedRows(w, w', c, minted, at);
    Accounts(w);
    assert SpendsInOrder(w') && SpentKnown(w') && w'.born.Keys == w'.rows.Keys;
    hide RowFits, SpendsInOrder, SpentKnown, IssuingFits, IssueFits;
    forall t | t in w'.rows ensures RowFits(w', t) { IssueRow(w, w', c, minted, at, t); }
    forall d | d in w'.readings ensures ReadFits(w', w'.readings[d]) {
      ReadingAt(w, d);
      OpenKept(w, w', c, minted, at, w.readings[d].token, w.readings[d].at);
    }
    hide ReadFits;
    forall d | d in w'.issuing ensures IssuingFits(w', w'.issuing[d]) { IssueIssuing(w, w', c, minted, at, d); }
    forall k | 0 <= k < |w'.issues| ensures IssueFits(w', k) { IssueIssue(w, w', c, minted, at, k); }
    Assemble(w');
  }

  // ---------- Spending ----------

  predicate Stamps(w: World, w': World, c: CallId, at: Time) {
    c in w.readings && w.readings[c].token in w.rows && w' == Next(w, Stamp(c, at))
  }

  lemma StampedRows(w: World, w': World, c: CallId, at: Time)
    requires Stamps(w, w', c, at)
    ensures c in w.readings && w.readings[c].token in w.rows
    ensures var r := w.readings[c];
      && w'.clock == w.clock + 1 && w'.issues == w.issues && w'.issuing == w.issuing && w'.born == w.born
      && w'.readings == w.readings - {c} && w'.spends == w.spends + [Spend(r.token, r.at, w.clock)]
      && w'.rows == w.rows[r.token := w.rows[r.token].(consumedAt := Some(at))]
  {
  }

  lemma StampRow(w: World, w': World, c: CallId, at: Time, t: Token)
    requires Inv(w) && Stamps(w, w', c, at) && t in w'.rows && t in w'.born
    ensures RowFits(w', t)
  {
    hide Inv, Stamps;
    StampedRows(w, w', c, at);
    RowAt(w, t);
    var n := |w.spends|;
    assert w'.spends[n].token == w.readings[c].token;
    if Spent(w, t) {
      var i :| 0 <= i < n && w.spends[i].token == t;
      assert w'.spends[i].token == t;
    }
    if i :| 0 <= i <= n && w'.spends[i].token == t {
      if i < n { assert w.spends[i].token == t; }
    }
    assert Retired(w', t) == Retired(w, t);
    var k :| IssuedAt(w, t, k);
    assert IssuedAt(w', t, k);
  }

  lemma StampAccounts(w: World, w': World, c: CallId, at: Time)
    requires Inv(w) && Stamps(w, w', c, at)
    ensures SpendsInOrder(w') && SpentKnown(w') && w'.born.Keys == w'.rows.Keys
  {
    hide Inv, Stamps;
    StampedRows(w, w', c, at);
    Accounts(w);
    ReadingAt(w, c);
    var n := |w.spends|;
    assert forall i :: 0 <= i < n ==> w'.spends[i] == w.spends[i];
  }

  lemma StampReading(w: World, w': World, c: CallId, at: Time, d: CallId)
    requires Inv(w) && Stamps(w, w', c, at) && d in w'.readings
    ensures ReadFits(w', w'.readings[d])
  {
    hide Inv, Stamps;
    StampedRows(w, w', c, at);
    var r := w.readings[d];
    ReadingAt(w, d);
    forall i | 0 <= i < |w'.spends| && w'.spends[i].token == r.token ensures r.at < w'.spends[i].wroteAt {
      if i < |w.spends| { assert w'.spends[i] == w.spends[i]; }
    }
    forall k | 0 <= k < |w'.issues| && RetiredBy(w', w'.issues[k], r.token) ensures r.at < w'.issues[k].finishedAt {
      assert RetiredBy(w, w.issues[k], r.token);
    }
  }

  lemma StampIssuing(w: World, w': World, c: CallId, at: Time, d: CallId)
    requires Inv(w) && Stamps(w, w', c, at) && d in w.issuing
    ensures IssuingFits(w', w.issuing[d])
  {
    hide Inv, Stamps;
    StampedRows(w, w', c, at);
    IssuingAt(w, d);
  }

  lemma StampInv(w: World, w': World, c: CallId, at: Time)
    requires Inv(w) && Stamps(w, w', c, at)
    ensures Inv(w')
  {
    hide Inv, Stamps, RowFits, SpendsInOrder, SpentKnown, IssuingFits, ReadFits;
    StampedRows(w, w', c, at);
    StampAccounts(w, w', c, at);
    forall t | t in w'.rows ensures RowFits(w', t) { StampRow(w, w', c, at, t); }
    forall d | d in w'.readings ensures ReadFits(w', w'.readings[d]) { StampReading(w, w', c, at, d); }
    forall d | d in w'.issuing ensures IssuingFits(w', w'.issuing[d]) { StampIssuing(w, w', c, at, d); }
    forall k | 0 <= k < |w'.issues| ensures IssueFits(w', k) { IssueAt(w, k); }
    Assemble(w');
  }

  // ---------- Every step ----------

  lemma ReadInv(w: World, step: Step)
    requires Inv(w) && step.Read?
    ensures Inv(Next(w, step))
  {
    hide Inv;
    var w' := Next(w, step);
    if step.c !in w.readings && Check(w.rows, step.presented, step.purpose, step.now).Some? {
      RowAt(w, step.presented);
      OpenIffUntouched(w, step.presented);
      forall k | 0 <= k < |w'.issues| ensures !RetiredBy(w', w'.issues[k], step.presented) {
        assert RetiredBy(w', w'.issues[k], step.presented) == RetiredBy(w, w.issues[k], step.presented);
      }
      assert ReadFits(w', w'.readings[step.c]);
    }
    hide ReadFits;
    QuietInv(w, w');
  }

  lemma OpenIffUntouched(w: World, t: Token)
    requires Inv(w) && t in w.rows && t in w.born
    ensures w.rows[t].consumedAt.None? <==>
            (forall i :: 0 <= i < |w.spends| ==> w.spends[i].token != t) &&
            (forall k :: 0 <= k < |w.issues| ==> !RetiredBy(w, w.issues[k], t))
  {
    hide Inv;
    RowAt(w, t);
  }

  lemma StartInv(w: World, step: Step)
    requires Inv(w) && step.StartIssue?
    ensures Inv(Next(w, step))
  {
    hide Inv;
    var w' := Next(w, step);
    Accounts(w);
    forall t | t in w.rows ensures t in w.born && w.born[t] < w.clock { RowAt(w, t); }
    assert step.c in w'.issuing && step.c !in w.issuing ==> IssuingFits(w', w'.issuing[step.c]);
    hide IssuingFits;
    QuietInv(w, w');
  }

  lemma StepInv(w: World, step: Step)
    requires Inv(w)
    ensures Inv(Next(w, step))
  {
    hide Inv, Check, OpenRows, Retire, ReadFits, IssuingFits;
    match step {
      case StartIssue(_, _, _) => StartInv(w, step);
      case FinishIssue(c, minted, at) =>
        if c in w.issuing && minted !in w.rows { IssueInv(w, Next(w, step), c, minted, at); } else { QuietInv(w, Next(w, step)); }
      case Read(_, _, _, _) => ReadInv(w, step);
      case Stamp(c, at) =>
        if c in w.readings && w.readings[c].token in w.rows { StampInv(w, Next(w, step), c, at); } else { QuietInv(w, Next(w, step)); }
      case Drop(_) => QuietInv(w, Next(w, step));
    }
  }

  lemma {:induction false} InvInEveryRun(steps: seq<Step>)
    ensures Inv(Run(EMPTY, steps))
    decreases |steps|
  {
    if steps == [] {
      assert Inv(EMPTY);
    } else {
      InvInEveryRun(steps[..|steps| - 1]);
      StepInv(Run(EMPTY, steps[..|steps| - 1]), steps[|steps| - 1]);
    }
    hide Inv, Next;
  }

  // ---------- Main results ----------

  predicate IsOpen(w: World, t: Token) {
    t in w.rows && w.rows[t].consumedAt.None?
  }

  /** A link is open exactly while nobody has spent it and no issue for its user and purpose, started since, has finished. */
  lemma OpenIff(steps: seq<Step>, t: Token)
    requires t in Run(EMPTY, steps).rows
    ensures var w := Run(EMPTY, steps);
      t in w.born && (IsOpen(w, t) <==> !Spent(w, t) && !Retired(w, t))
  {
    hide Inv, Next, Run;
    InvInEveryRun(steps);
    RowAt(Run(EMPTY, steps), t);
  }

  /** The later issue had started when the earlier one finished. */
  predicate Overlap(earlier: Issued, later: Issued) {
    later.startedAt <= earlier.finishedAt <= later.finishedAt
  }

  ghost predicate TwoOpen(w: World, user: UserId, purpose: Purpose) {
    exists s, t :: s in w.rows && t in w.rows && s != t && IsOpen(w, s) && IsOpen(w, t)
      && InSlot(w.rows[s], user, purpose) && InSlot(w.rows[t], user, purpose)
  }

  /** Nobody has spent it, and no issue that started after it came has retired it. */
  ghost predicate Untouched(w: World, t: Token) {
    t in w.rows && t in w.born && !Spent(w, t) && !Retired(w, t)
  }

  ghost predicate OverlapUntouched(w: World, user: UserId, purpose: Purpose) {
    exists j: nat, k: nat :: j < |w.issues| && k < |w.issues| && Overlap(w.issues[j], w.issues[k])
      && w.issues[j].minted != w.issues[k].minted
      && w.issues[j].user == w.issues[k].user == user && w.issues[j].purpose == w.issues[k].purpose == purpose
      && Untouched(w, w.issues[j].minted) && Untouched(w, w.issues[k].minted)
  }

  /**
   * In every run two links work for one user and purpose if and only if two issues for
   * them overlapped, and since then nobody has spent either link and no further issue
   * has retired either.
   */
  lemma TwoOpenIff(steps: seq<Step>, user: UserId, purpose: Purpose)
    ensures TwoOpen(Run(EMPTY, steps), user, purpose) <==> OverlapUntouched(Run(EMPTY, steps), user, purpose)
  {
    hide Inv, Next, Run, Spent, Retired;
    InvInEveryRun(steps);
    var w := Run(EMPTY, steps);
    if TwoOpen(w, user, purpose) {
      var s, t :| s in w.rows && t in w.rows && s != t && IsOpen(w, s) && IsOpen(w, t)
        && InSlot(w.rows[s], user, purpose) && InSlot(w.rows[t], user, purpose);
      RowAt(w, s);
      RowAt(w, t);
      OpenTogether(w, if w.born[s] <= w.born[t] then s else t, if w.born[s] <= w.born[t] then t else s, user, purpose);
    }
    if OverlapUntouched(w, user, purpose) {
      var j: nat, k: nat :| j < |w.issues| && k < |w.issues| && Overlap(w.issues[j], w.issues[k])
        && w.issues[j].minted != w.issues[k].minted
        && w.issues[j].user == w.issues[k].user == user && w.issues[j].purpose == w.issues[k].purpose == purpose
        && Untouched(w, w.issues[j].minted) && Untouched(w, w.issues[k].minted);
      IssueAt(w, j);
      IssueAt(w, k);
      RowAt(w, w.issues[j].minted);
      RowAt(w, w.issues[k].minted);
    }
  }

  lemma OpenTogether(w: World, s: Token, t: Token, user: UserId, purpose: Purpose)
    requires Inv(w) && s in w.rows && t in w.rows && s != t && IsOpen(w, s) && IsOpen(w, t)
    requires InSlot(w.rows[s], user, purpose) && InSlot(w.rows[t], user, purpose)
    requires s in w.born && t in w.born && w.born[s] <= w.born[t]
    ensures OverlapUntouched(w, user, purpose)
  {
    hide Inv;
    RowAt(w, s);
    RowAt(w, t);
    var j: nat :| IssuedAt(w, s, j);
    var k: nat :| IssuedAt(w, t, k);
    assert !RetiredBy(w, w.issues[k], s);
    IssueAt(w, k);
    assert Overlap(w.issues[j], w.issues[k]);
    assert Untouched(w, s) && Untouched(w, t);
  }

  /** Two issues for one user and purpose, the second started before the first has finished: both links work. */
  lemma OverlappingIssuesLeaveTwo(w: World, user: UserId, purpose: Purpose, c: CallId, d: CallId, m: Token, n: Token, at: Time)
    requires c != d && c !in w.issuing && d !in w.issuing && m != n && m !in w.rows && n !in w.rows
    ensures var w' := Next(Next(Next(Next(w, StartIssue(c, user, purpose)), StartIssue(d, user, purpose)),
                                FinishIssue(c, m, at)), FinishIssue(d, n, at));
      Check(w'.rows, m, purpose, at) == Check(w'.rows, n, purpose, at) == Some(user)
  {
    var w2 := Next(Next(w, StartIssue(c, user, purpose)), StartIssue(d, user, purpose));
    assert w2.rows == w.rows && c in w2.issuing && d in w2.issuing;
    var w3 := Next(w2, FinishIssue(c, m, at));
    assert m in w3.rows && w3.rows[m] == Row(user, purpose, at + TtlMs(purpose), None);
    assert d in w3.issuing && m !in w3.issuing[d].retires && n !in w3.rows;
  }

  /** What any step may do to a row that is there: stamp it. */
  lemma RowStep(w: World, step: Step, t: Token)
    requires t in w.rows
    ensures t in Next(w, step).rows
    ensures var before, after := w.rows[t], Next(w, step).rows[t];
      after == before.(consumedAt := after.consumedAt) && (before.consumedAt.Some? ==> after.consumedAt.Some?)
  {
  }

  /** Whose a row is, what for and until when never changes, and once stamped it is stamped for good. */
  lemma {:induction false} RowsOnlyGetStamped(w: World, t: Token, steps: seq<Step>)
    requires t in w.rows
    ensures t in Run(w, steps).rows
    ensures var before, after := w.rows[t], Run(w, steps).rows[t];
      after == before.(consumedAt := after.consumedAt) && (before.consumedAt.Some? ==> after.consumedAt.Some?)
    decreases |steps|
  {
    hide Next;
    if steps != [] {
      RowsOnlyGetStamped(w, t, steps[..|steps| - 1]);
      RowStep(Run(w, steps[..|steps| - 1]), steps[|steps| - 1], t);
    }
  }

  /** Presented after it was spent or retired, a link is refused in every continuation, whatever for. */
  lemma {:induction false} ConsumedForGood(w: World, t: Token, steps: seq<Step>, purpose: Purpose, now: Time)
    requires t in w.rows && w.rows[t].consumedAt.Some?
    ensures Check(Run(w, steps).rows, t, purpose, now) == None
  {
    hide Run;
    RowsOnlyGetStamped(w, t, steps);
  }

  /** In every continuation a link answers only for the purpose it was issued for, and names the user it was issued to. */
  lemma {:induction false} PurposesNeverMix(w: World, t: Token, steps: seq<Step>, purpose: Purpose, now: Time)
    requires t in w.rows && Check(Run(w, steps).rows, t, purpose, now).Some?
    ensures purpose == w.rows[t].purpose && Check(Run(w, steps).rows, t, purpose, now) == Some(w.rows[t].user)
    ensures now < w.rows[t].expiresAt
  {
    hide Run;
    RowsOnlyGetStamped(w, t, steps);
  }

  /** Any link spent twice was spent by calls that overlapped: each read it before the other wrote. */
  lemma SpentTwiceOverlapped(steps: seq<Step>, i: nat, j: nat)
    requires var xs := Run(EMPTY, steps).spends; i < j < |xs| && xs[i].token == xs[j].token
    ensures var xs := Run(EMPTY, steps).spends;
      xs[i].readAt < xs[j].wroteAt && xs[j].readAt < xs[i].wroteAt
  {
    hide Inv, Next, Run;
    InvInEveryRun(steps);
    Accounts(Run(EMPTY, steps));
  }

  /** And such calls all succeed: both read a good link before either stamps it. */
  lemma OverlappingConsumesBothSucceed(w: World, t: Token, purpose: Purpose, now: Time, c: CallId, d: CallId)
    requires Check(w.rows, t, purpose, now).Some? && c != d && c !in w.readings && d !in w.readings
    ensures var w2 := Next(Next(w, Read(c, t, purpose, now)), Read(d, t, purpose, now));
      Next(Next(w2, Stamp(c, now)), Stamp(d, now)).spends
        == w.spends + [Spend(t, w.clock, w.clock + 2), Spend(t, w.clock + 1, w.clock + 3)]
  {
    var w2 := Next(Next(w, Read(c, t, purpose, now)), Read(d, t, purpose, now));
    assert w2.readings == w.readings[c := Reading(t, w.clock)][d := Reading(t, w.clock + 1)] && w2.rows == w.rows;
    var w3 := Next(w2, Stamp(c, now));
    assert w3.spends == w.spends + [Spend(t, w.clock, w.clock + 2)] && d in w3.readings && w3.readings[d] == Reading(t, w.clock + 1);
  }

  /** An issue that finishes leaves its own link open, retires every link of its slot that was there when it started, and nothing else. */
  lemma IssuingRetiresTheRest(steps: seq<Step>, c: CallId, minted: Token, at: Time)
    requires var w := Run(EMPTY, steps); c in w.issuing && minted !in w.rows
    ensures var w, w' := Run(EMPTY, steps), Next(Run(EMPTY, steps), FinishIssue(c, minted, at));
      var s := w.issuing[c];
      && w'.rows.Keys == w.rows.Keys + {minted} && Check(w'.rows, minted, s.purpose, at) == Some(s.user)
      && w.born.Keys == w.rows.Keys
      && forall t :: t in w.rows ==>
           if InSlot(w.rows[t], s.user, s.purpose) && w.born[t] < s.startedAt then w'.rows[t].consumedAt.Some?
           else w'.rows[t] == w.rows[t]
  {
    hide Inv, Run;
    InvInEveryRun(steps);
    var w := Run(EMPTY, steps);
    var w' := Next(w, FinishIssue(c, minted, at));
    IssuedRows(w, w', c, minted, at);
    IssuingAt(w, c);
    Accounts(w);
    hide Next;
  }

  // ---------- The service as an object ----------

  /** A call no other overlaps comes to what the object does. */
  lemma IssuingAlone(w: World, c: CallId, user: UserId, purpose: Purpose, minted: Token, at: Time)
    requires c !in w.issuing && minted !in w.rows
    ensures Next(Next(w, StartIssue(c, user, purpose)), FinishIssue(c, minted, at)).rows
         == Retire(w.rows, OpenRows(w.rows, user, purpose), at)[minted := Row(user, purpose, at + TtlMs(purpose), None)]
  {
    var w2 := Next(w, StartIssue(c, user, purpose));
    assert w2.issuing[c] == Issuing(user, purpose, OpenRows(w.rows, user, purpose), w.clock);
  }

  lemma ConsumingAlone(w: World, c: CallId, t: Token, purpose: Purpose, now: Time)
    requires c !in w.readings
    ensures Next(Next(w, Read(c, t, purpose, now)), Stamp(c, now)).rows
         == if Check(w.rows, t, purpose, now).None? then w.rows else w.rows[t := w.rows[t].(consumedAt := Some(now))]
  {
    var w2 := Next(w, Read(c, t, purpose, now));
    if Check(w.rows, t, purpose, now).Some? { assert w2.readings[c] == Reading(t, w.clock); }
  }

  /** A day to get to one's inbox; an hour for what takes over an account. */
  function LifetimeHours(purpose: Purpose): nat {
    match purpose
    case EMAIL_VERIFICATION => 24
    case PASSWORD_RESET => 1
  }

  class VerificationTokenService {
    var rows: Table

    method IssueToken(user: UserId, purpose: Purpose, minted: Token, now: Time) returns (issued: bool)
      modifies this
      ensures issued <==> minted !in old(rows)
      ensures !issued ==> rows == old(rows)
      ensures issued ==> rows == Retire(old(rows), OpenRows(old(rows), user, purpose), now)[minted := Row(user, purpose, now + TtlMs(purpose), None)]
      ensures issued ==> OpenRows(rows, user, purpose) == {minted}
      ensures issued ==> forall t: Time :: Check(rows, minted, purpose, t) == if t < now + LifetimeHours(purpose) * 60 * 60 * 1000 then Some(user) else None
      ensures issued ==> forall t :: t in old(rows) && !InSlot(old(rows)[t], user, purpose) ==> t in rows && rows[t] == old(rows)[t]
    {
      if minted in rows {
        return false;
      }
      rows := map t | t in rows ::
        if rows[t].user == user && rows[t].purpose == purpose && rows[t].consumedAt.None?
        then rows[t].(consumedAt := Some(now)) else rows[t];
      assert rows == Retire(old(rows), OpenRows(old(rows), user, purpose), now);
      rows := rows[minted := Row(user, purpose, now + TtlMs(purpose), None)];
      return true;
    }

    method ConsumeToken(presented: Token, purpose: Purpose, now: Time) returns (user: Option<UserId>)
      modifies this
      ensures user == Check(old(rows), presented, purpose, now)
      ensures user.Some? <==>
                && presented in old(rows) && old(rows)[presented].purpose == purpose
                && old(rows)[presented].consumedAt.None? && now < old(rows)[presented].expiresAt
      ensures user.Some? ==> user.value == old(rows)[presented].user
      ensures user.None? ==> rows == old(rows)
      ensures user.Some? ==> presented in old(rows)
      ensures user.Some? ==> rows == old(rows)[presented := old(rows)[presented].(consumedAt := Some(now))]
      ensures Check(rows, presented, purpose, now) == None
    {
      if presented !in rows {
        return None;
      }
      var existing := rows[presented];
      if existing.purpose != purpose || existing.consumedAt.Some? || existing.expiresAt <= now {
        return None;
      }
      rows := rows[presented := existing.(consumedAt := Some(now))];
      return Some(existing.user);
    }
  }
}
