/**
 * The staff operations, overlapping. A role change or a revocation selects the holders FOR
 * UPDATE, reads the account, judges, and writes. Under READ COMMITTED that select takes its
 * two EXISTS from the snapshot it starts on, then waits for the rows it found; a row whose
 * `users` row changed meanwhile is judged again, on that row as it is now and on everything
 * else as it was. So an operation here is four steps: begin, lock, judge, write. The last
 * stands for its commit, which releases its locks.
 */
module StaffRaces {
  import opened Staff

  type OpId = nat

  /** The operations that select the holders first. */
  type Guarded = op: Operation | op.ChangeRole? || op.Revoke? witness ChangeRole(0, 0, "")

  datatype Phase = Waiting | Locked | Judged

  /**
   * `seen` is the snapshot of the select and `holders` the rows it returned. `given` and
   * `revoked` keep account of who was given staff.manage, and whose grant of it was
   * revoked, since that snapshot.
   */
  datatype Call = Call(op: Guarded, seen: Store, phase: Phase, holders: set<UserId>, given: set<UserId>, revoked: set<UserId>)

  /** A committed write: the call as it then was, and whether it took its target out of the holders. */
  datatype Write = Write(call: Call, tookOut: bool)

  datatype World = World(store: Store, calls: map<OpId, Call>, writes: seq<Write>)

  datatype Step =
    | Begin(c: OpId, op: Guarded)
    | Lock(c: OpId)
    | Judge(c: OpId)
    | Commit(c: OpId)
    | Abort(c: OpId)
    | Alone(other: Operation)

  // ---------- The steps ----------

  /** What is checked before the transaction. Roles and the permission rows are constant. */
  predicate Ready(s: Store, op: Guarded) {
    match op
    case ChangeRole(caller, u, role) => u != caller && role in s.roles
    case Revoke(_, _, key) => key in s.permissions
  }

  /** Somebody else has the account's row FOR UPDATE. Locks go to every row the select found. */
  ghost predicate Held(w: World, c: OpId, u: UserId) {
    exists d :: d in w.calls && d != c && HeldBy(w.calls[d], u)
  }

  predicate HeldBy(call: Call, u: UserId) {
    !call.phase.Waiting? && u in Holders(call.seen)
  }

  predicate ByRole(s: Store, u: UserId) {
    u in s.accounts && STAFF_MANAGE in RoleKeys(s, s.accounts[u].role)
  }

  predicate ByGrant(s: Store, u: UserId) {
    u in s.accounts && STAFF_MANAGE in s.accounts[u].grants
  }

  /** The rows found on the snapshot, each judged again on its role as it is now and its grants as they were. */
  function Reread(seen: Store, now: Store): set<UserId> {
    set u | u in Holders(seen) &&
            (ByRole(now, u) || ByGrant(seen, u))
  }

  /** The account read and the guard on it pass. */
  ghost predicate Passes(s: Store, call: Call)
    requires Ready(s, call.op)
  {
    && call.op.target in s.accounts
    && (call.op.Revoke? ==> call.op.key in s.accounts[call.op.target].grants)
    && KeepsAnAdministrator(call.holders, call.op.target, EffectiveAfter(s, call.op))
  }

  function Given(s: Store, op: Operation): set<UserId> {
    match op
    case Register(u, role) => if u !in s.accounts && STAFF_MANAGE in RoleKeys(s, role) then {u} else {}
    case ChangeRole(_, u, role) => if STAFF_MANAGE in RoleKeys(s, role) then {u} else {}
    case Grant(_, u, key) => if key == STAFF_MANAGE then {u} else {}
    case Revoke(_, _, _) => {}
  }

  function Revoked(op: Operation): set<UserId> {
    if op.Revoke? && op.key == STAFF_MANAGE then {op.target} else {}
  }

  function Noted(call: Call, s: Store, op: Operation): Call {
    call.(given := call.given + Given(s, op), revoked := call.revoked + Revoked(op))
  }

  function AllNoted(calls: map<OpId, Call>, s: Store, op: Operation): map<OpId, Call> {
    map d | d in calls :: Noted(calls[d], s, op)
  }

  predicate TakesOut(s: Store, op: Guarded) {
    op.target in Holders(s) && op.target !in Holders(Written(s, op))
  }

  /** The write that call `c` would make, made by a call that has left. */
  function Committed(w: World, c: OpId): World
    requires c in w.calls
  {
    var call := w.calls[c];
    World(Written(w.store, call.op), AllNoted(w.calls - {c}, w.store, call.op), w.writes + [Write(call, TakesOut(w.store, call.op))])
  }

  /** What the last statement of a call needs: the target's row to itself for an update, the grant still there for a delete. */
  ghost predicate Writes(w: World, c: OpId) {
    && c in w.calls && w.calls[c].phase.Judged? && w.calls[c].op.target in w.store.accounts
    && (w.calls[c].op.ChangeRole? ==> !Held(w, c, w.calls[c].op.target))
    && (w.calls[c].op.Revoke? ==> w.calls[c].op.key in w.store.accounts[w.calls[c].op.target].grants)
  }

  /** A new grant checks two foreign keys, and waits for rows that are held FOR UPDATE. */
  ghost predicate Grants(w: World, op: Operation) {
    && op.Grant? && op.target != op.caller && op.key in w.store.permissions
    && op.target in w.store.accounts && op.key !in w.store.accounts[op.target].grants
    && forall d :: d in w.calls ==> !HeldBy(w.calls[d], op.target) && !HeldBy(w.calls[d], op.caller)
  }

  ghost function Next(w: World, step: Step): World {
    match step
    case Begin(c, op) =>
      if c in w.calls || !Ready(w.store, op) then w
      else w.(calls := w.calls[c := Call(op, w.store, Waiting, {}, {}, {})])
    case Lock(c) =>
      if c !in w.calls || !w.calls[c].phase.Waiting? || exists u :: u in Holders(w.calls[c].seen) && Held(w, c, u) then w
      else w.(calls := w.calls[c := w.calls[c].(phase := Locked, holders := Reread(w.calls[c].seen, w.store))])
    case Judge(c) =>
      if c !in w.calls || !w.calls[c].phase.Locked? || !Ready(w.store, w.calls[c].op) then w
      else if Passes(w.store, w.calls[c]) then w.(calls := w.calls[c := w.calls[c].(phase := Judged)])
      else w.(calls := w.calls - {c})
    case Commit(c) =>
      if Writes(w, c) then Committed(w, c) else w
    case Abort(c) => w.(calls := w.calls - {c})
    case Alone(op) =>
      if op.Register? || Grants(w, op) then
        w.(store := Written(w.store, op), calls := AllNoted(w.calls, w.store, op))
      else w
  }

  ghost function Run(w: World, steps: seq<Step>): World {
    if steps == [] then w else Next(Run(w, steps[..|steps| - 1]), steps[|steps| - 1])
  }

  function Start(s: Store): World {
    World(s, map[], [])
  }

  // ---------- The invariant ----------

  /** What a snapshot still tells: grants not revoked since are there, and who was not given anything since holds nothing new. */
  ghost predicate SnapshotFits(s: Store, call: Call) {
    && Ready(s, call.op) && call.seen.roles == s.roles && call.seen.accounts.Keys <= s.accounts.Keys
    && (forall u :: ByGrant(call.seen, u) && u !in call.revoked ==> ByGrant(s, u))
    && (forall u :: ByGrant(s, u) && u !in call.given ==> ByGrant(call.seen, u))
    && (forall u :: u in Holders(s) && u !in call.given ==> u in Holders(call.seen))
    && (forall u :: ByRole(s, u) && u !in call.given ==> ByRole(call.seen, u))
    && (forall u :: u in call.revoked && u !in call.given ==> !ByGrant(s, u))
  }

  /** And what the rows returned still tell. */
  ghost predicate HoldersFit(s: Store, call: Call) {
    && call.holders <= Holders(call.seen)
    && (forall u :: u in call.holders && u !in call.revoked ==> u in Holders(s))
    && (forall u :: u in Holders(s) && u !in call.given ==> u in call.holders)
  }

  /** A judgement holds as long as its target is neither given the permission nor has its grant revoked. */
  ghost predicate JudgementFits(s: Store, call: Call) {
    call.op.target !in call.given && call.op.target !in call.revoked ==>
      !TakesOut(s, call.op) || exists u :: u in call.holders && u != call.op.target
  }

  ghost predicate Fits(s: Store, call: Call) {
    && SnapshotFits(s, call)
    && (!call.phase.Waiting? ==> HoldersFit(s, call))
    && (call.phase.Judged? ==> JudgementFits(s, call))
  }

  /**
   * Overtaken: since the snapshot of the call, its target was given the permission or had
   * its grant revoked, or so had every other account it counted its grant.
   */
  predicate Overtaken(call: Call) {
    || call.op.target in call.given + call.revoked
    || (call.holders - {call.op.target} != {} && call.holders - {call.op.target} <= call.revoked)
  }

  ghost predicate OvertakenWrite(writes: seq<Write>) {
    exists k :: 0 <= k < |writes| && writes[k].tookOut && Overtaken(writes[k].call)
  }

  ghost predicate Inv(w: World) {
    && (forall c :: c in w.calls ==> Fits(w.store, w.calls[c]))
    && (Holders(w.store) == {} ==> OvertakenWrite(w.writes))
  }

  lemma CallAt(w: World, c: OpId)
    requires Inv(w) && c in w.calls
    ensures Fits(w.store, w.calls[c])
  {
  }

  lemma StoreAt(w: World)
    requires Inv(w) && Holders(w.store) == {}
    ensures OvertakenWrite(w.writes)
  {
  }

  // ---------- A write seen by the other calls ----------

  /** The account the operation writes, and what it may do to holding. */
  lemma WrittenTells(s: Store, op: Operation, u: UserId)
    ensures Written(s, op).roles == s.roles && Written(s, op).permissions == s.permissions
    ensures s.accounts.Keys <= Written(s, op).accounts.Keys
    ensures ByGrant(s, u) && u !in Revoked(op) ==> ByGrant(Written(s, op), u)
    ensures ByGrant(Written(s, op), u) && u !in Given(s, op) ==> ByGrant(s, u)
    ensures u in Holders(Written(s, op)) && u !in Given(s, op) ==> u in Holders(s)
    ensures ByRole(Written(s, op), u) && u !in Given(s, op) ==> ByRole(s, u)
    ensures u in Revoked(op) ==> !ByGrant(Written(s, op), u)
    ensures u in Holders(s) && u !in Revoked(op) && !(op.ChangeRole? && op.target == u) ==> u in Holders(Written(s, op))
  {
  }

  lemma SnapshotKept(s: Store, op: Operation, call: Call)
    requires SnapshotFits(s, call)
    ensures SnapshotFits(Written(s, op), Noted(call, s, op))
  {
    forall u ensures ByGrant(s, u) && u !in Revoked(op) ==> ByGrant(Written(s, op), u) { WrittenTells(s, op, u); }
    forall u ensures ByGrant(Written(s, op), u) && u !in Given(s, op) ==> ByGrant(s, u) { WrittenTells(s, op, u); }
    forall u ensures u in Holders(Written(s, op)) && u !in Given(s, op) ==> u in Holders(s) { WrittenTells(s, op, u); }
    forall u ensures (ByRole(Written(s, op), u) && u !in Given(s, op) ==> ByRole(s, u)) && (u in Revoked(op) ==> !ByGrant(Written(s, op), u)) {
      WrittenTells(s, op, u);
    }
    WrittenTells(s, op, 0);
    hide Written, Holders, ByRole, ByGrant, Given, Revoked;
  }

  lemma HoldersKept(s: Store, op: Operation, call: Call)
    requires HoldersFit(s, call) && (op.ChangeRole? ==> op.target !in Holders(call.seen))
    ensures HoldersFit(Written(s, op), Noted(call, s, op))
  {
    forall u ensures u in Holders(Written(s, op)) && u !in Given(s, op) ==> u in Holders(s) { WrittenTells(s, op, u); }
    forall u | u in call.holders ensures u in Holders(s) && u !in Revoked(op) ==> u in Holders(Written(s, op)) { WrittenTells(s, op, u); }
    hide Written, Holders, Given, Revoked;
  }

  lemma JudgementKept(s: Store, op: Operation, call: Call)
    requires SnapshotFits(s, call) && JudgementFits(s, call) && (op.ChangeRole? ==> op.target !in Holders(call.seen))
    ensures JudgementFits(Written(s, op), Noted(call, s, op))
  {
    var t, s' := call.op.target, Written(s, op);
    if t !in call.given + Given(s, op) && t !in call.revoked + Revoked(op) && TakesOut(s', call.op) {
      WrittenTells(s, op, t);
      assert t in Holders(s);
      assert t in Holders(call.seen);
      assert TakesOut(s, call.op);
    }
  }

  lemma FitsKept(s: Store, op: Operation, call: Call)
    requires Fits(s, call) && (op.ChangeRole? && !call.phase.Waiting? ==> op.target !in Holders(call.seen))
    ensures Fits(Written(s, op), Noted(call, s, op))
  {
    SnapshotKept(s, op, call);
    if !call.phase.Waiting? { HoldersKept(s, op, call); }
    if call.phase.Judged? { JudgementKept(s, op, call); }
    hide SnapshotFits, HoldersFit, JudgementFits, Written;
  }

  // ---------- Every step ----------

  lemma BeginFits(s: Store, op: Guarded)
    requires Ready(s, op)
    ensures Fits(s, Call(op, s, Waiting, {}, {}, {}))
  {
  }

  lemma LockFits(s: Store, call: Call)
    requires Fits(s, call) && call.phase.Waiting?
    ensures Fits(s, call.(phase := Locked, holders := Reread(call.seen, s)))
  {
  }

  lemma JudgeFits(s: Store, call: Call)
    requires Fits(s, call) && call.phase.Locked? && Passes(s, call)
    ensures Fits(s, call.(phase := Judged))
  {
    TargetAfter(s, call.op);
    hide EffectiveAfter, Written, Holders;
  }

  /** A write that nothing overtook leaves a holder. */
  lemma WriteKeepsAHolder(s: Store, call: Call)
    requires Fits(s, call) && call.phase.Judged? && Holders(s) != {}
    requires TakesOut(s, call.op) ==> !Overtaken(call)
    ensures Holders(Written(s, call.op)) != {}
  {
    if TakesOut(s, call.op) {
      var others := call.holders - {call.op.target};
      assert others != {} by {
        var v :| v in call.holders && v != call.op.target;
        assert v in others;
      }
      var u :| u in others && u !in call.revoked;
      OtherHoldersStay(s, call.op, u);
    } else {
      var u :| u in Holders(s);
      if u != call.op.target { OtherHoldersStay(s, call.op, u); }
    }
  }

  lemma OvertakenSnoc(writes: seq<Write>, last: Write)
    ensures OvertakenWrite(writes + [last]) <==> OvertakenWrite(writes) || (last.tookOut && Overtaken(last.call))
  {
    var all := writes + [last];
    if k :| 0 <= k < |writes| && writes[k].tookOut && Overtaken(writes[k].call) {
      assert all[k] == writes[k];
    }
    if last.tookOut && Overtaken(last.call) {
      assert all[|writes|] == last;
    }
    if k :| 0 <= k < |all| && all[k].tookOut && Overtaken(all[k].call) {
      assert k < |writes| ==> all[k] == writes[k];
    }
  }

  lemma CommitInv(w: World, c: OpId)
    requires Inv(w) && Writes(w, c)
    ensures Inv(Committed(w, c))
  {
    hide Inv, Fits, Overtaken, OvertakenWrite;
    var call := w.calls[c];
    CallAt(w, c);
    forall d | d in w.calls && d != c ensures Fits(Written(w.store, call.op), Noted(w.calls[d], w.store, call.op)) {
      CallAt(w, d);
      FitsKept(w.store, call.op, w.calls[d]);
    }
    OvertakenSnoc(w.writes, Write(call, TakesOut(w.store, call.op)));
    if Holders(w.store) == {} {
      StoreAt(w);
    } else if !(TakesOut(w.store, call.op) && Overtaken(call)) {
      WriteKeepsAHolder(w.store, call);
    }
    hide Written, Holders, TakesOut;
    Assemble(w, Committed(w, c));
  }

  lemma Assemble(w: World, w': World)
    requires Inv(w)
    requires forall c :: c in w'.calls ==> Fits(w'.store, w'.calls[c])
    requires Holders(w'.store) == {} ==> OvertakenWrite(w'.writes) || (w'.writes == w.writes && Holders(w.store) == {})
    ensures Inv(w')
  {
  }

  lemma AloneInv(w: World, op: Operation)
    requires Inv(w) && (op.Register? || Grants(w, op))
    ensures Inv(Next(w, Alone(op)))
  {
    hide Inv, Fits, OvertakenWrite;
    assert !op.ChangeRole?;
    forall d | d in w.calls ensures Fits(Written(w.store, op), Noted(w.calls[d], w.store, op)) {
      CallAt(w, d);
      FitsKept(w.store, op, w.calls[d]);
    }
    if u :| u in Holders(w.store) {
      WrittenTells(w.store, op, u);
    }
    Assemble(w, Next(w, Alone(op)));
  }

  lemma StepInv(w: World, step: Step)
    requires Inv(w)
    ensures Inv(Next(w, step))
  {
    hide Inv, Fits, OvertakenWrite, Holders, Written, Passes, Grants;
    var w' := Next(w, step);
    match step {
      case Begin(c, op) =>
        if Ready(w.store, op) { BeginFits(w.store, op); }
        forall d | d in w'.calls ensures Fits(w'.store, w'.calls[d]) { if d in w.calls { CallAt(w, d); } }
        Assemble(w, w');
      case Lock(c) =>
        forall d | d in w.calls ensures Fits(w.store, w.calls[d]) { CallAt(w, d); }
        if c in w.calls && w.calls[c].phase.Waiting? { LockFits(w.store, w.calls[c]); }
        Assemble(w, w');
      case Judge(c) =>
        forall d | d in w.calls ensures Fits(w.store, w.calls[d]) { CallAt(w, d); }
        if c in w.calls && w.calls[c].phase.Locked? && Ready(w.store, w.calls[c].op) && Passes(w.store, w.calls[c]) {
          JudgeFits(w.store, w.calls[c]);
        }
        Assemble(w, w');
      case Commit(c) =>
        if Writes(w, c) { CommitInv(w, c); }
      case Abort(c) =>
        forall d | d in w'.calls ensures Fits(w'.store, w'.calls[d]) { CallAt(w, d); }
        Assemble(w, w');
      case Alone(op) =>
        if op.Register? || Grants(w, op) { AloneInv(w, op); }
    }
  }

  lemma {:induction false} InvInEveryRun(s: Store, steps: seq<Step>)
    requires Holders(s) != {}
    ensures Inv(Run(Start(s), steps))
    decreases |steps|
  {
    hide Next, Holders;
    if steps == [] {
      assert Inv(Start(s));
    } else {
      InvInEveryRun(s, steps[..|steps| - 1]);
      StepInv(Run(Start(s), steps[..|steps| - 1]), steps[|steps| - 1]);
    }
    hide Inv;
  }

  // ---------- Main results ----------

  /**
   * In every run of overlapping operations the store runs out of accounts that can manage
   * access only through a write that was overtaken: since its select took its snapshot, its
   * own target was given the permission or had a grant of it revoked, or every other account
   * it counted had.
   */
  lemma EmptiedOnlyWhenOvertaken(s: Store, steps: seq<Step>)
    requires Holders(s) != {} && Holders(Run(Start(s), steps).store) == {}
    ensures OvertakenWrite(Run(Start(s), steps).writes)
  {
    InvInEveryRun(s, steps);
    hide Run, Holders, OvertakenWrite;
  }

  /** The operation neither gives anybody the permission nor revokes a grant of it. */
  predicate Idle(s: Store, op: Operation) {
    match op
    case Register(_, role) => STAFF_MANAGE !in RoleKeys(s, role)
    case ChangeRole(_, _, role) => STAFF_MANAGE !in RoleKeys(s, role)
    case Grant(_, _, key) => key != STAFF_MANAGE
    case Revoke(_, _, key) => key != STAFF_MANAGE
  }

  predicate StepIdle(s: Store, step: Step) {
    match step
    case Begin(_, op) => Idle(s, op)
    case Alone(op) => Idle(s, op)
    case _ => true
  }

  ghost predicate AllIdle(s: Store, w: World) {
    && w.store.roles == s.roles && !OvertakenWrite(w.writes)
    && forall c :: c in w.calls ==> Idle(s, w.calls[c].op) && w.calls[c].given == w.calls[c].revoked == {}
  }

  lemma IdleStep(s: Store, w: World, step: Step)
    requires AllIdle(s, w) && StepIdle(s, step)
    ensures AllIdle(s, Next(w, step))
  {
    hide Written, Passes, Holders, Reread, OvertakenWrite;
    if step.Commit? && Writes(w, step.c) {
      var op := w.calls[step.c].op;
      OvertakenSnoc(w.writes, Write(w.calls[step.c], TakesOut(w.store, op)));
      WrittenTells(w.store, op, 0);
      hide TakesOut;
    } else if step.Alone? {
      WrittenTells(w.store, step.other, 0);
    }
  }

  lemma {:induction false} IdleRun(s: Store, steps: seq<Step>)
    requires forall i :: 0 <= i < |steps| ==> StepIdle(s, steps[i])
    ensures AllIdle(s, Run(Start(s), steps))
    decreases |steps|
  {
    hide Next, StepIdle;
    if steps != [] {
      var init := steps[..|steps| - 1];
      assert forall i :: 0 <= i < |init| ==> init[i] == steps[i];
      IdleRun(s, init);
      IdleStep(s, Run(Start(s), init), steps[|steps| - 1]);
    }
  }

  /** However many demotions overlap, the locks keep a holder as long as nobody revokes a grant of staff.manage or gives it. */
  lemma DemotionsKeepAHolder(s: Store, steps: seq<Step>)
    requires Holders(s) != {}
    requires forall i :: 0 <= i < |steps| ==> StepIdle(s, steps[i])
    ensures Holders(Run(Start(s), steps).store) != {}
  {
    IdleRun(s, steps);
    InvInEveryRun(s, steps);
    hide Run, StepIdle, Holders, OvertakenWrite;
  }

  /** What the locked set is worth, in every run: an account in it holds unless its grant was revoked since; a holder is in it unless given the permission since. */
  lemma LockedSetTells(s: Store, steps: seq<Step>, c: OpId, u: UserId)
    requires Holders(s) != {}
    requires var w := Run(Start(s), steps); c in w.calls && !w.calls[c].phase.Waiting?
    ensures var w := Run(Start(s), steps);
      && (u in w.calls[c].holders ==> u in Holders(w.store) || u in w.calls[c].revoked)
      && (u in Holders(w.store) ==> u in w.calls[c].holders || u in w.calls[c].given)
  {
    InvInEveryRun(s, steps);
    CallAt(Run(Start(s), steps), c);
    hide Inv, Run, Holders;
  }

  /** So a call that waited behind role changes that gave nobody the permission has the holders as they are. */
  lemma RoleChangesAreReread(s: Store, steps: seq<Step>, c: OpId)
    requires Holders(s) != {}
    requires var w := Run(Start(s), steps);
      c in w.calls && !w.calls[c].phase.Waiting? && w.calls[c].given == w.calls[c].revoked == {}
    ensures Run(Start(s), steps).calls[c].holders == Holders(Run(Start(s), steps).store)
  {
    forall u ensures u in Run(Start(s), steps).calls[c].holders <==> u in Holders(Run(Start(s), steps).store) {
      LockedSetTells(s, steps, c, u);
    }
    hide Run, Holders;
  }

  /** Whether every other account the call counted has had its grant revoked since. */
  predicate OthersRevoked(call: Call) {
    call.holders - {call.op.target} <= call.revoked
  }

  /** Nobody else was given the permission since, and the others counted held it by grant alone. */
  ghost predicate GrantsAlone(call: Call) {
    && call.given <= {call.op.target}
    && forall u :: u in call.holders && u != call.op.target ==> !ByRole(call.seen, u)
  }

  /**
   * A write that takes its target out empties the store only if every other account the
   * call counted has had its grant revoked since its snapshot. Where they held by grant
   * alone and nobody else was given the permission since, exactly then; in general, when
   * moreover none of those accounts holds through anything else.
   */
  lemma WriteEmptiesIff(s: Store, steps: seq<Step>, c: OpId)
    requires Holders(s) != {}
    requires var w := Run(Start(s), steps); Writes(w, c) && TakesOut(w.store, w.calls[c].op)
    ensures var w := Run(Start(s), steps);
      var call, emptied := w.calls[c], Holders(Next(w, Commit(c)).store) == {};
      && (emptied ==> OthersRevoked(call))
      && (GrantsAlone(call) ==> (emptied <==> OthersRevoked(call)))
      && (emptied <==> OthersRevoked(call) && forall u :: u in call.holders + call.given && u != call.op.target ==> u !in Holders(w.store))
  {
    InvInEveryRun(s, steps);
    EmptiesAt(Run(Start(s), steps), c);
    hide Inv, Run, Holders, Written, Writes, TakesOut, OthersRevoked, GrantsAlone, Committed;
  }

  lemma EmptiesAt(w: World, c: OpId)
    requires Inv(w) && Writes(w, c) && TakesOut(w.store, w.calls[c].op)
    ensures var call, emptied := w.calls[c], Holders(Next(w, Commit(c)).store) == {};
      && (emptied ==> OthersRevoked(call))
      && (GrantsAlone(call) ==> (emptied <==> OthersRevoked(call)))
      && (emptied <==> OthersRevoked(call) && forall u :: u in call.holders + call.given && u != call.op.target ==> u !in Holders(w.store))
  {
    var call := w.calls[c];
    CallAt(w, c);
    LeftAfter(w.store, call.op);
    assert Next(w, Commit(c)).store == Written(w.store, call.op);
    hide Inv, Holders, Written, Writes, TakesOut, Next;
    EmptyIff(Holders(w.store), call.holders, call.given, call.revoked, call.op.target);
    if GrantsAlone(call) && OthersRevoked(call) {
      forall u | u in call.holders && u != call.op.target ensures u !in Holders(w.store) {
        RevokedForGood(w.store, call, u);
      }
    }
    hide SnapshotFits, JudgementFits, GrantsAlone;
  }

  /** An account that held by grant alone, lost it and was given nothing since, does not hold. */
  lemma RevokedForGood(s: Store, call: Call, u: UserId)
    requires SnapshotFits(s, call) && u in call.revoked && u !in call.given && !ByRole(call.seen, u)
    ensures u !in Holders(s)
  {
  }

  lemma EmptyIff(holding: set<UserId>, counted: set<UserId>, given: set<UserId>, revoked: set<UserId>, t: UserId)
    requires counted <= holding + revoked && holding <= counted + given
    ensures holding - {t} == {} <==> counted - {t} <= revoked && forall u :: u in counted + given && u != t ==> u !in holding
  {
    if u :| u in counted + given && u != t && u in holding { assert u in holding - {t}; }
    if u :| u in holding - {t} { assert u in counted + given; }
  }

  lemma LeftAfter(s: Store, op: Guarded)
    requires TakesOut(s, op)
    ensures Holders(Written(s, op)) == Holders(s) - {op.target}
  {
    forall u | u != op.target ensures u in Holders(Written(s, op)) <==> u in Holders(s) { OtherHoldersStay(s, op, u); }
  }

  ghost predicate CallsReady(w: World) {
    forall c :: c in w.calls ==> Ready(w.store, w.calls[c].op)
  }

  lemma ReadyStep(w: World, step: Step)
    requires CallsReady(w)
    ensures CallsReady(Next(w, step))
  {
    hide Passes, Holders, Reread, TakesOut;
  }

  lemma {:induction false} ReadyInEveryRun(s: Store, steps: seq<Step>)
    ensures CallsReady(Run(Start(s), steps))
    decreases |steps|
  {
    hide Next, CallsReady;
    if steps == [] {
      NoCalls(s);
    } else {
      ReadyInEveryRun(s, steps[..|steps| - 1]);
      ReadyStep(Run(Start(s), steps[..|steps| - 1]), steps[|steps| - 1]);
    }
  }

  lemma NoCalls(s: Store)
    ensures CallsReady(Start(s))
  {
  }

  /** What a committed write means, in every run and whatever it overlapped. */
  lemma CommittedMeans(s: Store, steps: seq<Step>, c: OpId)
    requires Writes(Run(Start(s), steps), c)
    ensures var w := Run(Start(s), steps);
      var after := Next(w, Commit(c)).store;
      match w.calls[c].op
      case ChangeRole(_, u, role) => RoleMoved(w.store, after, u, role)
      case Revoke(_, u, key) => GrantTaken(w.store, after, u, key)
  {
    ReadyInEveryRun(s, steps);
    var w := Run(Start(s), steps);
    hide Run, Holders, TakesOut;
    assert Ready(w.store, w.calls[c].op);
    WriteMeans(w.store, w.calls[c].op);
    hide RoleMoved, GrantTaken, Written;
  }

  lemma WriteMeans(s: Store, op: Guarded)
    requires Ready(s, op) && op.target in s.accounts
    ensures match op
            case ChangeRole(_, u, role) => RoleMoved(s, Written(s, op), u, role)
            case Revoke(_, u, key) => GrantTaken(s, Written(s, op), u, key)
  {
  }

  /** And what a grant means. */
  lemma GrantedMeans(w: World, op: Operation)
    requires Grants(w, op)
    ensures GrantGiven(w.store, Next(w, Alone(op)).store, op.target, op.key, op.caller)
  {
    hide Holders;
  }

  // ---------- A call that runs once the others have stopped ----------

  /** A call locks, judges and writes. */
  ghost function TurnOf(w: World, c: OpId): World {
    Next(Next(Next(w, Lock(c)), Judge(c)), Commit(c))
  }

  ghost predicate NobodyHolds(w: World) {
    forall d :: d in w.calls ==> w.calls[d].phase.Waiting?
  }

  /** What the store comes to when a call has its turn on it, having selected on an earlier one. */
  ghost function After(s: Store, seen: Store, op: Guarded): Store
    requires Ready(s, op)
  {
    if Passes(s, Call(op, seen, Locked, Reread(seen, s), {}, {})) then Written(s, op) else s
  }

  lemma TurnComesTo(w: World, c: OpId)
    requires NobodyHolds(w) && c in w.calls && Ready(w.store, w.calls[c].op)
    ensures var call, w' := w.calls[c], TurnOf(w, c);
      && w'.store == After(w.store, call.seen, call.op)
      && NobodyHolds(w') && w'.calls.Keys == w.calls.Keys - {c}
      && forall d :: d in w'.calls ==> w'.calls[d].op == w.calls[d].op && w'.calls[d].seen == w.calls[d].seen
  {
    hide Written, Holders, EffectiveAfter, KeepsAnAdministrator, Reread;
    var call := w.calls[c];
    var w1 := Next(w, Lock(c));
    assert w1 == w.(calls := w.calls[c := call.(phase := Locked, holders := Reread(call.seen, w.store))]) by {
      assert forall u :: !Held(w, c, u);
    }
    var w2 := Next(w1, Judge(c));
    if Passes(w.store, w1.calls[c]) {
      assert w2 == w1.(calls := w1.calls[c := w1.calls[c].(phase := Judged)]);
      assert !Held(w2, c, call.op.target);
      assert Writes(w2, c);
      assert Next(w2, Commit(c)) == Committed(w2, c);
    } else {
      assert w2 == w1.(calls := w1.calls - {c});
      assert Next(w2, Commit(c)) == w2;
    }
  }

  /** Left alone an operation is the serial one. */
  lemma UndisturbedIsSerial(w: World, c: OpId, op: Guarded)
    requires NobodyHolds(w) && c !in w.calls
    ensures TurnOf(Next(w, Begin(c, op)), c).store == Serve(w.store, op)
  {
    if Ready(w.store, op) {
      hide TurnOf;
      TurnComesTo(Next(w, Begin(c, op)), c);
      RereadAtOnce(w.store);
      hide Written, EffectiveAfter, Reread, Holders;
    } else {
      assert Next(w, Begin(c, op)) == w;
    }
  }

  lemma RereadAtOnce(s: Store)
    ensures Reread(s, s) == Holders(s)
  {
  }

  // ---------- Two operations on one snapshot ----------

  /** The first to run leaves a holder: it judged the holders as they were. */
  lemma FirstKeepsAHolder(s: Store, op: Guarded)
    requires Ready(s, op) && Holders(s) != {}
    ensures Holders(After(s, s, op)) != {}
  {
    RereadAtOnce(s);
    if After(s, s, op) != s {
      TargetAfter(s, op);
      if u :| u in Holders(s) && u != op.target { OtherHoldersStay(s, op, u); }
    }
  }

  /** An account the second counts and that no longer holds was taken out by the first, revoking. */
  lemma CountedInVain(s: Store, first: Guarded, u: UserId)
    requires Ready(s, first) && u in Reread(s, After(s, s, first)) && u !in Holders(After(s, s, first))
    ensures first.Revoke? && u == first.target && TakesOut(s, first)
  {
  }

  predicate EmptiesTogether(s: Store, first: Guarded, second: Guarded) {
    && first.Revoke? && TakesOut(s, first) && TakesOut(s, second)
    && first.target != second.target && Holders(s) == {first.target, second.target}
  }

  /** The turn that empties the store took out the last holder, who was not counted or not alone. */
  lemma LastTurn(s: Store, seen: Store, op: Guarded)
    requires Ready(s, op) && Holders(s) != {} && Holders(After(s, seen, op)) == {}
    ensures Holders(s) == {op.target} && TakesOut(s, op)
    ensures op.target in Reread(seen, s) ==> exists u :: u in Reread(seen, s) && u != op.target
  {
    TargetAfter(s, op);
    forall u | u in Holders(s) ensures u == op.target {
      if u != op.target { OtherHoldersStay(s, op, u); }
    }
    hide EffectiveAfter, Written, Reread;
  }

  /** Who holds after the first turn held before it, if that turn left no other. */
  lemma HeldBefore(s: Store, first: Guarded, t: UserId)
    requires Ready(s, first) && Holders(s) != {} && Holders(After(s, s, first)) == {t}
    ensures t in Holders(s) && t in Reread(s, After(s, s, first))
  {
    var s1 := After(s, s, first);
    assert t in Holders(s1);
    var v :| v in Holders(s);
    if v != first.target { OtherHoldersStay(s, first, v); }
    if t != first.target { OtherHoldersStay(s, first, t); }
  }

  lemma EmptyMeansTogether(s: Store, first: Guarded, second: Guarded)
    requires Ready(s, first) && Ready(s, second) && Holders(s) != {}
    requires var s1 := After(s, s, first); Ready(s1, second) && Holders(After(s1, s, second)) == {}
    ensures EmptiesTogether(s, first, second)
  {
    var s1 := After(s, s, first);
    FirstKeepsAHolder(s, first);
    LastTurn(s1, s, second);
    HeldBefore(s, first, second.target);
    var u :| u in Reread(s, s1) && u != second.target;
    CountedInVain(s, first, u);
    TogetherAre(s, first, second);
    hide Reread, Holders, Written, Passes;
  }

  lemma TogetherAre(s: Store, first: Guarded, second: Guarded)
    requires Ready(s, first) && first.Revoke? && TakesOut(s, first) && first.target != second.target && second.target in Holders(s)
    requires Holders(After(s, s, first)) == {second.target} && TakesOut(After(s, s, first), second)
    ensures EmptiesTogether(s, first, second)
  {
    assert After(s, s, first) == Written(s, first);
    LeftAfter(s, first);
    OtherRowKept(s, first, second.target);
    assert Holders(s) - {first.target} == {second.target};
    forall u | u in Holders(s) ensures u in {first.target, second.target} {
      if u != first.target { assert u in Holders(s) - {first.target}; }
    }
    assert Holders(s) == {first.target, second.target};
  }

  lemma OtherRowKept(s: Store, op: Guarded, u: UserId)
    requires u != op.target && u in s.accounts
    ensures u in Written(s, op).accounts && Written(s, op).accounts[u] == s.accounts[u]
  {
  }

  lemma TogetherMeansEmpty(s: Store, first: Guarded, second: Guarded)
    requires Ready(s, first) && Ready(s, second) && EmptiesTogether(s, first, second)
    ensures var s1 := After(s, s, first); Ready(s1, second) && Holders(After(s1, s, second)) == {}
  {
    RereadAtOnce(s);
    var s1 := After(s, s, first);
    assert second.target in Holders(s) && first.target in Holders(s);
    assert s1 == Written(s, first);
    LeftAfter(s, first);
    OtherRowKept(s, first, second.target);
    assert Reread(s, s1) == Holders(s);
    assert TakesOut(s1, second);
    assert After(s1, s, second) == Written(s1, second);
    LeftAfter(s1, second);
  }

  /**
   * Two operations that selected on one store, one after the other: they leave nobody if and
   * only if the first revokes, each takes its own target out, and those two were all. Behind
   * a role change the second reads again and refuses; behind a revocation it does not.
   */
  lemma RaceEmptiesIff(s: Store, first: Guarded, second: Guarded, c: OpId, d: OpId)
    requires c != d && Ready(s, first) && Ready(s, second) && Holders(s) != {}
    ensures var w := Next(Next(Start(s), Begin(c, first)), Begin(d, second));
      Holders(TurnOf(TurnOf(w, c), d).store) == {} <==> EmptiesTogether(s, first, second)
  {
    hide TurnOf, After, EmptiesTogether, Holders;
    var w := Next(Next(Start(s), Begin(c, first)), Begin(d, second));
    TurnComesTo(w, c);
    var s1 := After(s, s, first);
    AfterIsReady(s, first, second);
    TurnComesTo(TurnOf(w, c), d);
    if Holders(After(s1, s, second)) == {} {
      EmptyMeansTogether(s, first, second);
    }
    if EmptiesTogether(s, first, second) {
      TogetherMeansEmpty(s, first, second);
    }
  }

  lemma AfterIsReady(s: Store, first: Guarded, second: Guarded)
    requires Ready(s, first) && Ready(s, second)
    ensures Ready(After(s, s, first), second)
  {
    WrittenTells(s, first, 0);
  }

  /** Two accounts are all that hold, by grant only, and each renounces: both pass, and nobody is left. */
  lemma RenouncingTogetherEmpties(s: Store, a: UserId, b: UserId, c: OpId, d: OpId)
    requires c != d && a != b && Holders(s) == {a, b} && !ByRole(s, a) && !ByRole(s, b) && STAFF_MANAGE in s.permissions
    ensures var w := Next(Next(Start(s), Begin(c, Revoke(a, a, STAFF_MANAGE))), Begin(d, Revoke(b, b, STAFF_MANAGE)));
      Holders(TurnOf(TurnOf(w, c), d).store) == {}
  {
    hide TurnOf;
    assert a in Holders(s) && b in Holders(s);
    RaceEmptiesIff(s, Revoke(a, a, STAFF_MANAGE), Revoke(b, b, STAFF_MANAGE), c, d);
  }

  // ---------- A holder missed ----------

  /** Role changes alone can do it too, once a target was promoted behind the snapshot: the select never sees it. */
  lemma NewHolderMissed(s: Store, a: UserId, b: UserId, manager: Role, plain: Role)
    requires a != b && Holders(s) == {a} && !ByGrant(s, a) && b in s.accounts
    requires manager in s.roles && STAFF_MANAGE in s.roles[manager] && plain in s.roles && STAFF_MANAGE !in s.roles[plain]
    ensures var w1 := Next(Next(Start(s), Begin(0, ChangeRole(a, b, plain))), Begin(1, ChangeRole(a, b, manager)));
      var w2 := Next(TurnOf(w1, 1), Begin(2, ChangeRole(b, a, plain)));
      Holders(TurnOf(TurnOf(w2, 2), 0).store) == {}
  {
    assert a in Holders(s) && !ByGrant(s, b) by {
      assert b !in Holders(s);
    }
    hide TurnOf, After, Holders;
    var w1 := Next(Next(Start(s), Begin(0, ChangeRole(a, b, plain))), Begin(1, ChangeRole(a, b, manager)));
    TurnComesTo(w1, 1);
    PromotedBehind(s, a, b, manager);
    var s1 := After(s, s, ChangeRole(a, b, manager));
    var w2 := Next(TurnOf(w1, 1), Begin(2, ChangeRole(b, a, plain)));
    TurnComesTo(w2, 2);
    DemotedBehind(s1, a, b, plain);
    var s2 := After(s1, s1, ChangeRole(b, a, plain));
    TurnComesTo(TurnOf(w2, 2), 0);
    MissedInTheEnd(s, s2, a, b, plain);
  }

  lemma PromotedBehind(s: Store, a: UserId, b: UserId, manager: Role)
    requires a != b && Holders(s) == {a} && b in s.accounts && manager in s.roles && STAFF_MANAGE in s.roles[manager]
    ensures var s1 := After(s, s, ChangeRole(a, b, manager));
      s1.roles == s.roles && s1.accounts.Keys == s.accounts.Keys && Holders(s1) == {a, b}
      && (ByGrant(s1, a) <==> ByGrant(s, a)) && (ByGrant(s1, b) <==> ByGrant(s, b))
  {
    var op := ChangeRole(a, b, manager);
    TargetAfter(s, op);
    assert a in Holders(s);
    forall u | u != b ensures u in Holders(Written(s, op)) <==> u in Holders(s) { OtherHoldersStay(s, op, u); }
    assert InCatalog(STAFF_MANAGE);
    assert STAFF_MANAGE in EffectiveAfter(s, op);
  }

  lemma DemotedBehind(s: Store, a: UserId, b: UserId, plain: Role)
    requires a != b && Holders(s) == {a, b} && !ByGrant(s, a) && plain in s.roles && STAFF_MANAGE !in s.roles[plain]
    ensures var s1 := After(s, s, ChangeRole(b, a, plain));
      s1.roles == s.roles && s1.accounts.Keys == s.accounts.Keys && Holders(s1) == {b} && (ByGrant(s1, b) <==> ByGrant(s, b))
  {
    var op := ChangeRole(b, a, plain);
    assert a in Holders(s) && b in Holders(s);
    RereadAtOnce(s);
    TargetAfter(s, op);
    forall u | u != a ensures u in Holders(Written(s, op)) <==> u in Holders(s) { OtherHoldersStay(s, op, u); }
  }

  lemma MissedInTheEnd(seen: Store, s: Store, a: UserId, b: UserId, plain: Role)
    requires a != b && Holders(seen) == {a} && !ByGrant(seen, a) && Holders(s) == {b} && a in s.accounts && b in s.accounts
    requires !ByGrant(s, b) && plain in s.roles && STAFF_MANAGE !in s.roles[plain]
    ensures Holders(After(s, seen, ChangeRole(a, b, plain))) == {}
  {
    var op := ChangeRole(a, b, plain);
    assert a !in Holders(s);
    assert Reread(seen, s) == {};
    TargetAfter(s, op);
    LeftAfter(s, op);
  }

  // ---------- No escalation, and the record of a grant ----------

  predicate StepFor(step: Step, u: UserId) {
    match step
    case Begin(_, op) => ByItselfOrElsewhere(op, u)
    case Alone(op) => ByItselfOrElsewhere(op, u)
    case _ => true
  }

  ghost predicate CallsFor(w: World, u: UserId) {
    forall c :: c in w.calls ==> ByItselfOrElsewhere(w.calls[c].op, u) && NotAtItself(w.calls[c].op)
  }

  lemma NoRaiseStep(w: World, step: Step, u: UserId)
    requires u in w.store.accounts && CallsFor(w, u) && StepFor(step, u)
    ensures u in Next(w, step).store.accounts && Effective(Next(w, step).store, u) <= Effective(w.store, u) && CallsFor(Next(w, step), u)
  {
    hide Written, Effective, Passes, Holders, Reread;
    if step.Commit? && Writes(w, step.c) {
      OwnWriteNeverRaises(w.store, w.calls[step.c].op, u);
    } else if step.Alone? && (step.other.Register? || Grants(w, step.other)) {
      OwnWriteNeverRaises(w.store, step.other, u);
    }
  }

  /** Whatever an account does, to itself or to others, and whatever others do to each other meanwhile, its own permissions never grow. */
  lemma {:induction false} NoSelfEscalation(s: Store, steps: seq<Step>, u: UserId)
    requires u in s.accounts
    requires forall i :: 0 <= i < |steps| ==> StepFor(steps[i], u)
    ensures var w := Run(Start(s), steps);
      u in w.store.accounts && Effective(w.store, u) <= Effective(s, u) && CallsFor(w, u)
    decreases |steps|
  {
    hide Next, Effective, StepFor;
    if steps != [] {
      var init := steps[..|steps| - 1];
      assert forall i :: 0 <= i < |init| ==> init[i] == steps[i];
      NoSelfEscalation(s, init, u);
      NoRaiseStep(Run(Start(s), init), steps[|steps| - 1], u);
    }
  }

  predicate Spares(op: Operation, u: UserId, key: Key) {
    op.Revoke? ==> op.target != u || op.key != key
  }

  predicate StepSpares(step: Step, u: UserId, key: Key) {
    step.Begin? ==> Spares(step.op, u, key)
  }

  ghost predicate CallsSpare(w: World, u: UserId, key: Key) {
    forall c :: c in w.calls ==> Spares(w.calls[c].op, u, key)
  }

  predicate GrantedBy(s: Store, u: UserId, key: Key, grantor: UserId) {
    u in s.accounts && key in s.accounts[u].grants && s.accounts[u].grants[key] == grantor
  }

  lemma SparedStep(w: World, step: Step, u: UserId, key: Key, grantor: UserId)
    requires GrantedBy(w.store, u, key, grantor) && CallsSpare(w, u, key) && StepSpares(step, u, key)
    ensures GrantedBy(Next(w, step).store, u, key, grantor) && CallsSpare(Next(w, step), u, key)
  {
    hide Passes, Holders, Reread;
  }

  /** A grant tells who made it first, until a revocation of it begins, whatever is granted again. */
  lemma {:induction false} FirstGrantIsTheFact(s: Store, steps: seq<Step>, u: UserId, key: Key, grantor: UserId)
    requires GrantedBy(s, u, key, grantor)
    requires forall i :: 0 <= i < |steps| ==> StepSpares(steps[i], u, key)
    ensures GrantedBy(Run(Start(s), steps).store, u, key, grantor) && CallsSpare(Run(Start(s), steps), u, key)
    decreases |steps|
  {
    hide Next, GrantedBy, StepSpares;
    if steps != [] {
      var init := steps[..|steps| - 1];
      assert forall i :: 0 <= i < |init| ==> init[i] == steps[i];
      FirstGrantIsTheFact(s, init, u, key, grantor);
      SparedStep(Run(Start(s), init), steps[|steps| - 1], u, key, grantor);
    }
  }
}
