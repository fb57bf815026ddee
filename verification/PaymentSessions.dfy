/**
 * issueSession: handing back, replacing or creating the way to pay one order, with the
 * order's status, the provider and cancellations free to move between any two awaits.
 */
module PaymentSessions {
  import opened Wrappers

  type Ref = nat
  type CallId = nat

  datatype Mode = Hosted | Embedded

  /** What the provider answers about a session; it leaves Open once and for all. */
  datatype Session = Open(mode: Mode) | Completed | Gone

  /** The provider behind a call's method: one makes what it is asked for, others know a single mode. */
  datatype Maker = Flexible(usual: Mode) | Fixed(only: Mode)

  /** What a call asks for, and of whom. */
  datatype Ask = Ask(wanted: Option<Mode>, maker: Maker)

  function MadeFor(ask: Ask): Mode {
    match ask.maker
    case Fixed(only) => only
    case Flexible(usual) => if ask.wanted.Some? then ask.wanted.value else usual
  }

  /** A pay or checkout call, by what it awaits next; `seen` is the paymentRef it read. */
  datatype Call =
    | Looking(seen: Ref, ask: Ask)
    | Expiring(seen: Ref, ask: Ask)
    | Creating(replaced: Option<Ref>, ask: Ask)
    | Storing(created: Ref, ask: Ask)
    | Closing(created: Ref, ask: Ask)

  datatype Answer = Handed(session: Ref, mode: Mode) | AlreadyPaid | NotAwaiting | Failed

  datatype Reply = Reply(call: CallId, ask: Ask, answer: Answer)

  /**
   * A cancel under way: the reference it read, whether a session was stored between that
   * read and its commit, and whether it has committed.
   */
  datatype Cancel = Cancel(read: Option<Ref>, late: bool, committed: bool)

  /**
   * `failed` are sessions whose best-effort expiry failed, `orphaned` those whose call
   * died before storing or expiring them, `closed` the cancel that cancelled the order,
   * `replies` what the calls were answered.
   */
  datatype World = World(
    awaiting: bool,
    stored: Option<Ref>,
    provider: map<Ref, Session>,
    calls: map<CallId, Call>,
    cancels: map<CallId, Cancel>,
    closed: Option<Cancel>,
    failed: set<Ref>,
    orphaned: set<Ref>,
    replies: seq<Reply>)

  datatype Step =
    | Pay(c: CallId, ask: Ask)
    | Look(c: CallId, answered: bool)
    | Expire(c: CallId, accepted: bool)
    | Create(c: CallId, made: Ref, answered: bool)
    | Store(c: CallId)
    | Close(c: CallId, accepted: bool)
    | Die(c: CallId)
    | CancelReads(c: CallId)
    | CancelCommits(c: CallId)
    | CancelExpires(c: CallId, accepted: bool)
    | CancelDies(c: CallId)
    | Settle
    | BuyerPays(ref: Ref)
    | TimesOut(ref: Ref)

  predicate IsOpen(w: World, r: Ref) {
    r in w.provider && w.provider[r].Open?
  }

  predicate IsCompleted(w: World, r: Ref) {
    r in w.provider && w.provider[r].Completed?
  }

  function End(w: World, c: CallId): World {
    w.(calls := w.calls - {c})
  }

  /** The call returns. */
  function Answered(w: World, c: CallId, ask: Ask, answer: Answer): World {
    End(w, c).(replies := w.replies + [Reply(c, ask, answer)])
  }

  function Become(w: World, c: CallId, call: Call): World {
    w.(calls := w.calls[c := call])
  }

  /** expirePayment: succeeds on a session that is not completed, unless the provider refuses. */
  predicate Expires(w: World, r: Ref, accepted: bool) {
    accepted && !IsCompleted(w, r)
  }

  function Expired(w: World, r: Ref): World {
    if r in w.provider then w.(provider := w.provider[r := Gone]) else w
  }

  function ExpireQuietly(w: World, r: Ref, accepted: bool): World {
    if Expires(w, r, accepted) then Expired(w, r) else w.(failed := w.failed + {r})
  }

  /** A session stored while a cancel has read and not yet committed. */
  function StoredMeanwhile(cancels: map<CallId, Cancel>): map<CallId, Cancel> {
    map c | c in cancels :: if cancels[c].committed then cancels[c] else cancels[c].(late := true)
  }

  predicate IsCallStep(step: Step) {
    step.Pay? || step.Look? || step.Expire? || step.Create? || step.Store? || step.Close? || step.Die?
  }

  predicate IsCancelStep(step: Step) {
    step.CancelReads? || step.CancelCommits? || step.CancelExpires? || step.CancelDies?
  }

  function CallNext(w: World, step: Step): World
    requires IsCallStep(step)
  {
    match step
    case Pay(c, ask) =>
      if c in w.calls then w
      else if !w.awaiting then Answered(w, c, ask, NotAwaiting)
      else Become(w, c, if w.stored.Some? then Looking(w.stored.value, ask) else Creating(None, ask))
    case Look(c, answered) =>
      if c !in w.calls || !w.calls[c].Looking? then w
      else
        var Looking(seen, ask) := w.calls[c];
        if !answered then Answered(w, c, ask, Failed)
        else if IsCompleted(w, seen) then Answered(w, c, ask, AlreadyPaid)
        else if !IsOpen(w, seen) then Become(w, c, Creating(Some(seen), ask))
        else if ask.wanted == None || ask.wanted == Some(w.provider[seen].mode) then
          Answered(w, c, ask, Handed(seen, w.provider[seen].mode))
        else Become(w, c, Expiring(seen, ask))
    case Expire(c, accepted) =>
      if c !in w.calls || !w.calls[c].Expiring? then w
      else
        var Expiring(seen, ask) := w.calls[c];
        if Expires(w, seen, accepted) then Become(Expired(w, seen), c, Creating(Some(seen), ask))
        else Answered(w, c, ask, Failed)
    case Create(c, made, answered) =>
      if c !in w.calls || !w.calls[c].Creating? || made in w.provider then w
      else
        var ask := w.calls[c].ask;
        var w1 := w.(provider := w.provider[made := Open(MadeFor(ask))]);
        if answered then Become(w1, c, Storing(made, ask))
        else Answered(w1, c, ask, Failed).(orphaned := w.orphaned + {made})
    case Store(c) =>
      if c !in w.calls || !w.calls[c].Storing? then w
      else
        var Storing(created, ask) := w.calls[c];
        if w.awaiting then
          Answered(w, c, ask, Handed(created, MadeFor(ask))).(stored := Some(created), cancels := StoredMeanwhile(w.cancels))
        else Become(w, c, Closing(created, ask))
    case Close(c, accepted) =>
      if c !in w.calls || !w.calls[c].Closing? then w
      else Answered(ExpireQuietly(w, w.calls[c].created, accepted), c, w.calls[c].ask, NotAwaiting)
    case Die(c) =>
      if c !in w.calls then w
      else if w.calls[c].Storing? || w.calls[c].Closing? then End(w, c).(orphaned := w.orphaned + {w.calls[c].created})
      else End(w, c)
  }

  function CancelNext(w: World, step: Step): World
    requires IsCancelStep(step)
  {
    match step
    case CancelReads(c) => if c in w.cancels then w else w.(cancels := w.cancels[c := Cancel(w.stored, false, false)])
    case CancelCommits(c) =>
      if c !in w.cancels || w.cancels[c].committed then w
      else if !w.awaiting then w.(cancels := w.cancels - {c})
      else
        var cancel := w.cancels[c].(committed := true);
        w.(awaiting := false, closed := Some(cancel), cancels := w.cancels[c := cancel])
    case CancelExpires(c, accepted) =>
      if c !in w.cancels || !w.cancels[c].committed then w
      else
        var w' := w.(cancels := w.cancels - {c});
        if w.cancels[c].read.Some? then ExpireQuietly(w', w.cancels[c].read.value, accepted) else w'
    case CancelDies(c) =>
      if c !in w.cancels then w
      else
        var w' := w.(cancels := w.cancels - {c});
        if w.cancels[c].committed && w.cancels[c].read.Some? then w'.(orphaned := w.orphaned + {w.cancels[c].read.value}) else w'
  }

  function Next(w: World, step: Step): World {
    if IsCallStep(step) then CallNext(w, step)
    else if IsCancelStep(step) then CancelNext(w, step)
    else
      match step
      case Settle => w.(awaiting := false)
      case BuyerPays(r) => if IsOpen(w, r) then w.(provider := w.provider[r := Completed]) else w
      case TimesOut(r) => if IsOpen(w, r) then w.(provider := w.provider[r := Gone]) else w
  }

  /** What a step of a call leaves alone. */
  lemma CallFrame(w: World, step: Step)
    requires IsCallStep(step)
    ensures var w' := CallNext(w, step);
      && w'.awaiting == w.awaiting && w'.closed == w.closed
      && ((w'.cancels == w.cancels && w'.stored == w.stored) ||
          (step.Store? && w.awaiting && w'.cancels == StoredMeanwhile(w.cancels) && w'.stored.Some?))
  {
    hide IsOpen, IsCompleted, Expires, StoredMeanwhile;
    match step {
      case Pay(_, _) =>
      case Look(_, _) =>
      case Expire(_, _) =>
      case Create(_, _, _) =>
      case Store(_) =>
      case Close(_, _) =>
      case Die(_) =>
    }
  }

  lemma CallsApart(w: World, step: Step, c: CallId)
    requires IsCallStep(step) && c != step.c
    ensures c in CallNext(w, step).calls <==> c in w.calls
    ensures c in w.calls ==> CallNext(w, step).calls[c] == w.calls[c]
  {
    hide IsOpen, IsCompleted, Expires, StoredMeanwhile;
    match step {
      case Pay(_, _) =>
      case Look(_, _) =>
      case Expire(_, _) =>
      case Create(_, _, _) =>
      case Store(_) =>
      case Close(_, _) =>
      case Die(_) =>
    }
  }

  /** What a step of a cancel leaves alone. */
  lemma CancelFrame(w: World, step: Step)
    requires IsCancelStep(step)
    ensures var w' := CancelNext(w, step);
      && w'.calls == w.calls && w'.stored == w.stored && w'.provider.Keys == w.provider.Keys && (w'.awaiting ==> w.awaiting)
      && w.failed <= w'.failed && w.orphaned <= w'.orphaned
      && forall r :: r in w.provider ==> w'.provider[r] == w.provider[r] || w'.provider[r].Gone?
  {
  }

  function Run(w: World, steps: seq<Step>): World {
    if steps == [] then w else Next(Run(w, steps[..|steps| - 1]), steps[|steps| - 1])
  }

  /** An order just created: awaiting payment, no session yet. */
  const NEW_ORDER := World(true, None, map[], map[], map[], None, {}, {}, [])

  /** Every pay or checkout call starts when no other is in flight. */
  ghost predicate OneAtATime(steps: seq<Step>) {
    forall i :: 0 <= i < |steps| && steps[i].Pay? ==> Run(NEW_ORDER, steps[..i]).calls == map[]
  }

  /** Sessions the store knows it may have left payable. */
  predicate Excused(w: World, r: Ref) {
    r in w.failed || r in w.orphaned
  }

  /** The session an in-flight call has created and not yet stored or closed. */
  predicate InHand(w: World, r: Ref) {
    exists c :: c in w.calls && (w.calls[c].Storing? || w.calls[c].Closing?) && w.calls[c].created == r
  }

  predicate Known(w: World, r: Ref) {
    w.stored == Some(r) || InHand(w, r) || Excused(w, r)
  }

  /** What the call in flight has established about the stored session. */
  predicate CallFits(w: World, call: Call) {
    match call
    case Looking(seen, _) => w.stored == Some(seen)
    case Expiring(seen, _) => w.stored == Some(seen)
    case Creating(seen, _) => w.stored == seen && (seen.Some? ==> !IsOpen(w, seen.value) && !IsCompleted(w, seen.value))
    case Storing(r, _) => StoredDead(w, r)
    case Closing(r, _) => StoredDead(w, r) && !w.awaiting
  }

  predicate StoredDead(w: World, r: Ref) {
    && r in w.provider && w.stored != Some(r)
    && (w.stored.Some? ==> !IsOpen(w, w.stored.value) && !IsCompleted(w, w.stored.value))
  }

  ghost predicate Inv(w: World) {
    && (forall c, d :: c in w.calls && d in w.calls ==> c == d)
    && (forall c :: c in w.calls ==> CallFits(w, w.calls[c]))
    && (w.stored.Some? ==> w.stored.value in w.provider)
    && (forall r :: r in w.provider && (w.provider[r].Open? || w.provider[r].Completed?) ==> Known(w, r))
  }

  predicate Live(w: World, r: Ref) {
    IsOpen(w, r) || IsCompleted(w, r)
  }

  /** A session still live after a step was live before it, or is the one just created. */
  lemma LiveBefore(w: World, step: Step, r: Ref)
    requires Live(Next(w, step), r)
    ensures Live(w, r) || (step.Create? && r == step.made && r !in w.provider)
  {
  }

  /** Whoever held a session in hand stores it, closes it, or leaves it excused. */
  lemma InHandNext(w: World, step: Step, r: Ref)
    requires Inv(w) && InHand(w, r) && Live(Next(w, step), r)
    ensures Known(Next(w, step), r)
  {
    var w' := Next(w, step);
    var c :| c in w.calls && (w.calls[c].Storing? || w.calls[c].Closing?) && w.calls[c].created == r;
    assert (c in w'.calls && w'.calls[c].created == r && (w'.calls[c].Storing? || w'.calls[c].Closing?))
           || w'.stored == Some(r) || Excused(w', r);
  }

  /** The stored session is replaced only once it is dead. */
  lemma StoredNext(w: World, step: Step, r: Ref)
    requires Inv(w) && w.stored == Some(r) && Live(Next(w, step), r)
    ensures Next(w, step).stored == Some(r)
  {
    hide Known, InHand, Excused;
    if step.Store? && step.c in w.calls { assert CallFits(w, w.calls[step.c]); }
    if IsCancelStep(step) {
      CancelFrame(w, step);
      hide CancelNext;
    }
  }

  lemma ExcusedStays(w: World, step: Step, r: Ref)
    requires Excused(w, r)
    ensures Excused(Next(w, step), r)
  {
    hide IsOpen, IsCompleted, Expires, StoredMeanwhile;
  }

  lemma CreatedInHand(w: World, step: Step)
    requires step.Create? && step.made !in w.provider && step.made in Next(w, step).provider
    ensures Known(Next(w, step), step.made)
  {
    var w' := Next(w, step);
    if step.answered {
      assert step.c in w'.calls && w'.calls[step.c] == Storing(step.made, w.calls[step.c].ask);
    }
  }

  lemma StepKnown(w: World, step: Step, r: Ref)
    requires Inv(w) && Live(Next(w, step), r)
    ensures Known(Next(w, step), r)
  {
    LiveBefore(w, step, r);
    if !Live(w, r) {
      CreatedInHand(w, step);
    } else {
      assert Known(w, r);
      if w.stored == Some(r) {
        StoredNext(w, step, r);
      } else if InHand(w, r) {
        InHandNext(w, step, r);
      } else {
        ExcusedStays(w, step, r);
      }
    }
    hide Next, Inv, InHand, Excused;
  }

  /** Nobody else can disturb what the call in flight has established. */
  lemma {:induction false} OthersKeepCall(w: World, step: Step, c: CallId)
    requires Inv(w) && c in w.calls && c in Next(w, step).calls && Next(w, step).calls[c] == w.calls[c]
    ensures CallFits(Next(w, step), w.calls[c])
  {
    hide Known, Excused, InHand;
    assert CallFits(w, w.calls[c]);
    if IsCancelStep(step) {
      CancelFrame(w, step);
      hide CancelNext;
    } else if IsCallStep(step) {
      OwnIdleStep(w, step, c);
      hide CallNext;
    }
  }

  /** A call step that changes no call changes nothing a call relies on. */
  lemma OwnIdleStep(w: World, step: Step, c: CallId)
    requires IsCallStep(step) && c in w.calls && (forall d :: d in w.calls ==> d == c)
    requires c in CallNext(w, step).calls && CallNext(w, step).calls[c] == w.calls[c]
    ensures CallNext(w, step).provider == w.provider && CallNext(w, step).stored == w.stored && CallNext(w, step).awaiting == w.awaiting
  {
    hide IsOpen, IsCompleted, Expires, StoredMeanwhile;
  }

  /** What the call itself establishes with its own step. */
  lemma {:induction false} OwnStepFits(w: World, step: Step, c: CallId)
    requires Inv(w) && (step.Pay? ==> w.calls == map[]) && c in Next(w, step).calls
    requires c !in w.calls || Next(w, step).calls[c] != w.calls[c]
    ensures CallFits(Next(w, step), Next(w, step).calls[c])
  {
    hide Known, Excused, InHand, StoredMeanwhile;
    assert c in w.calls ==> CallFits(w, w.calls[c]);
    if IsCancelStep(step) {
      CancelFrame(w, step);
      hide CancelNext;
    } else if IsCallStep(step) {
      if c != step.c { CallsApart(w, step, c); }
      OwnStep(w, step);
      hide CallNext;
    }
  }

  lemma OwnStep(w: World, step: Step)
    requires IsCallStep(step) && (w.stored.Some? ==> w.stored.value in w.provider)
    requires step.c in w.calls ==> CallFits(w, w.calls[step.c])
    requires step.c in CallNext(w, step).calls && (step.c !in w.calls || CallNext(w, step).calls[step.c] != w.calls[step.c])
    ensures CallFits(CallNext(w, step), CallNext(w, step).calls[step.c])
  {
    hide StoredMeanwhile;
  }

  lemma StepOneCall(w: World, step: Step)
    requires step.Pay? ==> w.calls == map[]
    requires forall c, d :: c in w.calls && d in w.calls ==> c == d
    ensures var w' := Next(w, step); forall c, d :: c in w'.calls && d in w'.calls ==> c == d
  {
    hide IsOpen, IsCompleted, StoredMeanwhile;
  }

  lemma StepStored(w: World, step: Step)
    requires w.stored.Some? ==> w.stored.value in w.provider
    requires forall c :: c in w.calls && w.calls[c].Storing? ==> w.calls[c].created in w.provider
    ensures var w' := Next(w, step); w'.stored.Some? ==> w'.stored.value in w'.provider
  {
    hide StoredMeanwhile;
  }

  lemma {:induction false} StepInv(w: World, step: Step)
    requires Inv(w) && (step.Pay? ==> w.calls == map[])
    ensures Inv(Next(w, step))
  {
    var w' := Next(w, step);
    StepOneCall(w, step);
    forall c | c in w.calls && w.calls[c].Storing? ensures w.calls[c].created in w.provider {
      assert CallFits(w, w.calls[c]);
    }
    StepStored(w, step);
    hide Next, Known, CallFits;
    forall r | r in w'.provider && (w'.provider[r].Open? || w'.provider[r].Completed?) ensures Known(w', r) {
      StepKnown(w, step, r);
    }
    forall c | c in w'.calls ensures CallFits(w', w'.calls[c]) {
      if c in w.calls && w'.calls[c] == w.calls[c] { OthersKeepCall(w, step, c); } else { OwnStepFits(w, step, c); }
    }
  }

  lemma {:induction false} InvInEveryRun(steps: seq<Step>)
    requires OneAtATime(steps)
    ensures Inv(Run(NEW_ORDER, steps))
    decreases |steps|
  {
    if steps != [] {
      var init := steps[..|steps| - 1];
      forall i | 0 <= i < |init| && init[i].Pay? ensures Run(NEW_ORDER, init[..i]).calls == map[] {
        assert init[..i] == steps[..i];
      }
      InvInEveryRun(init);
      StepInv(Run(NEW_ORDER, init), steps[|steps| - 1]);
    }
  }

  /**
   * With one call in flight at a time, every session the provider still counts open is
   * the stored one, the one the call in flight just created, or one whose expiry failed
   * or whose call died.
   */
  lemma {:induction false} OpenSessionsAreKnown(steps: seq<Step>, r: Ref)
    requires OneAtATime(steps) && IsOpen(Run(NEW_ORDER, steps), r)
    ensures Known(Run(NEW_ORDER, steps), r)
  {
    InvInEveryRun(steps);
  }

  /** And the buyer cannot complete two sessions of one order, those left behind by failures aside. */
  lemma {:induction false} CompletedAtMostOnce(steps: seq<Step>, r: Ref, q: Ref)
    requires OneAtATime(steps)
    requires var w := Run(NEW_ORDER, steps);
      IsCompleted(w, r) && IsCompleted(w, q) && !Excused(w, r) && !Excused(w, q)
    ensures r == q
  {
    InvInEveryRun(steps);
    HandExcludesStored(Run(NEW_ORDER, steps));
  }

  /** While a call holds a session it created, the stored one is another, and dead. */
  lemma {:induction false} HandExcludesStored(w: World)
    requires Inv(w)
    ensures forall r :: InHand(w, r) ==> StoredDead(w, r)
    ensures forall q, r :: InHand(w, q) && InHand(w, r) ==> q == r
  {
    forall r | InHand(w, r) ensures StoredDead(w, r) {
      var c :| c in w.calls && (w.calls[c].Storing? || w.calls[c].Closing?) && w.calls[c].created == r;
      assert CallFits(w, w.calls[c]);
    }
  }

  lemma TwoMore(steps: seq<Step>, a: Step, b: Step)
    ensures Run(NEW_ORDER, steps + [a, b]) == Next(Next(Run(NEW_ORDER, steps), a), b)
  {
    hide Next;
    var all := steps + [a, b];
    assert all[..|all| - 1] == steps + [a] && (steps + [a])[..|steps|] == steps;
    assert Run(NEW_ORDER, steps + [a]) == Next(Run(NEW_ORDER, steps), a);
  }

  lemma SixSteps(a: Step, b: Step, c: Step, d: Step, e: Step, f: Step)
    ensures Run(NEW_ORDER, [a, b, c, d, e, f]) == Next(Next(Next(Next(Next(Next(NEW_ORDER, a), b), c), d), e), f)
  {
    assert Run(NEW_ORDER, []) == NEW_ORDER;
    hide Run, Next;
    TwoMore([], a, b);
    assert [] + [a, b] == [a, b];
    TwoMore([a, b], c, d);
    assert [a, b] + [c, d] == [a, b, c, d];
    TwoMore([a, b, c, d], e, f);
    assert [a, b, c, d] + [e, f] == [a, b, c, d, e, f];
  }

  /** No mode wanted of a provider that would make a hosted session. */
  const PLAIN := Ask(None, Flexible(Hosted))

  /** Two calls at once do leave a second payable session behind, unknown to the store. */
  lemma TwoCallsLoseASession()
    ensures var w := Run(NEW_ORDER, [Pay(1, PLAIN), Pay(2, PLAIN), Create(1, 10, true), Create(2, 20, true), Store(1), Store(2)]);
      IsOpen(w, 10) && IsOpen(w, 20) && !Known(w, 10)
  {
    SixSteps(Pay(1, PLAIN), Pay(2, PLAIN), Create(1, 10, true), Create(2, 20, true), Store(1), Store(2));
    BothCreate();
    BothStore();
    hide Run, Next;
  }

  function BothCreating(): World {
    NEW_ORDER.(calls := map[1 := Creating(None, PLAIN), 2 := Creating(None, PLAIN)])
  }

  function BothStoring(): World {
    NEW_ORDER.(provider := map[10 := Open(Hosted), 20 := Open(Hosted)], calls := map[1 := Storing(10, PLAIN), 2 := Storing(20, PLAIN)])
  }

  lemma BothCreate()
    ensures Next(Next(NEW_ORDER, Pay(1, PLAIN)), Pay(2, PLAIN)) == BothCreating()
    ensures Next(Next(BothCreating(), Create(1, 10, true)), Create(2, 20, true)) == BothStoring()
  {
  }

  lemma BothStore()
    ensures Next(Next(BothStoring(), Store(1)), Store(2)) == BothStoring().(calls := map[], stored := Some(20), replies := [Reply(1, PLAIN, Handed(10, Hosted)), Reply(2, PLAIN, Handed(20, Hosted))])
  {
  }

  // ---------- Cancelling ----------

  /** A cancel that saw no store since has read what is stored; the committed one is the one that closed the order. */
  predicate CancelFits(w: World, cancel: Cancel) {
    && (cancel.late ==> w.stored.Some?)
    && if cancel.committed then w.closed == Some(cancel) else cancel.late || cancel.read == w.stored
  }

  /** A session that no failure explains is still payable under the stored reference. */
  predicate StoredPayable(w: World) {
    w.stored.Some? && IsOpen(w, w.stored.value) && !Excused(w, w.stored.value)
  }

  ghost predicate CancelsFit(w: World) {
    && (forall c :: c in w.cancels ==> CancelFits(w, w.cancels[c]))
    && (w.closed.Some? ==>
          && !w.awaiting && w.closed.value.committed && (w.closed.value.late || w.closed.value.read == w.stored)
          && (w.closed.value.late ==> w.stored.Some?))
    && (w.closed.Some? && !w.closed.value.late && StoredPayable(w) ==> exists c :: c in w.cancels && w.cancels[c].committed)
  }

  /** What a step does to one cancel, to the stored reference and to who closed the order. */
  lemma CancelMoves(w: World, step: Step, c: CallId)
    requires c in Next(w, step).cancels
    ensures var w', cancel := Next(w, step), Next(w, step).cancels[c];
      || (c !in w.cancels && cancel == Cancel(w.stored, false, false) && w'.stored == w.stored && w'.closed == w.closed)
      || (c in w.cancels && w.awaiting && cancel == w.cancels[c].(committed := true) && w'.closed == Some(cancel) && w'.stored == w.stored)
      || (c in w.cancels && cancel == StoredMeanwhile(w.cancels)[c] && w'.stored.Some? && w'.closed == w.closed)
      || (c in w.cancels && cancel == w.cancels[c] && w'.stored == w.stored && (w'.closed == w.closed || w.awaiting))
  {
    if IsCallStep(step) {
      CallFrame(w, step);
      hide CallNext;
    }
    hide IsOpen, IsCompleted, Expires;
  }

  lemma CancelFitsNext(w: World, step: Step, c: CallId)
    requires CancelsFit(w) && c in Next(w, step).cancels
    ensures CancelFits(Next(w, step), Next(w, step).cancels[c])
  {
    assert c in w.cancels ==> CancelFits(w, w.cancels[c]);
    CancelMoves(w, step, c);
    hide Next, IsOpen, Excused, StoredPayable;
  }

  lemma ClosedNext(w: World, step: Step)
    requires CancelsFit(w)
    ensures var w' := Next(w, step);
      w'.closed.Some? ==>
        && !w'.awaiting && w'.closed.value.committed && (w'.closed.value.late || w'.closed.value.read == w'.stored)
        && (w'.closed.value.late ==> w'.stored.Some?)
  {
    if step.CancelCommits? && step.c in w.cancels { assert CancelFits(w, w.cancels[step.c]); }
    hide IsOpen, Excused, StoredPayable;
  }

  /** A closed order keeps what it stored, and a session payable now was payable before. */
  lemma ClosedKeeps(w: World, step: Step)
    requires w.closed.Some? && !w.awaiting && StoredPayable(Next(w, step)) && (w.stored.Some? ==> w.stored.value in w.provider)
    ensures var w' := Next(w, step);
      w'.stored == w.stored && w'.closed == w.closed && StoredPayable(w)
  {
  }

  /** A cancel that has committed stays until its expiry, which closes what it read. */
  lemma StaysAbout(w: World, step: Step, c: CallId)
    requires !w.awaiting && c in w.cancels && w.cancels[c].committed && w.stored == w.cancels[c].read && StoredPayable(Next(w, step))
    ensures c in Next(w, step).cancels && Next(w, step).cancels[c] == w.cancels[c]
  {
  }

  /** The cancel that closed the order is still about, or its expiry came to the stored session. */
  lemma ClosedStillAbout(w: World, step: Step)
    requires CancelsFit(w) && Next(w, step).closed.Some? && !Next(w, step).closed.value.late && StoredPayable(Next(w, step))
    requires w.stored.Some? ==> w.stored.value in w.provider
    ensures exists c :: c in Next(w, step).cancels && Next(w, step).cancels[c].committed
  {
    var w' := Next(w, step);
    if w.closed.None? {
      ClosedByCommit(w, step);
    } else {
      ClosedKeeps(w, step);
      var c :| c in w.cancels && w.cancels[c].committed;
      assert CancelFits(w, w.cancels[c]);
      StaysAbout(w, step, c);
    }
    hide Next, StoredPayable;
  }

  lemma ClosedByCommit(w: World, step: Step)
    requires w.closed.None? && Next(w, step).closed.Some?
    ensures var w' := Next(w, step); step.CancelCommits? && step.c in w'.cancels && w'.cancels[step.c].committed
  {
    if IsCallStep(step) {
      CallFrame(w, step);
      hide CallNext;
    }
    hide IsOpen, IsCompleted, Expires;
  }

  lemma CancelsFitNext(w: World, step: Step)
    requires CancelsFit(w) && (w.stored.Some? ==> w.stored.value in w.provider)
    ensures CancelsFit(Next(w, step))
  {
    var w' := Next(w, step);
    ClosedNext(w, step);
    if w'.closed.Some? && !w'.closed.value.late && StoredPayable(w') { ClosedStillAbout(w, step); }
    forall c | c in w'.cancels ensures CancelFits(w', w'.cancels[c]) { CancelFitsNext(w, step, c); }
    hide Next, CancelFits, StoredPayable;
  }

  lemma {:induction false} CancelsFitInEveryRun(steps: seq<Step>)
    requires OneAtATime(steps)
    ensures CancelsFit(Run(NEW_ORDER, steps))
    decreases |steps|
  {
    if steps != [] {
      var init := steps[..|steps| - 1];
      forall i | 0 <= i < |init| && init[i].Pay? ensures Run(NEW_ORDER, init[..i]).calls == map[] {
        assert init[..i] == steps[..i];
      }
      CancelsFitInEveryRun(init);
      InvInEveryRun(init);
      CancelsFitNext(Run(NEW_ORDER, init), steps[|steps| - 1]);
    }
  }

  /**
   * Once every call and cancel is over, a cancelled order has no payable session that no
   * failure explains unless one was stored between the cancel's read and its commit. If one
   * was, the only candidate is the one stored, and it is left as long as it has not ended.
   */
  lemma CancelledStaysPayableIff(steps: seq<Step>)
    requires OneAtATime(steps)
    requires var w := Run(NEW_ORDER, steps); w.closed.Some? && w.calls == map[] && w.cancels == map[]
    ensures var w := Run(NEW_ORDER, steps);
      var payable := exists r: Ref :: IsOpen(w, r) && !Excused(w, r);
      && (payable ==> w.closed.value.late)
      && (w.closed.value.late ==> w.stored.Some? && (payable <==> IsOpen(w, w.stored.value) && !Excused(w, w.stored.value)))
  {
    CancelsFitInEveryRun(steps);
    InvInEveryRun(steps);
    var w := Run(NEW_ORDER, steps);
    forall r: Ref | IsOpen(w, r) && !Excused(w, r) ensures w.stored == Some(r) {
      assert Known(w, r);
    }
  }

  /** The order is closed, no call is under way, and no cancel that has committed is after this session. */
  predicate LeftOpen(w: World, r: Ref) {
    && !w.awaiting && w.calls == map[] && w.stored == Some(r) && IsOpen(w, r) && !Excused(w, r)
    && forall c :: c in w.cancels && w.cancels[c].committed ==> w.cancels[c].read != Some(r)
  }

  lemma LeftOpenStep(w: World, step: Step, r: Ref)
    requires LeftOpen(w, r) && step != BuyerPays(r) && step != TimesOut(r)
    ensures LeftOpen(Next(w, step), r)
  {
  }

  /** Such a session outlives every continuation: only the buyer or the provider's clock ends it. */
  lemma {:induction false} LateSessionIsLeft(w: World, steps: seq<Step>, r: Ref)
    requires LeftOpen(w, r) && forall i :: 0 <= i < |steps| ==> steps[i] != BuyerPays(r) && steps[i] != TimesOut(r)
    ensures LeftOpen(Run(w, steps), r)
    decreases |steps|
  {
    hide Next, LeftOpen;
    if steps != [] {
      var init := steps[..|steps| - 1];
      assert forall i :: 0 <= i < |init| ==> init[i] == steps[i];
      LateSessionIsLeft(w, init, r);
      LeftOpenStep(Run(w, init), steps[|steps| - 1], r);
    }
  }

  /** And the commit of a cancel that a store overtook brings it about, whatever else has happened. */
  lemma LateCommitLeaves(w: World, c: CallId, r: Ref)
    requires w.awaiting && w.calls == map[] && c in w.cancels && !w.cancels[c].committed
    requires w.stored == Some(r) && IsOpen(w, r) && !Excused(w, r) && w.cancels[c].read != Some(r)
    requires forall d :: d in w.cancels ==> !w.cancels[d].committed
    ensures LeftOpen(Next(w, CancelCommits(c)), r)
  {
  }

  /** The flag means what it says: it is raised exactly by a store while the cancel has read and not committed. */
  lemma LateMeansStored(w: World, step: Step, c: CallId)
    requires c in w.cancels && c in Next(w, step).cancels
    ensures Next(w, step).cancels[c].late <==>
            w.cancels[c].late || (!w.cancels[c].committed && step.Store? && step.c in w.calls && w.calls[step.c].Storing? && w.awaiting)
  {
  }

  /** It happens: a session stored between a cancel's read and its write outlives the cancelled order. */
  lemma LateSessionOutlivesCancel()
    ensures var w := Run(NEW_ORDER, [CancelReads(1), Pay(2, PLAIN), Create(2, 20, true), Store(2), CancelCommits(1), CancelExpires(1, true)]);
      w.closed.Some? && w.stored == Some(20) && IsOpen(w, 20) && !Excused(w, 20) && w.calls == map[] && w.cancels == map[]
  {
    SixSteps(CancelReads(1), Pay(2, PLAIN), Create(2, 20, true), Store(2), CancelCommits(1), CancelExpires(1, true));
    ReadThenPay();
    StoredLate();
    ClosedLate();
    hide Run, Next;
  }

  function Paying(): World {
    NEW_ORDER.(cancels := map[1 := Cancel(None, false, false)], calls := map[2 := Creating(None, PLAIN)])
  }

  function LateStored(): World {
    NEW_ORDER.(provider := map[20 := Open(Hosted)], stored := Some(20), cancels := map[1 := Cancel(None, true, false)],
                replies := [Reply(2, PLAIN, Handed(20, Hosted))])
  }

  lemma ReadThenPay()
    ensures Next(Next(NEW_ORDER, CancelReads(1)), Pay(2, PLAIN)) == Paying()
  {
  }

  lemma StoredLate()
    ensures Next(Next(Paying(), Create(2, 20, true)), Store(2)) == LateStored()
  {
  }

  lemma ClosedLate()
    ensures Next(Next(LateStored(), CancelCommits(1)), CancelExpires(1, true)) ==
            LateStored().(awaiting := false, closed := Some(Cancel(None, true, true)), cancels := map[])
  {
  }
}
