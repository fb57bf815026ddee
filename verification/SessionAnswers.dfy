/**
 * What a pay call is answered: which session it hands back, over every run, and what a call
 * that nobody overlaps does with the session it finds.
 */
module SessionAnswers {
  import opened Wrappers
  import opened PaymentSessions

  // ---------- Over every run ----------

  /** Some state of the run had the session open in this mode. */
  ghost predicate WasOpen(steps: seq<Step>, r: Ref, mode: Mode) {
    exists i: nat :: i <= |steps| && OpenIn(Run(NEW_ORDER, steps[..i]), r, mode)
  }

  predicate OpenIn(w: World, r: Ref, mode: Mode) {
    r in w.provider && w.provider[r] == Open(mode)
  }

  /** The mode wanted, or the only one its provider knows. */
  predicate Suits(ask: Ask, mode: Mode) {
    ask.wanted == None || ask.wanted == Some(mode) || ask.maker == Fixed(mode)
  }

  ghost predicate CallHolds(steps: seq<Step>, call: Call) {
    match call
    case Storing(r, ask) => WasOpen(steps, r, MadeFor(ask))
    case Closing(r, ask) => WasOpen(steps, r, MadeFor(ask))
    case _ => true
  }

  ghost predicate ReplyHolds(steps: seq<Step>, reply: Reply) {
    reply.answer.Handed? ==> WasOpen(steps, reply.answer.session, reply.answer.mode) && Suits(reply.ask, reply.answer.mode)
  }

  ghost predicate AllHold(steps: seq<Step>) {
    var w := Run(NEW_ORDER, steps);
    && (forall c :: c in w.calls ==> CallHolds(steps, w.calls[c]))
    && (forall k :: 0 <= k < |w.replies| ==> ReplyHolds(steps, w.replies[k]))
  }

  lemma WasOpenStays(init: seq<Step>, steps: seq<Step>, r: Ref, mode: Mode)
    requires init <= steps && WasOpen(init, r, mode)
    ensures WasOpen(steps, r, mode)
  {
    hide Run;
    var i: nat :| i <= |init| && OpenIn(Run(NEW_ORDER, init[..i]), r, mode);
    assert steps[..i] == init[..i];
  }

  lemma OpenNow(steps: seq<Step>, r: Ref, mode: Mode)
    requires OpenIn(Run(NEW_ORDER, steps), r, mode)
    ensures WasOpen(steps, r, mode)
  {
    assert steps[..|steps|] == steps;
    hide Run;
  }

  /** A call that holds a session created it, open, in this step or had it before. */
  lemma CallAdds(w: World, step: Step, c: CallId)
    requires c in Next(w, step).calls
    ensures var w', call := Next(w, step), Next(w, step).calls[c];
      || (c in w.calls && call == w.calls[c])
      || call.Looking? || call.Expiring? || call.Creating?
      || (call.Storing? && OpenIn(w', call.created, MadeFor(call.ask)))
      || (call.Closing? && c in w.calls && w.calls[c] == Storing(call.created, call.ask))
  {
    if IsCallStep(step) {
      if c != step.c {
        CallsApart(w, step, c);
        hide CallNext;
      }
    } else if IsCancelStep(step) {
      CancelFrame(w, step);
      hide CancelNext;
    }
    hide StoredMeanwhile;
  }

  /** A session is handed back because it was found open in a mode that suits, or because the call has just stored it. */
  predicate RightlyHanded(w: World, reply: Reply) {
    reply.answer.Handed? ==>
      || (OpenIn(w, reply.answer.session, reply.answer.mode) && Suits(reply.ask, reply.answer.mode))
      || (reply.call in w.calls && w.calls[reply.call] == Storing(reply.answer.session, reply.ask) && reply.answer.mode == MadeFor(reply.ask))
  }

  lemma RepliesAdd(w: World, step: Step)
    ensures var w' := Next(w, step);
      || w'.replies == w.replies
      || (|w'.replies| == |w.replies| + 1 && w'.replies[..|w.replies|] == w.replies && RightlyHanded(w, w'.replies[|w.replies|]))
  {
    hide StoredMeanwhile;
    if IsCallStep(step) {
      match step {
        case Pay(_, _) =>
        case Look(_, _) =>
        case Expire(_, _) =>
        case Create(_, _, _) =>
        case Store(_) =>
        case Close(_, _) =>
        case Die(_) =>
      }
    }
  }

  lemma CallHoldsNext(steps: seq<Step>, step: Step, c: CallId)
    requires AllHold(steps) && c in Run(NEW_ORDER, steps + [step]).calls
    ensures CallHolds(steps + [step], Run(NEW_ORDER, steps + [step]).calls[c])
  {
    var all, w := steps + [step], Run(NEW_ORDER, steps);
    assert all[..|steps|] == steps;
    var w' := Next(w, step);
    assert Run(NEW_ORDER, all) == w';
    var call := w'.calls[c];
    CallAdds(w, step, c);
    assert c in w.calls ==> CallHolds(steps, w.calls[c]);
    hide Run, Next, WasOpen, MadeFor;
    if call.Storing? || call.Closing? {
      if OpenIn(w', call.created, MadeFor(call.ask)) && call.Storing? {
        OpenNow(all, call.created, MadeFor(call.ask));
      } else {
        WasOpenStays(steps, all, call.created, MadeFor(call.ask));
      }
    }
  }

  lemma ReplyHoldsNext(steps: seq<Step>, step: Step, k: nat)
    requires AllHold(steps) && k < |Run(NEW_ORDER, steps + [step]).replies|
    ensures ReplyHolds(steps + [step], Run(NEW_ORDER, steps + [step]).replies[k])
  {
    var all, w := steps + [step], Run(NEW_ORDER, steps);
    assert all[..|steps|] == steps;
    var w' := Next(w, step);
    assert Run(NEW_ORDER, all) == w';
    RepliesAdd(w, step);
    var reply := w'.replies[k];
    if k < |w.replies| {
      assert w'.replies[k] == w.replies[k] by { assert w'.replies[..|w.replies|] == w.replies; }
      assert ReplyHolds(steps, w.replies[k]);
    } else if reply.call in w.calls {
      assert CallHolds(steps, w.calls[reply.call]);
    }
    hide Run, Next, WasOpen;
    if reply.answer.Handed? {
      if k == |w.replies| && OpenIn(w, reply.answer.session, reply.answer.mode) {
        OpenNow(steps, reply.answer.session, reply.answer.mode);
      }
      WasOpenStays(steps, all, reply.answer.session, reply.answer.mode);
    }
  }

  lemma {:induction false} AllHoldInEveryRun(steps: seq<Step>)
    ensures AllHold(steps)
    decreases |steps|
  {
    if steps != [] {
      var init, step := steps[..|steps| - 1], steps[|steps| - 1];
      assert steps == init + [step];
      AllHoldInEveryRun(init);
      hide CallHolds, ReplyHolds;
      forall c | c in Run(NEW_ORDER, steps).calls ensures CallHolds(steps, Run(NEW_ORDER, steps).calls[c]) {
        CallHoldsNext(init, step, c);
      }
      forall k | 0 <= k < |Run(NEW_ORDER, steps).replies| ensures ReplyHolds(steps, Run(NEW_ORDER, steps).replies[k]) {
        ReplyHoldsNext(init, step, k);
      }
      hide Run;
    }
  }

  /**
   * In every run, calls that overlap included: a session handed back was open at the
   * provider in the mode the answer says, and that is the mode wanted, if one was, or the
   * only one its provider knows.
   */
  lemma HandedBackSuits(steps: seq<Step>, k: nat)
    requires k < |Run(NEW_ORDER, steps).replies| && Run(NEW_ORDER, steps).replies[k].answer.Handed?
    ensures var reply := Run(NEW_ORDER, steps).replies[k];
      && WasOpen(steps, reply.answer.session, reply.answer.mode)
      && (reply.ask.wanted.Some? ==> reply.answer.mode == reply.ask.wanted.value || reply.ask.maker == Fixed(reply.answer.mode))
  {
    AllHoldInEveryRun(steps);
    hide Run;
    assert ReplyHolds(steps, Run(NEW_ORDER, steps).replies[k]);
  }

  // ---------- A call nobody overlaps ----------

  predicate Quiet(w: World, c: CallId) {
    w.awaiting && c !in w.calls
  }

  function Replied(w: World, c: CallId, ask: Ask, answer: Answer): World {
    w.(replies := w.replies + [Reply(c, ask, answer)])
  }

  /** An open session of the mode wanted, or any when none is: handed back, and nothing else happens. */
  lemma PayAloneReuses(w: World, c: CallId, ask: Ask, r: Ref, mode: Mode)
    requires Quiet(w, c) && w.stored == Some(r) && OpenIn(w, r, mode) && (ask.wanted == None || ask.wanted == Some(mode))
    ensures Next(Next(w, Pay(c, ask)), Look(c, true)) == Replied(w, c, ask, Handed(r, mode))
  {
    var w1 := Next(w, Pay(c, ask));
    assert w1 == w.(calls := w.calls[c := Looking(r, ask)]);
    assert w1.calls - {c} == w.calls;
  }

  /** A completed one: refused, and nothing else happens. */
  lemma PayAloneRefusesPaid(w: World, c: CallId, ask: Ask, r: Ref)
    requires Quiet(w, c) && w.stored == Some(r) && IsCompleted(w, r)
    ensures Next(Next(w, Pay(c, ask)), Look(c, true)) == Replied(w, c, ask, AlreadyPaid)
  {
    var w1 := Next(w, Pay(c, ask));
    assert w1 == w.(calls := w.calls[c := Looking(r, ask)]);
    assert w1.calls - {c} == w.calls;
  }

  /** The world with a new session stored and handed back. */
  function WithNew(w: World, c: CallId, ask: Ask, made: Ref): World {
    Replied(w, c, ask, Handed(made, MadeFor(ask))).(
      provider := w.provider[made := Open(MadeFor(ask))], stored := Some(made), cancels := StoredMeanwhile(w.cancels))
  }

  lemma CreatesAndStores(w: World, c: CallId, replaced: Option<Ref>, ask: Ask, made: Ref)
    requires Quiet(w, c) && made !in w.provider
    ensures Next(Next(w.(calls := w.calls[c := Creating(replaced, ask)]), Create(c, made, true)), Store(c)) == WithNew(w, c, ask, made)
  {
    hide StoredMeanwhile;
    var w1 := w.(calls := w.calls[c := Creating(replaced, ask)]);
    var w2 := Next(w1, Create(c, made, true));
    assert w2 == w.(provider := w.provider[made := Open(MadeFor(ask))], calls := w1.calls[c := Storing(made, ask)]);
    assert w2.calls - {c} == w.calls;
  }

  /** None stored, or one that has run out: a new session is stored and handed back. */
  lemma PayAloneCreates(w: World, c: CallId, ask: Ask, made: Ref)
    requires Quiet(w, c) && made !in w.provider && (w.stored.Some? ==> !IsOpen(w, w.stored.value) && !IsCompleted(w, w.stored.value))
    ensures var w1 := Next(w, Pay(c, ask));
      Next(Next(if w.stored.Some? then Next(w1, Look(c, true)) else w1, Create(c, made, true)), Store(c)) == WithNew(w, c, ask, made)
  {
    var w1 := Next(w, Pay(c, ask));
    var w2 := if w.stored.Some? then Next(w1, Look(c, true)) else w1;
    if w.stored.Some? {
      assert w1 == w.(calls := w.calls[c := Looking(w.stored.value, ask)]);
      assert w1.calls[c := Creating(w.stored, ask)] == w.calls[c := Creating(w.stored, ask)];
    }
    assert w2 == w.(calls := w.calls[c := Creating(w.stored, ask)]);
    CreatesAndStores(w, c, w.stored, ask, made);
    hide Next;
  }

  /** An open one of another mode: it is gone, and a new one of the mode wanted is stored and handed back. */
  lemma PayAloneReplaces(w: World, c: CallId, ask: Ask, r: Ref, mode: Mode, made: Ref)
    requires Quiet(w, c) && w.stored == Some(r) && OpenIn(w, r, mode) && made !in w.provider
    requires ask.wanted.Some? && ask.wanted.value != mode
    ensures var w3 := Next(Next(Next(w, Pay(c, ask)), Look(c, true)), Expire(c, true));
      var w' := Next(Next(w3, Create(c, made, true)), Store(c));
      && w' == WithNew(w.(provider := w.provider[r := Gone]), c, ask, made)
      && w'.provider[r].Gone? && w'.stored == Some(made)
      && (ask.maker.Flexible? ==> w'.provider[made] == Open(ask.wanted.value))
  {
    var w1 := Next(w, Pay(c, ask));
    assert w1 == w.(calls := w.calls[c := Looking(r, ask)]);
    var w2 := Next(w1, Look(c, true));
    assert w2 == w.(calls := w1.calls[c := Expiring(r, ask)]);
    var gone := w.(provider := w.provider[r := Gone]);
    var w3 := Next(w2, Expire(c, true));
    assert w2.calls[c := Creating(Some(r), ask)] == w.calls[c := Creating(Some(r), ask)];
    assert w3 == gone.(calls := gone.calls[c := Creating(Some(r), ask)]);
    CreatesAndStores(gone, c, Some(r), ask, made);
    hide Next;
  }

  /** When that expiry fails the call does too, and the old session is still the stored one, payable. */
  lemma PayAloneAborts(w: World, c: CallId, ask: Ask, r: Ref, mode: Mode)
    requires Quiet(w, c) && w.stored == Some(r) && OpenIn(w, r, mode) && ask.wanted.Some? && ask.wanted.value != mode
    ensures Next(Next(Next(w, Pay(c, ask)), Look(c, true)), Expire(c, false)) == Replied(w, c, ask, Failed)
  {
    var w1 := Next(w, Pay(c, ask));
    assert w1 == w.(calls := w.calls[c := Looking(r, ask)]);
    var w2 := Next(w1, Look(c, true));
    assert w2 == w.(calls := w1.calls[c := Expiring(r, ask)]);
    assert w2.calls - {c} == w.calls;
  }

  // ---------- A cancel nobody overlaps, and a store that came too late ----------

  /** A cancel of an order with an open session closes both, and leaves nothing behind. */
  lemma CancelAloneCloses(w: World, c: CallId, r: Ref, mode: Mode)
    requires w.awaiting && c !in w.cancels && w.stored == Some(r) && OpenIn(w, r, mode)
    ensures Next(Next(Next(w, CancelReads(c)), CancelCommits(c)), CancelExpires(c, true)) ==
            w.(awaiting := false, closed := Some(Cancel(Some(r), false, true)), provider := w.provider[r := Gone])
  {
    var w1 := Next(w, CancelReads(c));
    assert w1 == w.(cancels := w.cancels[c := Cancel(Some(r), false, false)]);
    var w2 := Next(w1, CancelCommits(c));
    assert w2.cancels - {c} == w.cancels;
  }

  /** A call whose order moved while it created a session closes that session again and says so. */
  lemma LateStoreCloses(w: World, c: CallId, ask: Ask, r: Ref, mode: Mode)
    requires !w.awaiting && c in w.calls && w.calls[c] == Storing(r, ask) && OpenIn(w, r, mode)
    ensures Next(Next(w, Store(c)), Close(c, true)) ==
            w.(calls := w.calls - {c}, provider := w.provider[r := Gone], replies := w.replies + [Reply(c, ask, NotAwaiting)])
  {
    var w1 := Next(w, Store(c));
    assert w1 == w.(calls := w.calls[c := Closing(r, ask)]);
    assert w1.calls - {c} == w.calls - {c};
  }

  // ---------- What ends for good ----------

  lemma EndedStays(w: World, step: Step, r: Ref)
    requires r in w.provider && !w.provider[r].Open?
    ensures r in Next(w, step).provider && Next(w, step).provider[r] == w.provider[r]
  {
    hide StoredMeanwhile, MadeFor;
  }

  /** Paid or timed out, a session stays so. */
  lemma {:induction false} EndedForGood(w: World, r: Ref, paid: bool, steps: seq<Step>)
    requires IsOpen(w, r)
    ensures var w' := Run(Next(w, if paid then BuyerPays(r) else TimesOut(r)), steps);
      r in w'.provider && w'.provider[r] == if paid then Completed else Gone
    decreases |steps|
  {
    if steps != [] {
      EndedForGood(w, r, paid, steps[..|steps| - 1]);
      EndedStays(Run(Next(w, if paid then BuyerPays(r) else TimesOut(r)), steps[..|steps| - 1]), steps[|steps| - 1], r);
      hide Next;
    }
  }

  /** Paid or moved on by another route, the order hands out and stores no session again. */
  lemma {:induction false} SettledForGood(w: World, steps: seq<Step>)
    ensures var w' := Run(Next(w, Settle), steps);
      && !w'.awaiting && w'.stored == w.stored
      && forall c, ask :: c !in w'.calls ==> Next(w', Pay(c, ask)) == Replied(w', c, ask, NotAwaiting)
    decreases |steps|
  {
    if steps != [] {
      SettledForGood(w, steps[..|steps| - 1]);
      var w1, step := Run(Next(w, Settle), steps[..|steps| - 1]), steps[|steps| - 1];
      if IsCallStep(step) { CallFrame(w1, step); }
      if IsCancelStep(step) { CancelFrame(w1, step); }
    }
    var w' := Run(Next(w, Settle), steps);
    hide Run;
    forall c, ask | c !in w'.calls ensures Next(w', Pay(c, ask)) == Replied(w', c, ask, NotAwaiting) {
      assert w'.calls - {c} == w'.calls;
    }
  }
}
