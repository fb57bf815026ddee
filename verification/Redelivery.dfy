/** What one delivery comes to when it is handled to the end, and why redelivery converges. */
module Redelivery {
  import opened Wrappers
  import opened Rows
  import opened Shop
  import opened Effects
  import opened Conservation
  import opened Lifecycle
  import opened PaymentEvents

  /** The longest path through a handler. */
  const HANDLER_STEPS: nat := 7

  /** `n` steps of one actor with nobody else moving. */
  ghost function Alone(feed: map<EventId, Event>, s: State, actor: Actor, c: Choice, n: nat): (State, Option<Actor>)
    decreases n
  {
    if n == 0 then (s, Some(actor))
    else
      var (s', next) := Go(feed, s, actor, c);
      if next.None? then (s', None) else Alone(feed, s', next.value, c, n - 1)
  }

  predicate IsStamped(s: State, e: EventId) {
    e in s.events && s.events[e]
  }

  /** What resolveOrderId answers, when `pick` is a holder of the intent if there is one. */
  ghost function Found(db: Db, event: Event, pick: OrderId): Option<OrderId> {
    if Resolves(db, event, None) then None else if event.order.Some? then event.order else Some(pick)
  }

  ghost predicate PicksHolder(db: Db, event: Event, pick: OrderId) {
    if event.order.Some? then event.order == Some(pick)
    else !event.Other? && SomeoneHolds(db, event.intent) ==> HoldsIntent(db, pick, event.intent)
  }

  /** The event recorded as seen. */
  function Seen(s: State, e: EventId): State {
    if e in s.events then s else s.(events := s.events[e := false])
  }

  /** claim: an event stamped before is answered at once, any other reaches the dispatch. */
  lemma {:induction false} DeliveryReachesDispatch(feed: map<EventId, Event>, s: State, e: EventId, c: Choice)
    requires e in feed && PicksHolder(s.db, feed[e], c.pick)
    ensures Alone(feed, s, Delivered(e), c, HANDLER_STEPS) ==
            if IsStamped(s, e) then (s, None)
            else Alone(feed, Seen(s, e), Claimed(e, Found(s.db, feed[e], c.pick)), c, if e in s.events then 4 else 5)
  {
    hide Dispatch;
    var found := Found(s.db, feed[e], c.pick);
    assert Go(feed, s, Delivered(e), c) == (s, Some(Resolved(e, found)));
    if e !in s.events {
      assert Go(feed, s, Resolved(e, found), c) == (Seen(s, e), Some(Claimed(e, found)));
      assert Alone(feed, s, Delivered(e), c, 7) == Alone(feed, s, Resolved(e, found), c, 6);
    } else {
      assert Go(feed, s, Resolved(e, found), c) == (s, Some(Collided(e, found)));
      assert Alone(feed, s, Delivered(e), c, 7) == Alone(feed, s, Resolved(e, found), c, 6)
          == Alone(feed, s, Collided(e, found), c, 5);
    }
  }

  /** The dispatch of a refund that commits. */
  lemma RefundGoes(feed: map<EventId, Event>, s: State, e: EventId, o: OrderId, c: Choice)
    requires e in feed && feed[e].RefundMade? && IsPaid(s.db, o)
    requires Commits(s.db, Refund(o, ItemsOf(s.db, o), c.at, feed[e].refundRef))
    ensures Go(feed, s, Claimed(e, Some(o)), c) ==
            (Do(s, Refund(o, ItemsOf(s.db, o), c.at, feed[e].refundRef)), Some(Apologising(o, Some(e))))
  {
    hide Apply, Commits, Resolves;
  }

  /** The mail, then the stamp. */
  lemma ApologisesAndStamps(feed: map<EventId, Event>, s: State, e: EventId, o: OrderId, c: Choice, n: nat)
    requires n >= 2
    ensures Alone(feed, s, Apologising(o, Some(e)), c, n) ==
            (s.(apologised := s.apologised + [o], events := s.events[e := true]), None)
  {
    hide Dispatch, Resolves;
    var s2 := s.(apologised := s.apologised + [o]);
    assert Go(feed, s, Apologising(o, Some(e)), c) == (s2, Some(Dispatched(e, Some(o))));
    assert Go(feed, s2, Dispatched(e, Some(o)), c) == (s2.(events := s2.events[e := true]), None);
    hide Go;
    assert Alone(feed, s, Apologising(o, Some(e)), c, n) == Alone(feed, s2, Dispatched(e, Some(o)), c, n - 1);
  }

  /** A claimed refund ends with the order settled exactly when the order was past CREATED and not cancelled. */
  lemma {:induction false} ClaimedRefundLands(feed: map<EventId, Event>, start: Db, s: State, e: EventId, o: OrderId, c: Choice, n: nat)
    requires Logged(start, s) && e in feed && feed[e].RefundMade? && n >= 3
    ensures var (s', next) := Alone(feed, s, Claimed(e, Some(o)), c, n);
      && next == None && IsStamped(s', e) && Grew(s.db, s'.db)
      && (o in s'.db.orders && Settled(s'.db.orders[o].status) <==>
          o in s.db.orders && s.db.orders[o].status != CREATED && s.db.orders[o].status != CANCELLED)
  {
    var ref := feed[e].refundRef;
    if IsPaid(s.db, o) {
      var txn := Refund(o, ItemsOf(s.db, o), c.at, ref);
      RefundCommitsIff(s.db, o, c.at, ref);
      RefundedNow(s, o, c.at, ref);
      ApplyGrows(s.db, txn);
      hide Apply, Commits;
      var s1 := Do(s, txn);
      RefundGoes(feed, s, e, o, c);
      ApologisesAndStamps(feed, s1, e, o, c, n - 1);
      hide Go, Logged;
      assert Alone(feed, s, Claimed(e, Some(o)), c, n) == Alone(feed, s1, Apologising(o, Some(e)), c, n - 1);
    } else {
      hide Apply, Commits;
      assert Go(feed, s, Claimed(e, Some(o)), c) == (s, Some(Dispatched(e, Some(o))));
      assert Alone(feed, s, Claimed(e, Some(o)), c, n) == Alone(feed, s, Dispatched(e, Some(o)), c, n - 1);
    }
  }

  /**
   * Delivering a refund that names only its intent ends stamped exactly when some order
   * holds the intent, or it was stamped before: refused until the payment registers, and
   * from then on landed by the next redelivery.
   */
  lemma {:induction false} RefundDeliveryStampsIff(feed: map<EventId, Event>, start: Db, s: State, e: EventId, c: Choice)
    requires Logged(start, s) && Stamped(feed, s)
    requires e in feed && feed[e].RefundMade? && feed[e].order == None && PicksHolder(s.db, feed[e], c.pick)
    ensures var (s', next) := Alone(feed, s, Delivered(e), c, HANDLER_STEPS);
      && next == None
      && (IsStamped(s', e) <==> IsStamped(s, e) || SomeoneHolds(s.db, feed[e].intent))
      && (IsStamped(s', e) ==> RefundLanded(s'.db, feed[e].intent))
  {
    DeliveryReachesDispatch(feed, s, e, c);
    if IsStamped(s, e) {
      assert Finished(feed, s, e);
    } else if SomeoneHolds(s.db, feed[e].intent) {
      var n := if e in s.events then 4 else 5;
      ClaimedRefundLands(feed, start, Seen(s, e), e, c.pick, c, n);
      var s' := Alone(feed, Seen(s, e), Claimed(e, Some(c.pick)), c, n).0;
      assert HoldsIntent(s.db, c.pick, feed[e].intent) && OrderSound(s.db.orders[c.pick]);
      assert HoldsIntent(s'.db, c.pick, feed[e].intent);
    } else {
      assert Go(feed, Seen(s, e), Claimed(e, None), c) == (Seen(s, e), None);
    }
  }

  /**
   * A refund that names its order is stamped whatever it finds, and the order is settled
   * afterwards exactly when it was past CREATED and not cancelled: one that overtakes its
   * payment is answered as done and moves nothing.
   */
  lemma {:induction false} NamedRefundLandsIff(feed: map<EventId, Event>, start: Db, s: State, e: EventId, c: Choice)
    requires Logged(start, s) && !IsStamped(s, e)
    requires e in feed && feed[e].RefundMade? && feed[e].order == Some(c.pick)
    ensures var (s', next) := Alone(feed, s, Delivered(e), c, HANDLER_STEPS);
      && next == None && IsStamped(s', e)
      && (c.pick in s'.db.orders && Settled(s'.db.orders[c.pick].status) <==>
          c.pick in s.db.orders && s.db.orders[c.pick].status != CREATED && s.db.orders[c.pick].status != CANCELLED)
  {
    DeliveryReachesDispatch(feed, s, e, c);
    ClaimedRefundLands(feed, start, Seen(s, e), e, c.pick, c, if e in s.events then 4 else 5);
  }

  /** A success event handled to the end is always stamped: a state conflict never reaches the provider as an error. */
  lemma {:induction false} PaymentDeliveryStamps(feed: map<EventId, Event>, s: State, e: EventId, c: Choice)
    requires e in feed && feed[e].Succeeded? && PicksHolder(s.db, feed[e], c.pick)
    ensures var (s', next) := Alone(feed, s, Delivered(e), c, HANDLER_STEPS);
      next == None && IsStamped(s', e)
  {
    DeliveryReachesDispatch(feed, s, e, c);
    if !IsStamped(s, e) {
      ClaimedPaymentStamps(feed, Seen(s, e), e, Found(s.db, feed[e], c.pick), c, if e in s.events then 4 else 5);
    }
  }

  lemma ClaimedPaymentStamps(feed: map<EventId, Event>, s: State, e: EventId, found: Option<OrderId>, c: Choice, n: nat)
    requires e in feed && feed[e].Succeeded? && n >= 4
    ensures var (s', next) := Alone(feed, s, Claimed(e, found), c, n);
      next == None && IsStamped(s', e)
  {
    hide Apply, Commits, Resolves;
    var (s1, next1) := Go(feed, s, Claimed(e, found), c);
    assert Alone(feed, s, Claimed(e, found), c, n) == Alone(feed, s1, next1.value, c, n - 1);
    var (s2, next2) := Go(feed, s1, next1.value, c);
    if !next1.value.Dispatched? {
      assert Alone(feed, s1, next1.value, c, n - 1) == Alone(feed, s2, next2.value, c, n - 2);
      if !next2.value.Dispatched? {
        var (s3, next3) := Go(feed, s2, next2.value, c);
        assert Alone(feed, s2, next2.value, c, n - 2) == Alone(feed, s3, next3.value, c, n - 3);
      }
    }
  }

  /** From the claim on: paid, thanked, stamped. */
  lemma {:induction false} ClaimedPaymentPays(feed: map<EventId, Event>, s: State, e: EventId, c: Choice, n: nat)
    requires e in feed && feed[e].Succeeded? && n >= 3
    requires c.pick in s.db.orders && s.db.orders[c.pick].status == CREATED
    ensures var s1 := Do(s, MarkPaid(c.pick, c.at, Some(feed[e].intent)));
      var s' := Alone(feed, s, Claimed(e, Some(c.pick)), c, n).0;
      s'.db == s1.db && s'.events == s1.events[e := true] && s'.thanked == s.thanked + [c.pick]
  {
    var o, intent := c.pick, feed[e].intent;
    PerformOne(s.db, UpdateOrder(o, ToPaid(c.at, Some(intent))));
    PaidNow(s, o, c.at, Some(intent));
    hide Apply, Commits;
    var s1 := Do(s, MarkPaid(o, c.at, Some(intent)));
    assert Go(feed, s, Claimed(e, Some(o)), c) == (s1, Some(Thanking(o, Some(e))));
    hide Do;
    var s2 := s1.(thanked := s1.thanked + [o]);
    assert Go(feed, s1, Thanking(o, Some(e)), c) == (s2, Some(Dispatched(e, Some(o))));
    assert Alone(feed, s, Claimed(e, Some(o)), c, n) == Alone(feed, s1, Thanking(o, Some(e)), c, n - 1)
        == Alone(feed, s2, Dispatched(e, Some(o)), c, n - 2);
  }

  /** A success event that names a CREATED order pays it. */
  lemma PaymentDeliveryPays(feed: map<EventId, Event>, s: State, e: EventId, c: Choice)
    requires e in feed && feed[e].Succeeded? && feed[e].order == Some(c.pick) && !IsStamped(s, e)
    requires c.pick in s.db.orders && s.db.orders[c.pick].status == CREATED
    ensures var s' := Alone(feed, s, Delivered(e), c, HANDLER_STEPS).0;
      IsStamped(s', e) && HoldsIntent(s'.db, c.pick, feed[e].intent) && s'.db.orders[c.pick].status == PAID
      && s'.thanked == s.thanked + [c.pick]
      && (forall e' :: e' != e && IsStamped(s, e') ==> IsStamped(s', e'))
  {
    var s0 := Seen(s, e);
    DeliveryReachesDispatch(feed, s, e, c);
    ClaimedPaymentPays(feed, s0, e, c, if e in s.events then 4 else 5);
    PerformOne(s0.db, UpdateOrder(c.pick, ToPaid(c.at, Some(feed[e].intent))));
    PaidNow(s0, c.pick, c.at, Some(feed[e].intent));
    hide Alone, Apply, Commits;
  }

  /** From the claim on: refunded under the reference the event brings, its units back on the shelf, apologised for, stamped. */
  lemma {:induction false} ClaimedRefundRefunds(feed: map<EventId, Event>, s: State, e: EventId, c: Choice, n: nat)
    requires OrdersSound(s.db) && ReferencesLive(s.db)
    requires e in feed && feed[e].RefundMade? && n >= 3 && IsPaid(s.db, c.pick)
    ensures var s1 := Do(s, Refund(c.pick, ItemsOf(s.db, c.pick), c.at, feed[e].refundRef));
      var s' := Alone(feed, s, Claimed(e, Some(c.pick)), c, n).0;
      s'.db == s1.db && s'.events == s1.events[e := true] && s'.apologised == s.apologised + [c.pick]
  {
    var o, ref := c.pick, feed[e].refundRef;
    var txn := Refund(o, ItemsOf(s.db, o), c.at, ref);
    hide Go, Apply, Commits, OrdersSound, ReferencesLive;
    RefundCommitsIff(s.db, o, c.at, ref);
    RefundGoes(feed, s, e, o, c);
    var s1 := Do(s, txn);
    ApologisesAndStamps(feed, s1, e, o, c, n - 1);
    assert Alone(feed, s, Claimed(e, Some(o)), c, n) == Alone(feed, s1, Apologising(o, Some(e)), c, n - 1);
  }

  /** A refund event for a PAID order, which it names or whose intent it names, refunds it in full. */
  lemma RefundDeliveryRefunds(feed: map<EventId, Event>, s: State, e: EventId, c: Choice)
    requires OrdersSound(s.db) && ReferencesLive(s.db)
    requires e in feed && feed[e].RefundMade? && !IsStamped(s, e) && IsPaid(s.db, c.pick)
    requires feed[e].order == Some(c.pick) || (feed[e].order == None && HoldsIntent(s.db, c.pick, feed[e].intent))
    ensures var s' := Alone(feed, s, Delivered(e), c, HANDLER_STEPS).0;
      var before, after := s.db.orders[c.pick], s'.db.orders;
      && IsStamped(s', e) && c.pick in after && after[c.pick].status == REFUNDED
      && (feed[e].refundRef.Some? ==> after[c.pick].refundRef == feed[e].refundRef)
      && (forall v :: Stock(s'.db, v) == Stock(s.db, v) + Units(before.items, v))
      && s'.apologised == s.apologised + [c.pick]
  {
    var s0 := Seen(s, e);
    DeliveryReachesDispatch(feed, s, e, c);
    assert Found(s.db, feed[e], c.pick) == Some(c.pick);
    hide Alone, Apply, Commits, Resolves, SomeoneHolds, OrdersSound, ReferencesLive, Stock, Units;
    ClaimedRefundRefunds(feed, s0, e, c, if e in s.events then 4 else 5);
    RefundWritten(s.db, c.pick, c.at, feed[e].refundRef);
  }

  lemma RefundWritten(db: Db, o: OrderId, at: Time, ref: Option<Ref>)
    requires OrdersSound(db) && ReferencesLive(db) && IsPaid(db, o)
    ensures var db' := Apply(db, Refund(o, ItemsOf(db, o), at, ref));
      && o in db'.orders && db'.orders[o].status == REFUNDED && (ref.Some? ==> db'.orders[o].refundRef == ref)
      && forall v :: Stock(db', v) == Stock(db, v) + Units(db.orders[o].items, v)
  {
    RefundCommitsIff(db, o, at, ref);
    CommitEffect(db, Refund(o, ItemsOf(db, o), at, ref));
    hide Apply, Commits, OrdersSound, ReferencesLive;
  }

  /** A refund that names a CREATED order is stamped and changes nothing. */
  lemma {:induction false} EarlyNamedRefundMovesNothing(feed: map<EventId, Event>, s: State, e: EventId, c: Choice)
    requires e in feed && feed[e].RefundMade? && feed[e].order == Some(c.pick) && !IsStamped(s, e)
    requires c.pick in s.db.orders && s.db.orders[c.pick].status == CREATED
    ensures var s' := Alone(feed, s, Delivered(e), c, HANDLER_STEPS).0;
      s'.db == s.db && s'.events == s.events[e := true]
  {
    var s0, n := Seen(s, e), if e in s.events then 4 else 5;
    DeliveryReachesDispatch(feed, s, e, c);
    hide Apply, Commits;
    assert Go(feed, s0, Claimed(e, Some(c.pick)), c) == (s0, Some(Dispatched(e, Some(c.pick))));
    assert Alone(feed, s0, Claimed(e, Some(c.pick)), c, n) == Alone(feed, s0, Dispatched(e, Some(c.pick)), c, n - 1);
  }

  /** The overtaking refund, in full: stamped first, then the order is paid for good although the money went back. */
  lemma OvertakingRefundIsLost(start: Db, o: OrderId, intent: Ref, at: Time)
    requires o in start.orders && start.orders[o].status == CREATED
    ensures var feed: map<EventId, Event> := map[1 := RefundMade(Some(o), intent, None), 2 := Succeeded(Some(o), intent)];
      var c := Choice(at, o, None);
      var s1 := Alone(feed, Opening(start).s, Delivered(1), c, HANDLER_STEPS).0;
      var s2 := Alone(feed, s1, Delivered(2), c, HANDLER_STEPS).0;
      IsStamped(s2, 1) && IsStamped(s2, 2) && HoldsIntent(s2.db, o, intent) && s2.db.orders[o].status == PAID
  {
    var feed: map<EventId, Event> := map[1 := RefundMade(Some(o), intent, None), 2 := Succeeded(Some(o), intent)];
    var c := Choice(at, o, None);
    hide Alone;
    EarlyNamedRefundMovesNothing(feed, Opening(start).s, 1, c);
    var s1 := Alone(feed, Opening(start).s, Delivered(1), c, HANDLER_STEPS).0;
    PaymentDeliveryPays(feed, s1, 2, c);
    assert IsStamped(s1, 1);
  }
}
