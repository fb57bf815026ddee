/**
 * The webhook handler in the form it has: it inserts the event's row, dispatches, stamps
 * the row. Left alone it does what the interleaved machine's handler does.
 */
module PaymentEventsService {
  import opened Wrappers
  import opened Rows
  import opened Shop
  import opened Effects
  import opened Lifecycle
  import opened PaymentEvents
  import opened Redelivery
  import Services = OrdersService

  function Stamp(s: State, e: EventId): State {
    s.(events := s.events[e := true])
  }

  /** A log line that names the intent. */
  function Name(s: State, intent: Ref): State {
    s.(named := s.named + {intent})
  }

  /** A log line that names the order and not the intent. */
  function Flag(s: State, o: OrderId): State {
    s.(flagged := s.flagged + {o})
  }

  /** What a claimed payment comes to. */
  function PaymentApplied(s: State, found: Option<OrderId>, intent: Ref, at: Time): State {
    if found.None? then Name(s, intent)
    else
      var o := found.value;
      if Commits(s.db, MarkPaid(o, at, Some(intent))) then
        var s' := Do(s, MarkPaid(o, at, Some(intent)));
        s'.(thanked := s'.thanked + [o])
      else if !IsPaid(s.db, o) then Flag(s, o)
      else if s.db.orders[o].intent == Some(intent) then s
      else Name(s, intent)
  }

  /** What a claimed refund comes to; none when the delivery is refused and left unstamped. */
  function RefundApplied(s: State, found: Option<OrderId>, ref: Option<Ref>, at: Time): Option<State> {
    if found.None? then None
    else
      var o := found.value;
      if !IsPaid(s.db, o) then Some(s)
      else
        var txn := Refund(o, s.db.orders[o].items, at, ref);
        if !Commits(s.db, txn) then None
        else Some(Do(s, txn).(apologised := s.apologised + [o]))
  }

  function ClaimedApplied(s: State, e: EventId, event: Event, found: Option<OrderId>, at: Time): State {
    match event
    case Other(_) => Stamp(s, e)
    case Succeeded(_, intent) => Stamp(PaymentApplied(s, found, intent, at), e)
    case RefundMade(_, _, ref) =>
      var applied := RefundApplied(s, found, ref, at);
      if applied.Some? then Stamp(applied.value, e) else s
  }

  lemma StampsAlone(feed: map<EventId, Event>, s: State, e: EventId, found: Option<OrderId>, c: Choice, n: nat)
    requires n >= 1
    ensures Alone(feed, s, Dispatched(e, found), c, n).0 == Stamp(s, e)
  {
  }

  lemma PaymentAlone(feed: map<EventId, Event>, s: State, e: EventId, found: Option<OrderId>, c: Choice, n: nat)
    requires e in feed && feed[e].Succeeded? && n >= 4
    ensures Alone(feed, s, Claimed(e, found), c, n).0 ==
            Stamp(PaymentApplied(s, found, feed[e].intent, c.at), e)
  {
    hide Apply, Commits;
    var (s1, next1) := Go(feed, s, Claimed(e, found), c);
    assert Alone(feed, s, Claimed(e, found), c, n) == Alone(feed, s1, next1.value, c, n - 1);
    if next1.value.Dispatched? {
      StampsAlone(feed, s1, e, found, c, n - 1);
    } else {
      var (s2, next2) := Go(feed, s1, next1.value, c);
      assert Alone(feed, s1, next1.value, c, n - 1) == Alone(feed, s2, next2.value, c, n - 2);
      if next2.value.Dispatched? {
        StampsAlone(feed, s2, e, found, c, n - 2);
      } else {
        var (s3, next3) := Go(feed, s2, next2.value, c);
        assert Alone(feed, s2, next2.value, c, n - 2) == Alone(feed, s3, next3.value, c, n - 3);
        StampsAlone(feed, s3, e, found, c, n - 3);
      }
    }
  }

  lemma RefundAlone(feed: map<EventId, Event>, s: State, e: EventId, found: Option<OrderId>, c: Choice, n: nat)
    requires e in feed && feed[e].RefundMade? && n >= 4
    ensures Alone(feed, s, Claimed(e, found), c, n).0 == ClaimedApplied(s, e, feed[e], found, c.at)
  {
    hide Apply, Commits;
    var (s1, next1) := Go(feed, s, Claimed(e, found), c);
    if next1.Some? {
      assert Alone(feed, s, Claimed(e, found), c, n) == Alone(feed, s1, next1.value, c, n - 1);
      if next1.value.Dispatched? {
        StampsAlone(feed, s1, e, found, c, n - 1);
      } else {
        var (s2, next2) := Go(feed, s1, next1.value, c);
        assert Alone(feed, s1, next1.value, c, n - 1) == Alone(feed, s2, next2.value, c, n - 2);
        StampsAlone(feed, s2, e, found, c, n - 2);
      }
    }
  }

  /** The machine's handler, run to its end with nobody else moving. */
  lemma {:induction false} HandledAlone(feed: map<EventId, Event>, s: State, e: EventId, c: Choice)
    requires e in feed && PicksHolder(s.db, feed[e], c.pick)
    ensures Alone(feed, s, Delivered(e), c, HANDLER_STEPS).0 ==
            if IsStamped(s, e) then s
            else ClaimedApplied(Seen(s, e), e, feed[e], Found(s.db, feed[e], c.pick), c.at)
  {
    DeliveryReachesDispatch(feed, s, e, c);
    hide Apply, Commits;
    if !IsStamped(s, e) {
      var found, s0, n := Found(s.db, feed[e], c.pick), Seen(s, e), if e in s.events then 4 else 5;
      match feed[e] {
        case Succeeded(_, _) => PaymentAlone(feed, s0, e, found, c, n);
        case RefundMade(_, _, _) => RefundAlone(feed, s0, e, found, c, n);
        case Other(_) =>
          assert Go(feed, s0, Claimed(e, found), c) == (s0, Some(Dispatched(e, found)));
          StampsAlone(feed, s0, e, found, c, n - 1);
      }
    }
  }

  // ---------- Which charges can be reversed ----------

  /** Somebody can tell which charge it was: the intent is on an order, or a log line names it. */
  ghost predicate Traceable(s: State, intent: Ref) {
    intent in s.named || SomeoneHolds(s.db, intent)
  }

  /**
   * One delivery of a success event, stamped at its end, leaves its charge traceable
   * exactly when it was already, no order was named, or the order named is CREATED or
   * PAID. For an order missing or in any other state only the order is flagged.
   */
  lemma ChargeTraceableIff(feed: map<EventId, Event>, s: State, e: EventId, c: Choice)
    requires e in feed && feed[e].Succeeded? && PicksHolder(s.db, feed[e], c.pick) && !IsStamped(s, e)
    ensures var Succeeded(order, intent) := feed[e];
      var s' := Alone(feed, s, Delivered(e), c, HANDLER_STEPS).0;
      var payable := order.Some? && order.value in s.db.orders && s.db.orders[order.value].status in {CREATED, PAID};
      && IsStamped(s', e)
      && (Traceable(s', intent) <==> Traceable(s, intent) || order.None? || payable)
      && (order.Some? && !payable ==> s' == Stamp(Flag(Seen(s, e), order.value), e))
  {
    HandledAlone(feed, s, e, c);
    hide Alone, Apply, Commits;
    var Succeeded(order, intent) := feed[e];
    var s0, found := Seen(s, e), Found(s.db, feed[e], c.pick);
    assert found == if order.Some? then order else if SomeoneHolds(s.db, intent) then Some(c.pick) else None;
    if found.Some? {
      var o := found.value;
      PaysIff(s0, o, c.at, intent);
      if Commits(s.db, MarkPaid(o, c.at, Some(intent))) {
        assert HoldsIntent(Do(s0, MarkPaid(o, c.at, Some(intent))).db, o, intent);
      } else {
        assert IsPaid(s.db, o) && s.db.orders[o].intent == Some(intent) ==> HoldsIntent(s.db, o, intent);
      }
    }
    hide HoldsIntent;
  }

  /** markPaid matches exactly a CREATED order, which then holds the intent. */
  lemma PaysIff(s: State, o: OrderId, at: Time, intent: Ref)
    ensures Commits(s.db, MarkPaid(o, at, Some(intent))) <==> o in s.db.orders && s.db.orders[o].status == CREATED
    ensures Commits(s.db, MarkPaid(o, at, Some(intent))) ==> HoldsIntent(Do(s, MarkPaid(o, at, Some(intent))).db, o, intent)
  {
    PerformOne(s.db, UpdateOrder(o, ToPaid(at, Some(intent))));
    if Commits(s.db, MarkPaid(o, at, Some(intent))) {
      PaidNow(s, o, at, Some(intent));
    }
  }

  /** It happens to every order cancelled before its payment arrives: the event is stamped, and nothing names the charge. */
  lemma CancelledChargeIsUntraced(start: Db, o: OrderId, intent: Ref, at: Time)
    requires OrdersSound(start) && ReferencesLive(start)
    requires o in start.orders && start.orders[o].status == CREATED && !SomeoneHolds(start, intent)
    ensures var feed: map<EventId, Event> := map[1 := Succeeded(Some(o), intent)];
      var c := Choice(at, o, None);
      var s1 := Alone(feed, Opening(start).s, CancelRoute(o), c, HANDLER_STEPS).0;
      var s2 := Alone(feed, s1, Delivered(1), c, HANDLER_STEPS).0;
      && s1.db.orders.Keys == start.orders.Keys && s1.db.orders[o].status == CANCELLED
      && IsStamped(s2, 1) && !Traceable(s2, intent) && s2.flagged == {o}
  {
    var feed: map<EventId, Event> := map[1 := Succeeded(Some(o), intent)];
    var c, s0 := Choice(at, o, None), Opening(start).s;
    hide Alone, Apply, Commits, Go;
    CancelAlone(feed, s0, o, c);
    CancelledNow(start, o, intent, at);
    ChargeTraceableIff(feed, Do(s0, Cancel(o, start.orders[o].items, at)), 1, c);
  }

  lemma CancelAlone(feed: map<EventId, Event>, s: State, o: OrderId, c: Choice)
    requires o in s.db.orders
    ensures Alone(feed, s, CancelRoute(o), c, HANDLER_STEPS).0 == Do(s, Cancel(o, s.db.orders[o].items, c.at))
  {
    hide Apply, Commits, Resolves;
    var items := s.db.orders[o].items;
    assert Go(feed, s, CancelRoute(o), c) == (s, Some(CancelRead(o, items)));
    assert Go(feed, s, CancelRead(o, items), c) == (Do(s, Cancel(o, items, c.at)), None);
    assert Alone(feed, s, CancelRoute(o), c, 7) == Alone(feed, s, CancelRead(o, items), c, 6);
  }

  // ---------- The routes, left alone ----------

  /** mark-paid: pays exactly a CREATED order, and thanks its buyer. */
  lemma PayRouteAlone(feed: map<EventId, Event>, s: State, o: OrderId, c: Choice)
    ensures Alone(feed, s, PayRoute(o), c, HANDLER_STEPS).0 ==
            if o in s.db.orders && s.db.orders[o].status == CREATED
            then Do(s, MarkPaid(o, c.at, None)).(thanked := s.thanked + [o]) else s
  {
    PerformOne(s.db, UpdateOrder(o, ToPaid(c.at, None)));
    hide Apply, Commits;
    var pays := o in s.db.orders && s.db.orders[o].status == CREATED;
    var s1 := Do(s, MarkPaid(o, c.at, None));
    assert Go(feed, s, PayRoute(o), c) == if pays then (s1, Some(Thanking(o, None))) else (s, None) by {
      MarkPaidCommitsIff(s.db, o, c.at, None);
    }
    if pays {
      assert Go(feed, s1, Thanking(o, None), c) == (s1.(thanked := s1.thanked + [o]), None);
      assert Alone(feed, s, PayRoute(o), c, 7) == Alone(feed, s1, Thanking(o, None), c, 6);
    }
  }

  lemma MarkPaidCommitsIff(db: Db, o: OrderId, at: Time, intent: Option<Ref>)
    ensures Commits(db, MarkPaid(o, at, intent)) <==> o in db.orders && db.orders[o].status == CREATED
  {
    PerformOne(db, UpdateOrder(o, ToPaid(at, intent)));
  }

  /** refund: asks the provider exactly for a PAID order with an intent; what it answers is recorded, the order refunded under it, the buyer told. */
  lemma RefundRouteAlone(feed: map<EventId, Event>, s: State, o: OrderId, c: Choice)
    requires OrdersSound(s.db) && ReferencesLive(s.db)
    ensures var refundable := IsPaid(s.db, o) && s.db.orders[o].intent.Some?;
      Alone(feed, s, RefundRoute(o), c, HANDLER_STEPS).0 ==
      if !refundable || c.answer.None? then s
      else Do(s, Refund(o, s.db.orders[o].items, c.at, c.answer)).(
             obtained := s.obtained + {(o, c.answer.value)}, apologised := s.apologised + [o])
  {
    hide Apply, Commits, Resolves, Dispatch, OrdersSound, ReferencesLive;
    if IsPaid(s.db, o) && s.db.orders[o].intent.Some? {
      var intent := s.db.orders[o].intent.value;
      assert Go(feed, s, RefundRoute(o), c) == (s, Some(RefundAtProvider(o, intent)));
      assert Alone(feed, s, RefundRoute(o), c, 7) == Alone(feed, s, RefundAtProvider(o, intent), c, 6);
      if c.answer.Some? {
        var ref := c.answer.value;
        var s1 := s.(obtained := s.obtained + {(o, ref)});
        assert Go(feed, s, RefundAtProvider(o, intent), c) == (s1, Some(RefundWriting(o, ref)));
        RefundCommitsIff(s.db, o, c.at, Some(ref));
        var s2 := Do(s1, Refund(o, s.db.orders[o].items, c.at, Some(ref)));
        assert Go(feed, s1, RefundWriting(o, ref), c) == (s2, Some(Apologising(o, None)));
        assert Go(feed, s2, Apologising(o, None), c) == (s2.(apologised := s2.apologised + [o]), None);
        assert Alone(feed, s, RefundAtProvider(o, intent), c, 6) == Alone(feed, s1, RefundWriting(o, ref), c, 5)
            == Alone(feed, s2, Apologising(o, None), c, 4);
      }
    }
  }

  /** A cancellation moves its order, and brings nobody an intent. */
  lemma CancelledNow(start: Db, o: OrderId, intent: Ref, at: Time)
    requires OrdersSound(start) && ReferencesLive(start)
    requires o in start.orders && start.orders[o].status == CREATED && !SomeoneHolds(start, intent)
    ensures var d := Apply(start, Cancel(o, start.orders[o].items, at));
      d.orders.Keys == start.orders.Keys && d.orders[o].status == CANCELLED && !SomeoneHolds(d, intent)
  {
    var txn := Cancel(o, start.orders[o].items, at);
    CancelCommitsIff(start, o, at);
    CommitEffect(start, txn);
    hide Apply, Commits;
    var d := Apply(start, txn);
    forall p ensures !HoldsIntent(d, p, intent) {
      assert !HoldsIntent(start, p, intent);
    }
  }

  datatype WebhookOutcome = Processed | Duplicate | Refused

  class Handler {
    const tables: Services.Tables
    var events: map<EventId, bool>
    var thanked: seq<OrderId>
    var apologised: seq<OrderId>
    var named: set<Ref>
    var flagged: set<OrderId>
    ghost var log: seq<Txn>

    constructor (tables: Services.Tables)
      ensures this.tables == tables && events == map[] && thanked == [] && apologised == [] && named == {} && flagged == {}
    {
      this.tables := tables;
      events, thanked, apologised, named, flagged, log := map[], [], [], {}, {}, [];
    }

    ghost function Model(): State
      reads this, tables
    {
      State(tables.Model(), log, events, thanked, apologised, named, flagged, {}, {}, {})
    }

    method Handle(id: EventId, event: Event, at: Time) returns (r: WebhookOutcome, ghost pick: OrderId)
      modifies this, tables
      ensures PicksHolder(old(tables.Model()), event, pick)
      ensures Model() == Alone(map[id := event], old(Model()), Delivered(id), Choice(at, pick, None), HANDLER_STEPS).0
      ensures r == Duplicate <==> IsStamped(old(Model()), id)
      ensures r == Processed ==> IsStamped(Model(), id)
      ensures r == Refused ==> event.RefundMade? && !IsStamped(Model(), id) && tables.Model() == old(tables.Model())
    {
      ghost var start := Model();
      var found;
      found, pick := ResolveOrderId(event);
      HandledAlone(map[id := event], start, id, Choice(at, pick, None));
      hide Alone, Apply, Commits;
      var claimed := Claim(id);
      if !claimed {
        return Duplicate, pick;
      }
      ghost var seen := Model();
      match event {
        case Succeeded(_, intent) => ApplyPayment(found, intent, at);
        case RefundMade(_, _, ref) =>
          var applied := ApplyRefund(found, ref, at);
          if !applied {
            return Refused, pick;
          }
        case Other(_) =>
      }
      events := events[id := true];
      return Processed, pick;
    }

    /** findFirst: some order that stored the intent, if any did. */
    method ResolveOrderId(event: Event) returns (found: Option<OrderId>, ghost pick: OrderId)
      ensures Resolves(tables.Model(), event, found)
      ensures PicksHolder(tables.Model(), event, pick) && found == Found(tables.Model(), event, pick)
    {
      if event.order.Some? {
        return event.order, event.order.value;
      }
      if event.Other? {
        return None, 0;
      }
      if exists o :: o in tables.orders && tables.orders[o].intent == Some(event.intent) {
        var o :| o in tables.orders && tables.orders[o].intent == Some(event.intent);
        assert HoldsIntent(tables.Model(), o, event.intent);
        return Some(o), o;
      }
      assert !SomeoneHolds(tables.Model(), event.intent);
      return None, 0;
    }

    /** False when the event was processed to completion before. */
    method Claim(id: EventId) returns (claimed: bool)
      modifies this`events
      ensures claimed <==> !IsStamped(old(Model()), id)
      ensures Model() == if claimed then Seen(old(Model()), id) else old(Model())
    {
      if id !in events {
        events := events[id := false];
        return true;
      }
      return !events[id];
    }

    method ApplyPayment(found: Option<OrderId>, intent: Ref, at: Time)
      modifies this, tables
      ensures Model() == PaymentApplied(old(Model()), found, intent, at)
      ensures events == old(events)
    {
      hide Apply, Commits;
      if found.None? {
        named := named + {intent};
        return;
      }
      var o := found.value;
      var r := tables.Transition(o, ToPaid(at, Some(intent)));
      if r == Services.Moved {
        log := log + [MarkPaid(o, at, Some(intent))];
        thanked := thanked + [o];
        return;
      }
      NoMove(old(tables.Model()), MarkPaid(o, at, Some(intent)));
      if r == Services.NotFound {
        flagged := flagged + {o};
        return;
      }
      ReportUnpayableOrder(o, intent);
    }

    /** A second payment of a PAID order is named; for any other state only the order is. */
    method ReportUnpayableOrder(o: OrderId, intent: Ref)
      modifies this`named, this`flagged
      ensures Model() == if !IsPaid(old(tables.Model()), o) then Flag(old(Model()), o)
                         else if old(tables.Model()).orders[o].intent == Some(intent) then old(Model())
                         else Name(old(Model()), intent)
    {
      if o in tables.orders && tables.orders[o].status == PAID {
        if tables.orders[o].intent == Some(intent) {
          return;
        }
        named := named + {intent};
        return;
      }
      flagged := flagged + {o};
    }

    /** False when the refund has to come again: no order claims its payment, or its write failed. */
    method ApplyRefund(found: Option<OrderId>, ref: Option<Ref>, at: Time) returns (applied: bool)
      modifies this, tables
      ensures var s := RefundApplied(old(Model()), found, ref, at);
              applied == s.Some? && Model() == if s.Some? then s.value else old(Model())
      ensures events == old(events)
    {
      hide Apply, Commits;
      if found.None? {
        return false;
      }
      var o := found.value;
      var paid := o in tables.orders && tables.orders[o].status == PAID;
      if !paid {
        return true;
      }
      ghost var txn := Refund(o, tables.orders[o].items, at, ref);
      NoMove(tables.Model(), txn);
      applied := tables.ApplyRefund(o, ref, at);
      if applied {
        log := log + [txn];
        apologised := apologised + [o];
      }
    }
  }

  lemma NoMove(db: Db, txn: Txn)
    ensures !Commits(db, txn) ==> Apply(db, txn) == db
  {
  }
}
