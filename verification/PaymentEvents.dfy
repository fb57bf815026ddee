/**
 * Every way an order's payment state is driven, interleaved: webhook deliveries (with
 * redelivery, concurrent handlers and crashes), the mark-paid, refund and cancel
 * routes, and everything else the shop commits meanwhile. Each actor carries a program
 * counter; one step is one database statement, transaction or outside call.
 */
module PaymentEvents {
  import opened Wrappers
  import opened Rows
  import opened Shop
  import opened Effects
  import opened Conservation
  import opened Lifecycle

  type EventId = nat
  type ActorId = nat

  /** What a verified webhook means. `Other` is failed, expired or ignored: recorded, nothing else. */
  datatype Event =
    | Succeeded(order: Option<OrderId>, intent: Ref)
    | RefundMade(order: Option<OrderId>, intent: Ref, refundRef: Option<Ref>)
    | Other(order: Option<OrderId>)

  datatype Actor =
    | Delivered(event: EventId)
    | Resolved(event: EventId, found: Option<OrderId>)
    | Collided(event: EventId, found: Option<OrderId>)
    | Claimed(event: EventId, found: Option<OrderId>)
    | PayMissed(event: EventId, target: OrderId)
    | Examining(event: EventId, target: OrderId)
    | Dispatched(event: EventId, found: Option<OrderId>)
    | Thanking(target: OrderId, back: Option<EventId>)
    | Apologising(target: OrderId, back: Option<EventId>)
    | PayRoute(target: OrderId)
    | RefundRoute(target: OrderId)
    | RefundAtProvider(target: OrderId, intent: Ref)
    | RefundWriting(target: OrderId, obtained: Ref)
    | CancelRoute(target: OrderId)
    | CancelRead(target: OrderId, items: seq<Item>)

  /**
   * `events` maps each recorded event to whether it is stamped processed. `thanked` and
   * `apologised` are the paid and refunded mails sent; `named` the intents a log line about
   * an unplaced payment names, `flagged` the orders one names without the intent; `obtained`
   * the refunds the route got from the provider, `reconciled` those it logged for
   * reconciliation, `lost` those whose call died before either.
   */
  datatype State = State(
    db: Db,
    log: seq<Txn>,
    events: map<EventId, bool>,
    thanked: seq<OrderId>,
    apologised: seq<OrderId>,
    named: set<Ref>,
    flagged: set<OrderId>,
    obtained: set<(OrderId, Ref)>,
    reconciled: set<Ref>,
    lost: set<Ref>)

  /** `silenced` are the mails owed by a call that died before sending: which order, and whether about its refund. */
  datatype World = World(s: State, actors: map<ActorId, Actor>, silenced: set<(OrderId, bool)>)

  /** `pick` chooses among several matching orders; `answer` is the provider's, if any. */
  datatype Choice = Choice(at: Time, pick: OrderId, answer: Option<Ref>)

  datatype Step =
    | Call(a: ActorId, actor: Actor)
    | Advance(a: ActorId, choice: Choice)
    | Crash(a: ActorId)
    | Elsewhere(txn: Txn)

  ghost predicate HoldsIntent(db: Db, o: OrderId, intent: Ref) {
    o in db.orders && db.orders[o].intent == Some(intent)
  }

  ghost predicate SomeoneHolds(db: Db, intent: Ref) {
    exists o :: HoldsIntent(db, o, intent)
  }

  function Do(s: State, txn: Txn): State {
    s.(db := Apply(s.db, txn), log := s.log + [txn])
  }

  function ItemsOf(db: Db, o: OrderId): seq<Item> {
    if o in db.orders then db.orders[o].items else []
  }

  /** resolveOrderId: the order the event names, or whoever stored its intent. */
  ghost predicate Resolves(db: Db, event: Event, found: Option<OrderId>) {
    if event.order.Some? then found == event.order
    else if event.Other? || !SomeoneHolds(db, event.intent) then found == None
    else found.Some? && HoldsIntent(db, found.value, event.intent)
  }

  /** The conditional UPDATE of markPaid; on a match the mail is next. */
  function PayWrite(s: State, o: OrderId, at: Time, intent: Option<Ref>, back: Option<EventId>, miss: Option<Actor>): (State, Option<Actor>) {
    if Commits(s.db, MarkPaid(o, at, intent)) then (Do(s, MarkPaid(o, at, intent)), Some(Thanking(o, back))) else (s, miss)
  }

  /** The transaction of applyRefund, once the UPDATE has matched; a restock that throws ends the call. */
  function RefundWrite(s: State, o: OrderId, at: Time, ref: Option<Ref>, back: Option<EventId>): (State, Option<Actor>) {
    var txn := Refund(o, ItemsOf(s.db, o), at, ref);
    if Commits(s.db, txn) then (Do(s, txn), Some(Apologising(o, back))) else (s, None)
  }

  predicate IsPaid(db: Db, o: OrderId) {
    o in db.orders && db.orders[o].status == PAID
  }

  /** dispatch, up to its first write. */
  function Dispatch(s: State, e: EventId, event: Event, found: Option<OrderId>, at: Time): (State, Option<Actor>) {
    match event
    case Other(_) => (s, Some(Dispatched(e, found)))
    case Succeeded(_, intent) =>
      if found.None? then (s.(named := s.named + {intent}), Some(Dispatched(e, found)))
      else PayWrite(s, found.value, at, Some(intent), Some(e), Some(PayMissed(e, found.value)))
    case RefundMade(_, _, ref) =>
      if found.None? then (s, None)
      else if !IsPaid(s.db, found.value) then (s, Some(Dispatched(e, found)))
      else RefundWrite(s, found.value, at, ref, Some(e))
  }

  function Return(o: OrderId, back: Option<EventId>): Option<Actor> {
    if back.Some? then Some(Dispatched(back.value, Some(o))) else None
  }

  /** One step of one actor: the new state, and what the actor does next (nothing: it has returned). */
  ghost function Go(feed: map<EventId, Event>, s: State, actor: Actor, c: Choice): (State, Option<Actor>) {
    match actor
    case Delivered(e) =>
      if e !in feed then (s, None)
      else if Resolves(s.db, feed[e], None) then (s, Some(Resolved(e, None)))
      else if Resolves(s.db, feed[e], Some(c.pick)) then (s, Some(Resolved(e, Some(c.pick))))
      else (s, Some(actor))
    case Resolved(e, found) =>
      if e in s.events then (s, Some(Collided(e, found)))
      else (s.(events := s.events[e := false]), Some(Claimed(e, found)))
    case Collided(e, found) => if e in s.events && s.events[e] then (s, None) else (s, Some(Claimed(e, found)))
    case Claimed(e, found) => if e in feed then Dispatch(s, e, feed[e], found, c.at) else (s, None)
    case PayMissed(e, o) =>
      if e !in feed || !feed[e].Succeeded? then (s, None)
      else if o in s.db.orders then (s, Some(Examining(e, o)))
      else (s.(flagged := s.flagged + {o}), Some(Dispatched(e, Some(o))))
    case Examining(e, o) =>
      if e !in feed || !feed[e].Succeeded? then (s, None)
      else if !IsPaid(s.db, o) then (s.(flagged := s.flagged + {o}), Some(Dispatched(e, Some(o))))
      else if s.db.orders[o].intent == Some(feed[e].intent) then (s, Some(Dispatched(e, Some(o))))
      else (s.(named := s.named + {feed[e].intent}), Some(Dispatched(e, Some(o))))
    case Dispatched(e, _) => (s.(events := s.events[e := true]), None)
    case Thanking(o, back) => (s.(thanked := s.thanked + [o]), Return(o, back))
    case Apologising(o, back) => (s.(apologised := s.apologised + [o]), Return(o, back))
    case PayRoute(o) => PayWrite(s, o, c.at, None, None, None)
    case RefundRoute(o) =>
      if IsPaid(s.db, o) && s.db.orders[o].intent.Some? then (s, Some(RefundAtProvider(o, s.db.orders[o].intent.value)))
      else (s, None)
    case RefundAtProvider(o, _) =>
      if c.answer.None? then (s, None)
      else (s.(obtained := s.obtained + {(o, c.answer.value)}), Some(RefundWriting(o, c.answer.value)))
    case RefundWriting(o, ref) =>
      if !IsPaid(s.db, o) then (s.(reconciled := s.reconciled + {ref}), None)
      else RefundWrite(s, o, c.at, Some(ref), None)
    case CancelRoute(o) => (s, if o in s.db.orders then Some(CancelRead(o, s.db.orders[o].items)) else None)
    case CancelRead(o, items) => (Do(s, Cancel(o, items, c.at)), None)
  }

  predicate IsEntry(actor: Actor) {
    actor.Delivered? || actor.PayRoute? || actor.RefundRoute? || actor.CancelRoute?
  }

  function Place(actors: map<ActorId, Actor>, a: ActorId, next: Option<Actor>): map<ActorId, Actor> {
    if next.Some? then actors[a := next.value] else actors - {a}
  }

  /** The order whose paid (or refunded) mail the actor is about to send. */
  function Owes(actor: Actor, refunded: bool): Option<OrderId> {
    if refunded && actor.Apologising? then Some(actor.target)
    else if !refunded && actor.Thanking? then Some(actor.target)
    else None
  }

  function Silenced(actor: Actor): set<(OrderId, bool)> {
    if actor.Thanking? then {(actor.target, false)} else if actor.Apologising? then {(actor.target, true)} else {}
  }

  ghost function Next(feed: map<EventId, Event>, w: World, step: Step): World {
    match step
    case Call(a, actor) => if a !in w.actors && IsEntry(actor) then w.(actors := w.actors[a := actor]) else w
    case Advance(a, choice) =>
      if a !in w.actors then w
      else var (s, next) := Go(feed, w.s, w.actors[a], choice); w.(s := s, actors := Place(w.actors, a, next))
    case Crash(a) =>
      if a !in w.actors then w
      else
        World(if w.actors[a].RefundWriting? then w.s.(lost := w.s.lost + {w.actors[a].obtained}) else w.s, w.actors - {a},
              w.silenced + Silenced(w.actors[a]))
    case Elsewhere(txn) => if txn.Cancel? || txn.Refund? || txn.MarkPaid? then w else w.(s := Do(w.s, txn))
  }

  ghost function Run(feed: map<EventId, Event>, w: World, steps: seq<Step>): World {
    if steps == [] then w else Next(feed, Run(feed, w, steps[..|steps| - 1]), steps[|steps| - 1])
  }

  /** A database with nothing delivered yet. */
  function Opening(db: Db): World {
    World(State(db, [], map[], [], [], {}, {}, {}, {}, {}), map[], {})
  }

  // ---------- What a database step leaves ----------

  /** Where a refund has nothing left to do. */
  predicate Settled(s: Status) {
    s == REFUNDED || s == SHIPPED || s == DELIVERED
  }

  ghost predicate Grew(d: Db, d': Db) {
    forall o :: o in d.orders ==>
      && o in d'.orders && d'.orders[o].items == d.orders[o].items
      && (d.orders[o].status != CREATED ==> d'.orders[o].status != CREATED)
      && (d.orders[o].intent.Some? ==> d'.orders[o].intent == d.orders[o].intent)
      && (Settled(d.orders[o].status) ==> Settled(d'.orders[o].status))
      && (d.orders[o].status == REFUNDED ==> d'.orders[o] == d.orders[o])
  }

  lemma ApplyGrows(d: Db, txn: Txn)
    requires OrdersSound(d)
    ensures Grew(d, Apply(d, txn))
  {
    var d' := Apply(d, txn);
    forall o | o in d.orders
      ensures && o in d'.orders && d'.orders[o].items == d.orders[o].items
              && (d.orders[o].status != CREATED ==> d'.orders[o].status != CREATED)
              && (d.orders[o].intent.Some? ==> d'.orders[o].intent == d.orders[o].intent)
              && (Settled(d.orders[o].status) ==> Settled(d'.orders[o].status))
              && (d.orders[o].status == REFUNDED ==> d'.orders[o] == d.orders[o])
    {
      OrderStep(d, txn, o);
      assert OrderSound(d.orders[o]);
    }
  }

  // ---------- The log of a run ----------

  /** The database is the serial run of the log, whose restocks were read from their orders. */
  ghost predicate Logged(start: Db, s: State) {
    && s.db == ApplyAll(start, s.log) && AllWellRead(start, s.log)
    && OrdersSound(s.db) && ReferencesLive(s.db)
  }

  lemma {:induction false} DoLogged(start: Db, s: State, txn: Txn)
    requires Logged(start, s) && WellRead(s.db, txn)
    ensures Logged(start, Do(s, txn)) && Grew(s.db, Do(s, txn).db)
  {
    var log' := s.log + [txn];
    assert log'[..|log'| - 1] == s.log;
    forall i | 0 <= i < |log'| ensures WellRead(ApplyAll(start, log'[..i]), log'[i]) {
      if i < |s.log| { assert log'[..i] == s.log[..i]; } else { assert log'[..i] == s.log; }
    }
    OrdersStaySound(s.db, txn);
    ReferencesStayLive(s.db, txn);
    ApplyGrows(s.db, txn);
  }

  /** What a cancel route read before its transaction still holds when it runs. */
  ghost predicate ReadHolds(db: Db, actor: Actor) {
    actor.CancelRead? ==> actor.target in db.orders && actor.items == db.orders[actor.target].items
  }

  lemma {:induction false} GoLogged(feed: map<EventId, Event>, start: Db, s: State, actor: Actor, c: Choice)
    requires Logged(start, s) && ReadHolds(s.db, actor)
    ensures var (s', next) := Go(feed, s, actor, c);
      && Logged(start, s') && Grew(s.db, s'.db)
      && (next.Some? ==> ReadHolds(s'.db, next.value))
  {
    hide Apply, Commits, Logged, Grew, Dispatch, Resolves;
    match actor {
      case Claimed(e, found) => if e in feed { DispatchLogged(start, s, e, feed[e], found, c.at); }
      case PayRoute(o) => DoLogged(start, s, MarkPaid(o, c.at, None));
      case RefundWriting(o, ref) => DoLogged(start, s, Refund(o, ItemsOf(s.db, o), c.at, Some(ref)));
      case CancelRead(o, items) => DoLogged(start, s, Cancel(o, items, c.at));
      case _ =>
    }
    var s' := Go(feed, s, actor, c).0;
    if s'.db == s.db && s'.log == s.log { LoggedStays(start, s, s'); }
  }

  lemma LoggedStays(start: Db, s: State, s': State)
    requires Logged(start, s) && s'.db == s.db && s'.log == s.log
    ensures Logged(start, s') && Grew(s.db, s'.db)
  {
  }

  lemma {:induction false} DispatchLogged(start: Db, s: State, e: EventId, event: Event, found: Option<OrderId>, at: Time)
    requires Logged(start, s)
    ensures var (s', next) := Dispatch(s, e, event, found, at);
      && Logged(start, s') && Grew(s.db, s'.db) && (next.Some? ==> !next.value.CancelRead?)
  {
    if found.Some? {
      if event.Succeeded? { DoLogged(start, s, MarkPaid(found.value, at, Some(event.intent))); }
      if event.RefundMade? { DoLogged(start, s, Refund(found.value, ItemsOf(s.db, found.value), at, event.refundRef)); }
    }
    hide Apply, Commits, ApplyAll, OrdersSound, ReferencesLive, AllWellRead;
  }

  // ---------- What each actor knows ----------

  /** Some order holds the refunded intent, and has nothing left to refund. */
  ghost predicate RefundLanded(db: Db, intent: Ref) {
    exists o :: HoldsIntent(db, o, intent) && Settled(db.orders[o].status)
  }

  /** What must be true before an event may be stamped processed. */
  ghost predicate Finished(feed: map<EventId, Event>, s: State, e: EventId) {
    e in feed &&
    match feed[e]
    case Succeeded(order, intent) =>
      intent in s.named || SomeoneHolds(s.db, intent) || (order.Some? && order.value in s.flagged)
    case RefundMade(order, intent, _) => order.None? ==> RefundLanded(s.db, intent)
    case Other(_) => true
  }

  ghost predicate Stamped(feed: map<EventId, Event>, s: State) {
    forall e :: e in s.events && s.events[e] ==> Finished(feed, s, e)
  }

  /** What an event was resolved to: the order it names, or one holding its intent. */
  ghost predicate IsTarget(db: Db, event: Event, o: OrderId)
    requires !event.Other?
  {
    if event.order.Some? then event.order.value == o else HoldsIntent(db, o, event.intent)
  }

  ghost predicate ResolvedRight(feed: map<EventId, Event>, db: Db, e: EventId, found: Option<OrderId>) {
    e in feed &&
    (!feed[e].Other? && found.Some? ==> IsTarget(db, feed[e], found.value))
  }

  ghost predicate Knows(feed: map<EventId, Event>, s: State, actor: Actor) {
    match actor
    case Resolved(e, found) => ResolvedRight(feed, s.db, e, found)
    case Collided(e, found) => ResolvedRight(feed, s.db, e, found)
    case Claimed(e, found) => ResolvedRight(feed, s.db, e, found)
    case PayMissed(e, o) => e in feed && feed[e].Succeeded? && IsTarget(s.db, feed[e], o)
    case Examining(e, o) => e in feed && feed[e].Succeeded? && IsTarget(s.db, feed[e], o)
    case Dispatched(e, _) => Finished(feed, s, e)
    case Thanking(o, back) =>
      && o in s.db.orders && s.db.orders[o].status != CREATED
      && (back.Some? ==> back.value in feed && feed[back.value].Succeeded? &&
                         HoldsIntent(s.db, o, feed[back.value].intent))
    case Apologising(o, back) =>
      && o in s.db.orders && s.db.orders[o].status == REFUNDED
      && (back.Some? ==> ResolvedRight(feed, s.db, back.value, Some(o)) && feed[back.value].RefundMade?)
    case RefundWriting(o, ref) => (o, ref) in s.obtained
    case CancelRead(o, items) => ReadHolds(s.db, actor)
    case _ => true
  }

  /** How a state may change under one actor while another waits. */
  ghost predicate Forward(s: State, s': State) {
    && Grew(s.db, s'.db) && s.named <= s'.named && s.flagged <= s'.flagged && s.obtained <= s'.obtained
    && s.reconciled <= s'.reconciled && s.lost <= s'.lost
  }

  lemma FinishedStays(feed: map<EventId, Event>, s: State, s': State, e: EventId)
    requires Finished(feed, s, e) && Forward(s, s')
    ensures Finished(feed, s', e)
  {
    match feed[e]
    case Succeeded(_, intent) =>
      if SomeoneHolds(s.db, intent) {
        var o :| HoldsIntent(s.db, o, intent);
        assert HoldsIntent(s'.db, o, intent);
      }
    case RefundMade(order, intent, _) =>
      if order.None? {
        var o :| HoldsIntent(s.db, o, intent) && Settled(s.db.orders[o].status);
        assert HoldsIntent(s'.db, o, intent);
      }
    case Other(_) =>
  }

  lemma KnowsStays(feed: map<EventId, Event>, s: State, s': State, actor: Actor)
    requires Knows(feed, s, actor) && Forward(s, s')
    ensures Knows(feed, s', actor)
  {
    if actor.Dispatched? {
      FinishedStays(feed, s, s', actor.event);
    }
  }

  lemma StampedStays(feed: map<EventId, Event>, s: State, s': State)
    requires Stamped(feed, s) && Forward(s, s')
    requires forall e :: e in s'.events && s'.events[e] ==> e in s.events && s.events[e]
    ensures Stamped(feed, s')
  {
    forall e | e in s'.events && s'.events[e] ensures Finished(feed, s', e) {
      FinishedStays(feed, s, s', e);
    }
  }

  /** A committed mark-paid leaves the order PAID, holding the intent it came with. */
  lemma PaidNow(s: State, o: OrderId, at: Time, intent: Option<Ref>)
    requires Commits(s.db, MarkPaid(o, at, intent))
    ensures o in s.db.orders && s.db.orders[o].status == CREATED
    ensures var d := Do(s, MarkPaid(o, at, intent)).db;
      o in d.orders && d.orders[o].status == PAID && (intent.Some? ==> HoldsIntent(d, o, intent.value))
  {
    CommitEffect(s.db, MarkPaid(o, at, intent));
  }

  /** A committed refund leaves the order REFUNDED under the reference it came with. */
  lemma RefundedNow(s: State, o: OrderId, at: Time, ref: Option<Ref>)
    requires Commits(s.db, Refund(o, ItemsOf(s.db, o), at, ref))
    ensures o in s.db.orders && s.db.orders[o].status == PAID
    ensures var d := Do(s, Refund(o, ItemsOf(s.db, o), at, ref)).db;
      && o in d.orders && d.orders[o].status == REFUNDED && d.orders[o].intent == s.db.orders[o].intent
      && (ref.Some? ==> d.orders[o].refundRef == ref)
  {
    CommitEffect(s.db, Refund(o, ItemsOf(s.db, o), at, ref));
  }

  lemma PaymentKnows(feed: map<EventId, Event>, s: State, e: EventId, found: Option<OrderId>, at: Time)
    requires ResolvedRight(feed, s.db, e, found) && feed[e].Succeeded?
    requires Grew(s.db, Dispatch(s, e, feed[e], found, at).0.db)
    ensures var (s', next) := Dispatch(s, e, feed[e], found, at);
      next.Some? && Knows(feed, s', next.value)
  {
    hide Apply, Commits;
    if found.Some? && Commits(s.db, MarkPaid(found.value, at, Some(feed[e].intent))) {
      PaidNow(s, found.value, at, Some(feed[e].intent));
    }
  }

  lemma RefundKnows(feed: map<EventId, Event>, s: State, e: EventId, found: Option<OrderId>, at: Time)
    requires ResolvedRight(feed, s.db, e, found) && feed[e].RefundMade? && OrdersSound(s.db)
    ensures var (s', next) := Dispatch(s, e, feed[e], found, at);
      next.Some? ==> Knows(feed, s', next.value)
  {
    hide Apply, Commits;
    if found.Some? {
      var o := found.value;
      if Commits(s.db, Refund(o, ItemsOf(s.db, o), at, feed[e].refundRef)) {
        RefundedNow(s, o, at, feed[e].refundRef);
      }
      if !IsPaid(s.db, o) && feed[e].order.None? {
        assert HoldsIntent(s.db, o, feed[e].intent) && OrderSound(s.db.orders[o]);
      }
    }
  }

  /** Dispatching keeps what actors know: in particular no event gets past it unfinished. */
  lemma DispatchKnows(feed: map<EventId, Event>, s: State, e: EventId, found: Option<OrderId>, at: Time)
    requires ResolvedRight(feed, s.db, e, found) && OrdersSound(s.db)
    requires Grew(s.db, Dispatch(s, e, feed[e], found, at).0.db)
    ensures var (s', next) := Dispatch(s, e, feed[e], found, at);
      Forward(s, s') && s'.events == s.events && (next.Some? ==> Knows(feed, s', next.value))
  {
    match feed[e] {
      case Other(_) =>
      case Succeeded(_, _) => PaymentKnows(feed, s, e, found, at);
      case RefundMade(_, _, _) => RefundKnows(feed, s, e, found, at);
    }
    hide Apply, Commits, Grew, OrdersSound, ResolvedRight;
  }

  /** Ledgers only grow, whatever the actor does. */
  lemma {:induction false} GoLedgers(feed: map<EventId, Event>, s: State, actor: Actor, c: Choice)
    ensures var s' := Go(feed, s, actor, c).0;
      && s.named <= s'.named && s.flagged <= s'.flagged
      && s.obtained <= s'.obtained && s.reconciled <= s'.reconciled && s.lost <= s'.lost
  {
    hide Apply, Commits, HoldsIntent, SomeoneHolds, Resolves;
  }

  lemma GoForward(feed: map<EventId, Event>, start: Db, s: State, actor: Actor, c: Choice)
    requires Logged(start, s) && Knows(feed, s, actor)
    ensures Forward(s, Go(feed, s, actor, c).0)
  {
    GoLogged(feed, start, s, actor, c);
    GoLedgers(feed, s, actor, c);
    hide Go, Grew, Logged;
  }

  lemma GoStamped(feed: map<EventId, Event>, s: State, actor: Actor, c: Choice)
    requires Stamped(feed, s) && Knows(feed, s, actor) && Forward(s, Go(feed, s, actor, c).0)
    ensures Stamped(feed, Go(feed, s, actor, c).0)
  {
    hide Apply, Commits, Finished, Forward;
    var s' := Go(feed, s, actor, c).0;
    if actor.Dispatched? {
      forall e | e in s'.events && s'.events[e] ensures Finished(feed, s', e) {
        FinishedStays(feed, s, s', e);
      }
    } else {
      StampedStays(feed, s, s');
    }
  }

  lemma {:induction false} GoNextKnows(feed: map<EventId, Event>, start: Db, s: State, actor: Actor, c: Choice)
    requires Logged(start, s) && Knows(feed, s, actor)
    ensures var (s', next) := Go(feed, s, actor, c);
      next.Some? ==> Knows(feed, s', next.value)
  {
    GoLogged(feed, start, s, actor, c);
    hide Apply, Commits, Grew, ReferencesLive;
    match actor
    case Claimed(e, found) => DispatchKnows(feed, s, e, found, c.at);
    case PayRoute(o) => PayRouteKnows(feed, s, o, c);
    case RefundWriting(o, ref) => RefundWritingKnows(feed, s, o, ref, c);
    case CancelRead(_, _) =>
    case _ => hide Logged, OrdersSound; QuietKnows(feed, s, actor, c);
  }

  lemma {:induction false} PayRouteKnows(feed: map<EventId, Event>, s: State, o: OrderId, c: Choice)
    ensures var (s', next) := Go(feed, s, PayRoute(o), c);
      next.Some? ==> Knows(feed, s', next.value)
  {
    hide Apply, Commits;
    if Commits(s.db, MarkPaid(o, c.at, None)) { PaidNow(s, o, c.at, None); }
  }

  lemma RefundWritingKnows(feed: map<EventId, Event>, s: State, o: OrderId, ref: Ref, c: Choice)
    ensures var (s', next) := Go(feed, s, RefundWriting(o, ref), c);
      next.Some? ==> Knows(feed, s', next.value)
  {
    hide Apply, Commits;
    if Commits(s.db, Refund(o, ItemsOf(s.db, o), c.at, Some(ref))) { RefundedNow(s, o, c.at, Some(ref)); }
  }

  /** The steps that run no transaction. */
  lemma QuietKnows(feed: map<EventId, Event>, s: State, actor: Actor, c: Choice)
    requires Knows(feed, s, actor)
    requires !actor.Claimed? && !actor.PayRoute? && !actor.RefundWriting? && !actor.CancelRead?
    ensures var (s', next) := Go(feed, s, actor, c);
      next.Some? ==> Knows(feed, s', next.value)
  {
    hide Apply, Commits, Dispatch, PayWrite, RefundWrite;
    if actor.PayMissed? || actor.Examining? {
      assert HoldsIntent(s.db, actor.target, feed[actor.event].intent) ==> SomeoneHolds(s.db, feed[actor.event].intent);
    }
    if actor.Examining? {
      assert IsPaid(s.db, actor.target) && s.db.orders[actor.target].intent == Some(feed[actor.event].intent) ==>
        HoldsIntent(s.db, actor.target, feed[actor.event].intent);
    }
  }

  // ---------- Whole runs ----------

  /** Whether `o` has made the move the mail is about. */
  predicate MadeMove(db: Db, o: OrderId, refunded: bool) {
    o in db.orders && if refunded then db.orders[o].status == REFUNDED else db.orders[o].status != CREATED
  }

  /** No mail was sent twice; no two actors owe the same one, and none owes one already sent. */
  ghost predicate MailsOnce(mails: seq<OrderId>, db: Db, actors: map<ActorId, Actor>, refunded: bool) {
    && (forall i, j :: 0 <= i < j < |mails| ==> mails[i] != mails[j])
    && (forall o :: o in mails ==> MadeMove(db, o, refunded))
    && (forall a :: a in actors && Owes(actors[a], refunded).Some? ==>
          Owes(actors[a], refunded).value !in mails && MadeMove(db, Owes(actors[a], refunded).value, refunded))
    && (forall a, b :: a in actors && b in actors && a != b && Owes(actors[a], refunded).Some? ==>
          Owes(actors[a], refunded) != Owes(actors[b], refunded))
  }

  ghost predicate OnOrder(db: Db, o: OrderId, ref: Ref) {
    o in db.orders && db.orders[o].status == REFUNDED && db.orders[o].refundRef == Some(ref)
  }

  /** Every refund the route obtained is on its order, logged, being written, or lost with a crashed call. */
  ghost predicate RefundsAccounted(w: World) {
    forall p :: p in w.s.obtained ==>
      || OnOrder(w.s.db, p.0, p.1) || p.1 in w.s.reconciled || p.1 in w.s.lost
      || exists a :: a in w.actors && w.actors[a] == RefundWriting(p.0, p.1)
  }

  ghost predicate Inv(feed: map<EventId, Event>, start: Db, w: World) {
    && Logged(start, w.s) && Stamped(feed, w.s)
    && (forall a :: a in w.actors ==> Knows(feed, w.s, w.actors[a]))
    && MailsOnce(w.s.thanked, w.s.db, w.actors, false) && MailsOnce(w.s.apologised, w.s.db, w.actors, true)
    && RefundsAccounted(w)
  }

  lemma {:induction false} ElsewhereForward(start: Db, s: State, txn: Txn)
    requires Logged(start, s) && !txn.Cancel? && !txn.Refund?
    ensures Logged(start, Do(s, txn)) && Forward(s, Do(s, txn))
  {
    DoLogged(start, s, txn);
  }

  /** A step of one actor keeps what every actor knows. */
  lemma StepKnows(feed: map<EventId, Event>, start: Db, w: World, step: Step)
    requires Inv(feed, start, w)
    ensures var w' := Next(feed, w, step);
      && Logged(start, w'.s) && Forward(w.s, w'.s) && Stamped(feed, w'.s)
      && (forall a :: a in w'.actors ==> Knows(feed, w'.s, w'.actors[a]))
  {
    var w' := Next(feed, w, step);
    assert Forward(w.s, w'.s) && Logged(start, w'.s) && Stamped(feed, w'.s) by {
      match step
      case Advance(a, c) =>
        if a in w.actors {
          GoForward(feed, start, w.s, w.actors[a], c);
          GoLogged(feed, start, w.s, w.actors[a], c);
          GoStamped(feed, w.s, w.actors[a], c);
        }
      case Elsewhere(txn) =>
        if !(txn.Cancel? || txn.Refund? || txn.MarkPaid?) {
          ElsewhereForward(start, w.s, txn);
          StampedStays(feed, w.s, w'.s);
        }
      case Crash(a) => StampedStays(feed, w.s, w'.s);
      case Call(a, actor) =>
    }
    hide Logged, Stamped, Forward, MailsOnce, RefundsAccounted, Apply, Commits;
    forall b | b in w'.actors ensures Knows(feed, w'.s, w'.actors[b]) {
      if b in w.actors {
        KnowsStays(feed, w.s, w'.s, w.actors[b]);
      }
      if step.Advance? && step.a == b && b in w.actors {
        GoNextKnows(feed, start, w.s, w.actors[b], step.choice);
      }
    }
  }

  /** A mail becomes owed only by moving its order, and the actor that owes it sends it. */
  lemma GoMails(feed: map<EventId, Event>, s: State, actor: Actor, c: Choice, refunded: bool)
    ensures var (s', next) := Go(feed, s, actor, c);
      var (mails, mails') := if refunded then (s.apologised, s'.apologised) else (s.thanked, s'.thanked);
      && mails' == (if Owes(actor, refunded).Some? then mails + [Owes(actor, refunded).value] else mails)
      && (next.Some? && Owes(next.value, refunded).Some? ==>
            && Owes(actor, refunded) == None
            && !MadeMove(s.db, Owes(next.value, refunded).value, refunded)
            && MadeMove(s'.db, Owes(next.value, refunded).value, refunded))
  {
    hide Apply, Commits;
    match actor
    case Claimed(e, found) =>
      if e in feed && found.Some? {
        if feed[e].Succeeded? && Commits(s.db, MarkPaid(found.value, c.at, Some(feed[e].intent))) {
          PaidNow(s, found.value, c.at, Some(feed[e].intent));
        }
        if feed[e].RefundMade? && Commits(s.db, Refund(found.value, ItemsOf(s.db, found.value), c.at, feed[e].refundRef)) {
          RefundedNow(s, found.value, c.at, feed[e].refundRef);
        }
      }
    case PayRoute(o) =>
      if Commits(s.db, MarkPaid(o, c.at, None)) { PaidNow(s, o, c.at, None); }
    case RefundWriting(o, ref) =>
      if Commits(s.db, Refund(o, ItemsOf(s.db, o), c.at, Some(ref))) { RefundedNow(s, o, c.at, Some(ref)); }
    case _ =>
  }

  lemma MailsAdvance(mails: seq<OrderId>, db: Db, actors: map<ActorId, Actor>, refunded: bool,
                     a: ActorId, mails': seq<OrderId>, db': Db, next: Option<Actor>)
    requires MailsOnce(mails, db, actors, refunded) && a in actors && Grew(db, db')
    requires mails' == if Owes(actors[a], refunded).Some? then mails + [Owes(actors[a], refunded).value] else mails
    requires next.Some? && Owes(next.value, refunded).Some? ==>
               && Owes(actors[a], refunded) == None
               && !MadeMove(db, Owes(next.value, refunded).value, refunded)
               && MadeMove(db', Owes(next.value, refunded).value, refunded)
    ensures MailsOnce(mails', db', Place(actors, a, next), refunded)
  {
  }

  lemma MailsKept(mails: seq<OrderId>, db: Db, actors: map<ActorId, Actor>, refunded: bool, db': Db, actors': map<ActorId, Actor>)
    requires MailsOnce(mails, db, actors, refunded) && Grew(db, db')
    requires forall a :: a in actors' ==> (a in actors && actors'[a] == actors[a]) || IsEntry(actors'[a])
    ensures MailsOnce(mails, db', actors', refunded)
  {
  }

  lemma {:induction false} StepMails(feed: map<EventId, Event>, start: Db, w: World, step: Step)
    requires Inv(feed, start, w)
    ensures var w' := Next(feed, w, step);
      MailsOnce(w'.s.thanked, w'.s.db, w'.actors, false) && MailsOnce(w'.s.apologised, w'.s.db, w'.actors, true)
  {
    var w' := Next(feed, w, step);
    StepKnows(feed, start, w, step);
    hide Logged, Stamped, RefundsAccounted, Knows, Apply, Commits, MailsOnce, Grew;
    if step.Advance? && step.a in w.actors {
      var (s', next) := Go(feed, w.s, w.actors[step.a], step.choice);
      GoMails(feed, w.s, w.actors[step.a], step.choice, false);
      GoMails(feed, w.s, w.actors[step.a], step.choice, true);
      hide Go;
      MailsAdvance(w.s.thanked, w.s.db, w.actors, false, step.a, s'.thanked, s'.db, next);
      MailsAdvance(w.s.apologised, w.s.db, w.actors, true, step.a, s'.apologised, s'.db, next);
    } else {
      MailsKept(w.s.thanked, w.s.db, w.actors, false, w'.s.db, w'.actors);
      MailsKept(w.s.apologised, w.s.db, w.actors, true, w'.s.db, w'.actors);
    }
  }

  lemma OldRefundAccounted(feed: map<EventId, Event>, start: Db, w: World, step: Step, p: (OrderId, Ref))
    requires Logged(start, w.s) && RefundsAccounted(w) && p in w.s.obtained
    requires Forward(w.s, Next(feed, w, step).s)
    ensures var w' := Next(feed, w, step);
      || OnOrder(w'.s.db, p.0, p.1) || p.1 in w'.s.reconciled || p.1 in w'.s.lost
      || exists a :: a in w'.actors && w'.actors[a] == RefundWriting(p.0, p.1)
  {
    var w' := Next(feed, w, step);
    if !(OnOrder(w.s.db, p.0, p.1) || p.1 in w.s.reconciled || p.1 in w.s.lost) {
      var a :| a in w.actors && w.actors[a] == RefundWriting(p.0, p.1);
      if step.Advance? && step.a == a {
        WritingSettles(feed, start, w.s, p.0, p.1, step.choice);
        hide Go;
      } else {
        hide Go, Logged;
        assert (a in w'.actors && w'.actors[a] == RefundWriting(p.0, p.1)) || p.1 in w'.s.lost;
      }
    }
  }

  lemma {:induction false} GoObtains(feed: map<EventId, Event>, s: State, actor: Actor, c: Choice, p: (OrderId, Ref))
    requires p !in s.obtained && p in Go(feed, s, actor, c).0.obtained
    ensures Go(feed, s, actor, c).1 == Some(RefundWriting(p.0, p.1))
  {
    hide Apply, Commits;
  }

  lemma StepRefundsAccounted(feed: map<EventId, Event>, start: Db, w: World, step: Step)
    requires Inv(feed, start, w)
    ensures RefundsAccounted(Next(feed, w, step))
  {
    var w' := Next(feed, w, step);
    StepKnows(feed, start, w, step);
    forall p | p in w'.s.obtained
      ensures || OnOrder(w'.s.db, p.0, p.1) || p.1 in w'.s.reconciled || p.1 in w'.s.lost
              || exists a :: a in w'.actors && w'.actors[a] == RefundWriting(p.0, p.1)
    {
      if p in w.s.obtained {
        OldRefundAccounted(feed, start, w, step, p);
      } else {
        hide Logged, Stamped, RefundsAccounted, Knows, MailsOnce, Forward, Apply, Commits;
        GoObtains(feed, w.s, w.actors[step.a], step.choice, p);
        hide Go;
        assert w'.actors[step.a] == RefundWriting(p.0, p.1);
      }
    }
  }

  /** The write after the provider refunded ends on the order or in the log. */
  lemma {:induction false} WritingSettles(feed: map<EventId, Event>, start: Db, s: State, o: OrderId, ref: Ref, c: Choice)
    requires Logged(start, s)
    ensures var s' := Go(feed, s, RefundWriting(o, ref), c).0;
      OnOrder(s'.db, o, ref) || ref in s'.reconciled
  {
    hide Apply, Commits;
    if IsPaid(s.db, o) {
      RefundCommitsIff(s.db, o, c.at, Some(ref));
      RefundedNow(s, o, c.at, Some(ref));
    }
  }

  // ---------- Every mail that is due ----------

  /** The move the mail is about, as the k-th transaction of the log made it. */
  ghost predicate MovedAt(start: Db, log: seq<Txn>, k: nat, o: OrderId, refunded: bool)
    requires k < |log|
  {
    && (if refunded then log[k].Refund? else log[k].MarkPaid?) && log[k].order == o
    && Commits(ApplyAll(start, log[..k]), log[k])
  }

  ghost predicate Moves(start: Db, log: seq<Txn>, o: OrderId, refunded: bool) {
    exists k: nat :: k < |log| && MovedAt(start, log, k, o, refunded)
  }

  function Mails(s: State, refunded: bool): seq<OrderId> {
    if refunded then s.apologised else s.thanked
  }

  /** Sent, owed by an actor, or owed by one that died. */
  ghost predicate MailSeen(w: World, o: OrderId, refunded: bool) {
    || o in Mails(w.s, refunded) || (o, refunded) in w.silenced
    || exists a :: a in w.actors && Owes(w.actors[a], refunded) == Some(o)
  }

  ghost predicate MailsDue(start: Db, w: World) {
    forall o, refunded :: Moves(start, w.s.log, o, refunded) ==> MailSeen(w, o, refunded)
  }

  lemma MovesSnoc(start: Db, log: seq<Txn>, txn: Txn, o: OrderId, refunded: bool)
    ensures Moves(start, log + [txn], o, refunded) <==>
            || Moves(start, log, o, refunded)
            || ((if refunded then txn.Refund? else txn.MarkPaid?) && txn.order == o && Commits(ApplyAll(start, log), txn))
  {
    hide Commits, ApplyAll;
    var all := log + [txn];
    assert all[..|log|] == log;
    forall k: nat | k < |log| ensures MovedAt(start, all, k, o, refunded) == MovedAt(start, log, k, o, refunded) {
      assert all[..k] == log[..k];
    }
    if k: nat :| k < |log| && MovedAt(start, log, k, o, refunded) {
      assert MovedAt(start, all, k, o, refunded);
    }
    if MovedAt(start, all, |log|, o, refunded) {
      assert Moves(start, all, o, refunded);
    }
  }

  /** An actor that moves an order so is next to send the mail about it. */
  lemma GoOwes(feed: map<EventId, Event>, s: State, actor: Actor, c: Choice)
    ensures var (s', next) := Go(feed, s, actor, c);
      || s'.log == s.log
      || (|s'.log| == |s.log| + 1 && s'.log == s.log + [s'.log[|s.log|]] &&
          var txn := s'.log[|s.log|];
          && (txn.MarkPaid? && Commits(s.db, txn) ==> next.Some? && Owes(next.value, false) == Some(txn.order))
          && (txn.Refund? && Commits(s.db, txn) ==> next.Some? && Owes(next.value, true) == Some(txn.order)))
  {
    hide Apply, Commits, Resolves, SomeoneHolds, HoldsIntent;
  }

  lemma {:induction false} MailStays(feed: map<EventId, Event>, w: World, step: Step, o: OrderId, refunded: bool)
    requires MailSeen(w, o, refunded)
    ensures MailSeen(Next(feed, w, step), o, refunded)
  {
    hide Apply, Commits;
    var w' := Next(feed, w, step);
    if step.Advance? && step.a in w.actors {
      GoMails(feed, w.s, w.actors[step.a], step.choice, refunded);
      GoMails(feed, w.s, w.actors[step.a], step.choice, !refunded);
    }
    hide Go;
    if a :| a in w.actors && Owes(w.actors[a], refunded) == Some(o) {
      if a in w'.actors && w'.actors[a] == w.actors[a] {
        assert Owes(w'.actors[a], refunded) == Some(o);
      }
    }
  }

  lemma StepMailsDue(feed: map<EventId, Event>, start: Db, w: World, step: Step)
    requires Inv(feed, start, w) && MailsDue(start, w)
    ensures MailsDue(start, Next(feed, w, step))
  {
    var w' := Next(feed, w, step);
    assert w.s.db == ApplyAll(start, w.s.log);
    if step.Advance? && step.a in w.actors { GoOwes(feed, w.s, w.actors[step.a], step.choice); }
    hide Inv, Apply, Commits, ApplyAll, Go, MailSeen, Moves, Logged;
    forall o, refunded | Moves(start, w'.s.log, o, refunded) ensures MailSeen(w', o, refunded) {
      if Moves(start, w.s.log, o, refunded) {
        MailStays(feed, w, step, o, refunded);
      } else {
        MovesSnoc(start, w.s.log, w'.s.log[|w.s.log|], o, refunded);
        NewlyOwed(w', step.a, o, refunded);
      }
    }
  }

  lemma NewlyOwed(w: World, a: ActorId, o: OrderId, refunded: bool)
    requires a in w.actors && Owes(w.actors[a], refunded) == Some(o)
    ensures MailSeen(w, o, refunded)
  {
  }

  // ---------- Main results ----------

  /** The invariant holds in every run from a sound database. */
  lemma {:induction false} InvInEveryRun(feed: map<EventId, Event>, start: Db, steps: seq<Step>)
    requires OrdersSound(start) && ReferencesLive(start)
    ensures Inv(feed, start, Run(feed, Opening(start), steps))
    decreases |steps|
  {
    if steps != [] {
      var w, step := Run(feed, Opening(start), steps[..|steps| - 1]), steps[|steps| - 1];
      InvInEveryRun(feed, start, steps[..|steps| - 1]);
      StepKnows(feed, start, w, step);
      StepMails(feed, start, w, step);
      StepRefundsAccounted(feed, start, w, step);
    }
  }

  /** However often a fact is delivered, by however many handlers, each mail goes out at most once per order. */
  lemma EachMailAtMostOnce(feed: map<EventId, Event>, start: Db, steps: seq<Step>, i: nat, j: nat)
    requires OrdersSound(start) && ReferencesLive(start)
    ensures var s := Run(feed, Opening(start), steps).s;
      && (i < j < |s.thanked| ==> s.thanked[i] != s.thanked[j])
      && (i < j < |s.apologised| ==> s.apologised[i] != s.apologised[j])
  {
    InvInEveryRun(feed, start, steps);
  }

  lemma {:induction false} MailsDueInEveryRun(feed: map<EventId, Event>, start: Db, steps: seq<Step>)
    requires OrdersSound(start) && ReferencesLive(start)
    ensures MailsDue(start, Run(feed, Opening(start), steps))
    decreases |steps|
  {
    hide Next, Inv, MailsDue;
    if steps == [] {
      NothingDue(start);
    } else {
      MailsDueInEveryRun(feed, start, steps[..|steps| - 1]);
      InvInEveryRun(feed, start, steps[..|steps| - 1]);
      StepMailsDue(feed, start, Run(feed, Opening(start), steps[..|steps| - 1]), steps[|steps| - 1]);
    }
  }

  lemma NothingDue(start: Db)
    ensures MailsDue(start, Opening(start))
  {
  }

  /** And it does go out: every order paid, or refunded, in the run had its mail, once every call has ended, unless the one that owed it died. */
  lemma EachMailGoesOut(feed: map<EventId, Event>, start: Db, steps: seq<Step>, o: OrderId)
    requires OrdersSound(start) && ReferencesLive(start) && Run(feed, Opening(start), steps).actors == map[]
    ensures var w := Run(feed, Opening(start), steps);
      && (Moves(start, w.s.log, o, false) ==> o in w.s.thanked || (o, false) in w.silenced)
      && (Moves(start, w.s.log, o, true) ==> o in w.s.apologised || (o, true) in w.silenced)
  {
    MailsDueInEveryRun(feed, start, steps);
    hide Run, Moves;
  }

  /** In every such run an order enters PAID at most once and is restocked at most once, cancel and refund together. */
  lemma EachEffectAtMostOnce(feed: map<EventId, Event>, start: Db, steps: seq<Step>, o: OrderId)
    requires OrdersSound(start) && ReferencesLive(start) && !GaveBack(start, o)
    ensures var s := Run(feed, Opening(start), steps).s;
      PaidEntries(start, s.log, o) <= 1 && Returned(start, s.log, o) == if GaveBack(s.db, o) then 1 else 0
  {
    InvInEveryRun(feed, start, steps);
    PaidAtMostOnce(start, Run(feed, Opening(start), steps).s.log, o);
    RestockedAtMostOnce(start, Run(feed, Opening(start), steps).s.log, o);
  }

  /** Stock is conserved in every such run, with no assumption left on what the restocks read. */
  lemma StockConservedThroughout(feed: map<EventId, Event>, start: Db, steps: seq<Step>, v: VariantId)
    requires OrdersSound(start) && ReferencesLive(start)
    ensures var s := Run(feed, Opening(start), steps).s;
      Stock(s.db, v) + Held(s.db.orders, v) ==
      Stock(start, v) + Held(start.orders, v) + Corrections(start, s.log, v) + Refused(start, s.log, v)
  {
    InvInEveryRun(feed, start, steps);
    WellReadConserves(start, Run(feed, Opening(start), steps).s.log, v);
  }

  /**
   * A refund that names only its intent is stamped processed only when an order holds
   * that intent and is REFUNDED, SHIPPED or DELIVERED: payment and refund converge in
   * whatever order they arrive.
   */
  lemma StampedRefundHasLanded(feed: map<EventId, Event>, start: Db, steps: seq<Step>, e: EventId)
    requires OrdersSound(start) && ReferencesLive(start)
    requires e in feed && feed[e].RefundMade? && feed[e].order == None
    ensures var s := Run(feed, Opening(start), steps).s;
      e in s.events && s.events[e] ==> RefundLanded(s.db, feed[e].intent)
  {
    InvInEveryRun(feed, start, steps);
  }

  /**
   * A success event stamped processed has its intent on an order or named in the log, or
   * else the order it names is flagged there. Only the first two say which charge to
   * reverse: a flag names the order, and the event's row keeps no payload.
   */
  lemma StampedChargeIsAccounted(feed: map<EventId, Event>, start: Db, steps: seq<Step>, e: EventId)
    requires OrdersSound(start) && ReferencesLive(start)
    requires e in feed && feed[e].Succeeded?
    ensures var s := Run(feed, Opening(start), steps).s;
      e in s.events && s.events[e] ==>
        || feed[e].intent in s.named || SomeoneHolds(s.db, feed[e].intent)
        || (feed[e].order.Some? && feed[e].order.value in s.flagged)
  {
    InvInEveryRun(feed, start, steps);
  }

  /** No refund is silently lost either, unless its call died between the provider and the write. */
  lemma ObtainedRefundIsAccounted(feed: map<EventId, Event>, start: Db, steps: seq<Step>, o: OrderId, ref: Ref)
    requires OrdersSound(start) && ReferencesLive(start)
    ensures var w := Run(feed, Opening(start), steps);
      (o, ref) in w.s.obtained && ref !in w.s.lost && (forall a :: a in w.actors ==> w.actors[a] != RefundWriting(o, ref)) ==>
      OnOrder(w.s.db, o, ref) || ref in w.s.reconciled
  {
    InvInEveryRun(feed, start, steps);
    var w := Run(feed, Opening(start), steps);
    assert (o, ref) in w.s.obtained ==>
      || OnOrder(w.s.db, (o, ref).0, (o, ref).1) || ref in w.s.reconciled || ref in w.s.lost
      || exists a :: a in w.actors && w.actors[a] == RefundWriting((o, ref).0, (o, ref).1);
  }
}
