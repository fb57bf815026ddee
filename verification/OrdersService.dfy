/**
 * The services themselves, in the form they have: an object over the tables whose
 * methods update rows, loop over lines and roll back. Each is proved against the
 * transactions of `Shop`, so what holds of every run holds of their calls.
 */
module OrdersService {
  import opened Wrappers
  import opened Rows
  import opened Shop
  import opened Effects
  import opened Seqs
  import opened Conservation
  import opened Lifecycle
  import opened Checkouts

  /** How a checkout ends. `Thrown` is an exception the client sees as a server error. */
  datatype CheckoutResult = Created | CartEmpty | Unavailable(failed: seq<VariantId>) | Thrown

  /** `taken` says for each line, in order, whether its guarded decrement matched the shelf as the earlier ones left it. */
  ghost predicate TakenInTurn(db: Db, items: seq<Item>, active: seq<bool>, taken: seq<bool>)
    requires |items| == |active| && |taken| <= |items|
  {
    forall i :: 0 <= i < |taken| ==>
      Perform(db, Takes(items[..i], taken[..i])).Some? &&
      (taken[i] <==> active[i] && Covered(Perform(db, Takes(items[..i], taken[..i])).value, items[i]))
  }

  /** With one line per variant the earlier lines do not matter. */
  lemma TakenByCover(db: Db, items: seq<Item>, active: seq<bool>, taken: seq<bool>, i: nat)
    requires |items| == |active| == |taken| && DistinctVariants(items)
    requires TakenInTurn(db, items, active, taken) && i < |items|
    ensures taken[i] <==> active[i] && Covered(db, items[i])
  {
    TakesEffect(db, items[..i], taken[..i]);
    forall k | 0 <= k < i ensures items[..i][k].variant != items[i].variant {
      assert items[..i][k] == items[k];
    }
    UntouchedVariant(items[..i], taken[..i], items[i].variant);
    var d := Perform(db, Takes(items[..i], taken[..i])).value;
    assert Stock(d, items[i].variant) == Stock(db, items[i].variant);
  }

  /** The variants of the lines not taken, in cart order. */
  function Losers(items: seq<Item>, taken: seq<bool>): seq<VariantId>
    requires |items| == |taken|
  {
    if items == [] then []
    else
      var k := |items| - 1;
      Losers(items[..k], taken[..k]) + (if taken[k] then [] else [items[k].variant])
  }

  /** `failed` names exactly the lines that could not be taken. */
  lemma {:induction false} LosersAreTheUntaken(items: seq<Item>, taken: seq<bool>, v: VariantId)
    requires |items| == |taken|
    ensures v in Losers(items, taken) <==> exists i :: 0 <= i < |items| && items[i].variant == v && !taken[i]
    decreases |items|
  {
    if items != [] {
      var k := |items| - 1;
      LosersAreTheUntaken(items[..k], taken[..k], v);
      if i :| 0 <= i < k && items[..k][i].variant == v && !taken[..k][i] {
        assert items[i].variant == v && !taken[i];
      }
      if i :| 0 <= i < |items| && items[i].variant == v && !taken[i] {
        if i < k { assert items[..k][i].variant == v && !taken[..k][i]; }
      }
    }
  }

  lemma {:induction false} NoLosers(items: seq<Item>, taken: seq<bool>)
    requires |items| == |taken| && Losers(items, taken) == []
    ensures taken == All(|items|)
    decreases |items|
  {
    if items != [] {
      var k := |items| - 1;
      NoLosers(items[..k], taken[..k]);
      assert taken == taken[..k] + [taken[k]];
      assert All(|items|) == All(k) + [true];
    }
  }

  lemma NothingTaken(start: Db, items: seq<Item>, active: seq<bool>)
    requires |items| == |active|
    ensures Perform(start, Takes(items[..0], [])) == Some(start)
    ensures TakenInTurn(start, items, active, []) && Losers(items[..0], []) == []
  {
  }

  lemma DecrementOutcome(db: Db, item: Item, active: bool)
    ensures var (db', r) := ExecStmt(db, Decrement(item.variant, item.quantity, active));
      && (r == Hit <==> active && Covered(db, item))
      && (r == Error <==> item.quantity <= 0)
      && (if r == Hit then (db', r) == ExecStmt(db, Decrement(item.variant, item.quantity, true)) else db' == db)
  {
  }

  /** One turn of the decrement loop. */
  lemma TakeStep(start: Db, items: seq<Item>, active: seq<bool>, was: seq<bool>, i: nat, r: Outcome)
    requires |items| == |active| && i == |was| < |items| && TakenInTurn(start, items, active, was)
    requires Perform(start, Takes(items[..i], was)).Some?
    requires r == ExecStmt(Perform(start, Takes(items[..i], was)).value,
                           Decrement(items[i].variant, items[i].quantity, active[i])).1
    requires r != Error
    ensures var taken := was + [r == Hit];
      && Perform(start, Takes(items[..i + 1], taken)) ==
         Some(ExecStmt(Perform(start, Takes(items[..i], was)).value,
                       Decrement(items[i].variant, items[i].quantity, active[i])).0)
      && TakenInTurn(start, items, active, taken)
      && Losers(items[..i + 1], taken) == Losers(items[..i], was) + (if r == Hit then [] else [items[i].variant])
      && items[i].quantity > 0
  {
    hide Perform, ExecStmt, Covered;
    var taken := was + [r == Hit];
    assert items[..i + 1][..i] == items[..i] && taken[..i] == was;
    DecrementOutcome(Perform(start, Takes(items[..i], was)).value, items[i], active[i]);
    PerformSnoc(start, Takes(items[..i], was), Decrement(items[i].variant, items[i].quantity, true));
    if r != Hit { assert Takes(items[..i], was) + [] == Takes(items[..i], was); }
    forall k | 0 <= k < |taken|
      ensures Perform(start, Takes(items[..k], taken[..k])).Some?
      ensures taken[k] <==> active[k] && Covered(Perform(start, Takes(items[..k], taken[..k])).value, items[k])
    {
      if k < i { assert taken[..k] == was[..k]; }
    }
  }

  /** Deleting the cart's rows in one statement or one by one. */
  lemma CartEmptied(db: Db, user: UserId)
    ensures Perform(db, Deletes(Enumerate(LinesOf(db, user)), user)) == Some(db.(lines := db.lines - LinesOf(db, user)))
  {
    var deleted := Enumerate(LinesOf(db, user));
    DeletesEffect(db, deleted, user);
    assert forall l :: l in deleted ==> l in Elements(deleted);
  }

  /** The lines that lost are exactly those not covered when the checkout began. */
  lemma {:induction false} LosersExactly(db: Db, emptied: Db, items: seq<Item>, active: seq<bool>, taken: seq<bool>, v: VariantId)
    requires |items| == |active| == |taken| && DistinctVariants(items)
    requires emptied == db.(lines := emptied.lines) && TakenInTurn(emptied, items, active, taken)
    ensures v in Losers(items, taken) <==>
            exists i :: 0 <= i < |items| && items[i].variant == v && !(active[i] && Covered(db, items[i]))
  {
    LosersAreTheUntaken(items, taken, v);
    forall i | 0 <= i < |items| ensures taken[i] <==> active[i] && Covered(db, items[i]) {
      TakenByCover(emptied, items, active, taken, i);
    }
    hide TakenInTurn, Covered;
  }

  /** When a checkout of these lines creates its order: every product ACTIVE at its decrement, too. */
  ghost predicate Sellable(db: Db, user: UserId, items: seq<Item>, order: OrderId, shippingCents: int, active: seq<bool>)
    requires |items| == |active|
  {
    && items != [] && |LinesOf(db, user)| == |items|
    && (forall i :: 0 <= i < |items| ==> active[i] && Covered(db, items[i]) && items[i].variant in db.listings)
    && order !in db.orders && PassesChecks(NewOrder(user, items, shippingCents, None))
  }

  lemma AllCovered(db: Db, emptied: Db, items: seq<Item>, active: seq<bool>)
    requires |items| == |active| && DistinctVariants(items) && emptied == db.(lines := emptied.lines)
    requires TakenInTurn(emptied, items, active, All(|items|))
    ensures forall i :: 0 <= i < |items| ==> active[i] && Covered(db, items[i])
  {
    forall i | 0 <= i < |items| ensures active[i] && Covered(db, items[i]) {
      TakenByCover(emptied, items, active, All(|items|), i);
    }
  }

  /** The cart's lines deleted and every item taken. */
  ghost predicate Consumed(db: Db, user: UserId, items: seq<Item>, deleted: seq<LineId>, taken: Db) {
    && taken.orders == db.orders && taken.listings == db.listings
    && Perform(db, Deletes(deleted, user)) == Some(db.(lines := taken.lines))
    && Perform(db.(lines := taken.lines), Takes(items, All(|items|))) == Some(taken)
  }

  lemma CartConsumed(db: Db, user: UserId, items: seq<Item>, deleted: seq<LineId>, emptied: Db, taken: Db)
    requires emptied == db.(lines := emptied.lines) && taken == emptied.(shelf := taken.shelf)
    requires Perform(db, Deletes(deleted, user)) == Some(emptied)
    requires Perform(emptied, Takes(items, All(|items|))) == Some(taken)
    ensures Consumed(db, user, items, deleted, taken)
  {
    assert db.(lines := taken.lines) == emptied;
  }

  /** The refusal of a checkout names exactly the variants whose line could not be taken. */
  ghost predicate NamesTheUncovered(db: Db, items: seq<Item>, active: seq<bool>, failed: seq<VariantId>)
    requires |items| == |active|
  {
    failed != [] &&
    forall v :: v in failed <==> exists i :: 0 <= i < |items| && items[i].variant == v && !(active[i] && Covered(db, items[i]))
  }

  lemma FailedAreUncovered(db: Db, emptied: Db, items: seq<Item>, active: seq<bool>, taken: seq<bool>)
    requires |items| == |active| == |taken| && DistinctVariants(items)
    requires emptied == db.(lines := emptied.lines) && TakenInTurn(emptied, items, active, taken)
    requires Losers(items, taken) != []
    ensures NamesTheUncovered(db, items, active, Losers(items, taken))
  {
    forall v ensures v in Losers(items, taken) <==>
        exists i :: 0 <= i < |items| && items[i].variant == v && !(active[i] && Covered(db, items[i]))
    {
      LosersExactly(db, emptied, items, active, taken, v);
    }
  }

  lemma CoveredIsPositive(db: Db, items: seq<Item>)
    ensures forall i :: 0 <= i < |items| && Covered(db, items[i]) ==> items[i].quantity > 0
  {
  }

  lemma UncoveredIsUnsellable(db: Db, items: seq<Item>, active: seq<bool>, r: CheckoutResult)
    requires |items| == |active|
    requires r.Unavailable? ==> NamesTheUncovered(db, items, active, r.failed)
    ensures r.Unavailable? ==> exists i :: 0 <= i < |items| && !(active[i] && Covered(db, items[i]))
  {
    if r.Unavailable? {
      assert r.failed[0] in r.failed;
    }
  }

  /** The insert that ends a checkout completes its transaction. */
  lemma CheckoutCompletes(db: Db, txn: Txn, taken: Db)
    requires txn.Checkout? && Admissible(txn) && Consumed(db, txn.user, txn.items, txn.deleted, taken)
    requires txn.order !in db.orders && PassesChecks(NewOrder(txn.user, txn.items, txn.shippingCents, None))
    requires forall i :: 0 <= i < |txn.items| ==> txn.items[i].variant in db.listings
    ensures Commits(db, txn)
    ensures Apply(db, txn) ==
            taken.(orders := taken.orders[txn.order := NewOrder(txn.user, txn.items, txn.shippingCents, None)])
  {
    var row, emptied := NewOrder(txn.user, txn.items, txn.shippingCents, None), db.(lines := taken.lines);
    PlacesPerform(emptied, txn.order, row, All(|txn.items|));
    PerformConcat(db, Deletes(txn.deleted, txn.user), Places(txn.order, row, All(|txn.items|)));
  }

  /** So does the insert that ends an import. */
  lemma {:induction false} ImportCompletes(db: Db, txn: Txn, taken: Db)
    requires txn.Import? && 0 < |txn.items| == |txn.taken|
    requires Perform(db, Takes(txn.items, txn.taken)) == Some(taken)
    requires txn.order !in db.orders && PassesChecks(NewOrder(txn.user, txn.items, txn.shippingCents, txn.paidAt))
    requires forall i :: 0 <= i < |txn.items| ==> txn.items[i].variant in db.listings && txn.items[i].quantity > 0
    ensures Commits(db, txn)
    ensures Apply(db, txn) ==
            taken.(orders := taken.orders[txn.order := NewOrder(txn.user, txn.items, txn.shippingCents, txn.paidAt)])
  {
    PlacesPerform(db, txn.order, NewOrder(txn.user, txn.items, txn.shippingCents, txn.paidAt), txn.taken);
  }

  lemma {:induction false} OneMore(l: LineId, rest: seq<LineId>)
    requires Distinct(rest) && l !in Elements(rest)
    ensures Distinct([l] + rest) && Elements([l] + rest) == {l} + Elements(rest)
  {
    assert forall x :: x in rest ==> x in Elements(rest);
  }

  /** The rows one deleteMany removes, in some order. */
  ghost function Enumerate(s: set<LineId>): (r: seq<LineId>)
    ensures Distinct(r) && Elements(r) == s && |r| == |s|
    decreases |s|
  {
    if s == {} then []
    else
      var l :| l in s;
      var rest := Enumerate(s - {l});
      OneMore(l, rest);
      [l] + rest
  }

  /** How a lifecycle route answers; a conflict names the current status. */
  datatype TransitionResult = Moved | NotFound | Conflict(current: Status)

  function TransitionTxn(o: OrderId, change: Change): Txn
    requires change.ToPaid? || change.ToShipped? || change.ToDelivered?
  {
    match change
    case ToPaid(at, intent) => Txn.MarkPaid(o, at, intent)
    case ToShipped(at) => Txn.Ship(o, at)
    case ToDelivered(at) => Txn.Deliver(o, at)
  }

  class Tables {
    var listings: set<VariantId>
    var shelf: map<VariantId, Shelf>
    var orders: map<OrderId, Order>
    var lines: map<LineId, Line>

    ghost function Model(): Db
      reads this
    {
      Db(listings, shelf, orders, lines)
    }

    // ---------- StockService ----------

    /** One conditional UPDATE: check and decrement together. */
    method Decrement(v: VariantId, n: int, productActive: bool) returns (r: Outcome)
      modifies this`shelf
      ensures (Model(), r) == ExecStmt(old(Model()), Stmt.Decrement(v, n, productActive))
      ensures r == Hit <==> productActive && n > 0 && v in old(shelf) && !old(shelf)[v].archived && n <= old(shelf)[v].stock
      ensures r == Error <==> n <= 0
      ensures r == Hit ==> shelf == old(shelf)[v := old(shelf)[v].(stock := old(shelf)[v].stock - n)] && shelf[v].stock >= 0
      ensures r != Hit ==> shelf == old(shelf)
    {
      if n <= 0 {
        return Error;
      }
      if v in shelf && shelf[v].stock >= n && productActive && !shelf[v].archived {
        shelf := shelf[v := shelf[v].(stock := shelf[v].stock - n)];
        return Hit;
      }
      return Miss;
    }

    method Restock(v: VariantId, n: int) returns (r: Outcome)
      modifies this`shelf
      ensures (Model(), r) == ExecStmt(old(Model()), Stmt.Restock(v, n))
      ensures r == Hit <==> n > 0 && v in old(shelf)
      ensures shelf == if r == Hit then old(shelf)[v := old(shelf)[v].(stock := old(shelf)[v].stock + n)] else old(shelf)
    {
      if n <= 0 || v !in shelf {
        return Error;
      }
      shelf := shelf[v := shelf[v].(stock := shelf[v].stock + n)];
      return Hit;
    }

    method SetQuantity(v: VariantId, n: int) returns (r: Outcome)
      modifies this`shelf
      ensures Model() == Apply(old(Model()), Txn.SetQuantity(v, n))
      ensures r == Hit <==> Commits(old(Model()), Txn.SetQuantity(v, n))
      ensures r == Miss <==> v !in old(shelf)
      ensures r == Error <==> v in old(shelf) && n < 0
      ensures shelf == if r == Hit then old(shelf)[v := old(shelf)[v].(stock := n)] else old(shelf)
    {
      PerformOne(Model(), SetStock(v, n));
      if v !in shelf {
        return Miss;
      }
      if n < 0 {
        return Error;
      }
      shelf := shelf[v := shelf[v].(stock := n)];
      return Hit;
    }

    // ---------- Loops over lines ----------

    /** The decrement loop of checkout and of the marketplace imports. */
    method TakeLines(items: seq<Item>, active: seq<bool>)
      returns (taken: seq<bool>, failed: seq<VariantId>, thrown: bool)
      requires |items| == |active|
      modifies this`shelf
      ensures !thrown ==> |taken| == |items| && failed == Losers(items, taken)
      ensures !thrown ==> Perform(old(Model()), Takes(items, taken)) == Some(Model())
      ensures !thrown ==> TakenInTurn(old(Model()), items, active, taken)
      ensures thrown <==> !forall i :: 0 <= i < |items| ==> items[i].quantity > 0
    {
      ghost var start := Model();
      taken, failed, thrown := [], [], false;
      var i := 0;
      NothingTaken(start, items, active);
      hide Perform, ExecStmt, TakenInTurn, Losers, Takes, Covered;
      while i < |items|
        invariant 0 <= i == |taken| <= |items|
        invariant failed == Losers(items[..i], taken)
        invariant Model() == start.(shelf := shelf)
        invariant Perform(start, Takes(items[..i], taken)) == Some(Model())
        invariant TakenInTurn(start, items, active, taken)
        invariant forall k :: 0 <= k < i ==> items[k].quantity > 0
      {
        ghost var was := taken;
        var r := Decrement(items[i].variant, items[i].quantity, active[i]);
        if r == Error {
          return taken, failed, true;
        }
        taken := taken + [r == Hit];
        if r == Miss {
          failed := failed + [items[i].variant];
        }
        TakeStep(start, items, active, was, i, r);
        assert failed == Losers(items[..i + 1], taken);
        i := i + 1;
      }
      assert items[..|items|] == items;
    }

    /** The restocking loop of cancel and refund. */
    method RestockLines(items: seq<Item>) returns (thrown: bool)
      modifies this`shelf
      ensures !thrown ==> Perform(old(Model()), Restocks(items)) == Some(Model())
      ensures thrown ==> Perform(old(Model()), Restocks(items)).None?
    {
      ghost var start := Model();
      var i := 0;
      while i < |items|
        invariant 0 <= i <= |items|
        invariant Model() == start.(shelf := shelf)
        invariant Perform(start, Restocks(items[..i])) == Some(Model())
      {
        assert Restocks(items[..i + 1]) == Restocks(items[..i]) + [Stmt.Restock(items[i].variant, items[i].quantity)];
        PerformSnoc(start, Restocks(items[..i]), Stmt.Restock(items[i].variant, items[i].quantity));
        var r := Restock(items[i].variant, items[i].quantity);
        if r != Hit {
          assert Restocks(items) == Restocks(items[..i + 1]) + Restocks(items)[i + 1..];
          PerformConcat(start, Restocks(items[..i + 1]), Restocks(items)[i + 1..]);
          return true;
        }
        i := i + 1;
      }
      assert items[..|items|] == items;
      return false;
    }

    // ---------- Transactions ----------

    /**
     * The first half of checkout's transaction: delete the cart lines and compare their
     * number, take every line. A refusal rolls back; `Created` says nothing was refused.
     */
    method ConsumeCart(user: UserId, items: seq<Item>, active: seq<bool>) returns (r: CheckoutResult, ghost deleted: seq<LineId>)
      requires |items| == |active| && DistinctVariants(items)
      modifies this`shelf, this`lines
      ensures deleted == Enumerate(LinesOf(old(Model()), user))
      ensures r == Created ==> 0 < |items| == |deleted|
      ensures r == Created ==> Consumed(old(Model()), user, items, deleted, Model())
      ensures r != Created ==> Model() == old(Model())
      ensures r == CartEmpty <==> items == [] || |LinesOf(old(Model()), user)| != |items|
      ensures r == Thrown ==> exists i :: 0 <= i < |items| && items[i].quantity <= 0
      ensures r == Created ==> forall i :: 0 <= i < |items| ==> active[i] && Covered(old(Model()), items[i])
      ensures r.Unavailable? ==> NamesTheUncovered(old(Model()), items, active, r.failed)
    {
      hide Perform, ExecStmt, TakenInTurn, Losers, Covered, Takes, Deletes, NamesTheUncovered;
      ghost var start := Model();
      deleted := Enumerate(LinesOf(start, user));
      if items == [] {
        return CartEmpty, deleted;
      }
      var shelf0, lines0 := shelf, lines;
      var mine := set l | l in lines && lines[l].user == user;
      lines := lines - mine;
      if |mine| != |items| {
        lines := lines0;
        return CartEmpty, deleted;
      }
      ghost var emptied := Model();
      CartEmptied(start, user);
      var taken, failed, thrown := TakeLines(items, active);
      if thrown {
        shelf, lines := shelf0, lines0;
        return Thrown, deleted;
      }
      if failed != [] {
        shelf, lines := shelf0, lines0;
        FailedAreUncovered(start, emptied, items, active, taken);
        return Unavailable(failed), deleted;
      }
      NoLosers(items, taken);
      AllCovered(start, emptied, items, active);
      CartConsumed(start, user, items, deleted, emptied, Model());
      return Created, deleted;
    }

    /**
     * checkout, from the cart it read to the order it inserts: consume the cart, insert;
     * any refusal rolls everything back.
     */
    method Checkout(user: UserId, items: seq<Item>, order: OrderId, shippingCents: int, active: seq<bool>)
      returns (r: CheckoutResult, ghost deleted: seq<LineId>)
      requires |items| == |active| && DistinctVariants(items)
      modifies this
      ensures deleted == Enumerate(LinesOf(old(Model()), user))
      ensures r == Created ==> Commits(old(Model()), Txn.Checkout(order, user, items, deleted, shippingCents))
      ensures r == Created ==> Model() == Apply(old(Model()), Txn.Checkout(order, user, items, deleted, shippingCents))
      ensures r == Created ==> order in orders && orders[order] == NewOrder(user, items, shippingCents, None)
      ensures r != Created ==> Model() == old(Model())
      ensures r == CartEmpty <==> items == [] || |LinesOf(old(Model()), user)| != |items|
      ensures r == Created <==> Sellable(old(Model()), user, items, order, shippingCents, active)
      ensures r.Unavailable? ==> NamesTheUncovered(old(Model()), items, active, r.failed)
      ensures r == Thrown ==>
                || (exists i :: 0 <= i < |items| && (items[i].quantity <= 0 || items[i].variant !in old(listings)))
                || order in old(orders) || !PassesChecks(NewOrder(user, items, shippingCents, None))
    {
      ghost var start := Model();
      CoveredIsPositive(start, items);
      hide Perform, Apply, Commits, Program, PassesChecks, Covered, NewOrder, NamesTheUncovered, Consumed, Sold;
      var shelf0, lines0 := shelf, lines;
      r, deleted := ConsumeCart(user, items, active);
      if r != Created {
        UncoveredIsUnsellable(start, items, active, r);
        return;
      }
      ghost var took := Model();
      var row := NewOrder(user, items, shippingCents, None);
      if order in orders || !PassesChecks(row) || !(forall i :: 0 <= i < |items| ==> items[i].variant in listings) {
        shelf, lines := shelf0, lines0;
        r := Thrown;
        return;
      }
      orders := orders[order := row];
      CheckoutCompletes(start, Txn.Checkout(order, user, items, deleted, shippingCents), took);
    }

    /** The import transaction of the three marketplaces: a refused decrement is logged and the order created anyway. */
    method ImportOrder(user: UserId, items: seq<Item>, order: OrderId, shippingCents: int, paidAt: Option<Time>, active: seq<bool>)
      returns (imported: bool, taken: seq<bool>)
      requires |items| == |active|
      modifies this
      ensures imported ==> |taken| == |items| && TakenInTurn(old(Model()), items, active, taken)
      ensures imported ==> Commits(old(Model()), Txn.Import(order, user, items, taken, shippingCents, paidAt))
      ensures imported ==> Model() == Apply(old(Model()), Txn.Import(order, user, items, taken, shippingCents, paidAt))
      ensures !imported ==> Model() == old(Model())
      ensures imported <==>
                && items != [] && order !in old(orders) && PassesChecks(NewOrder(user, items, shippingCents, paidAt))
                && forall i :: 0 <= i < |items| ==> items[i].variant in old(listings)
    {
      hide Perform, ExecStmt, Apply, Commits, Program, TakenInTurn, Losers, Places, Takes;
      ghost var start := Model();
      taken := [];
      if items == [] {
        return false, taken;
      }
      var shelf0 := shelf;
      var failed, thrown;
      taken, failed, thrown := TakeLines(items, active);
      if thrown {
        shelf := shelf0;
        return false, taken;
      }
      var row := NewOrder(user, items, shippingCents, paidAt);
      if order in orders || !PassesChecks(row) || !(forall i :: 0 <= i < |items| ==> items[i].variant in listings) {
        shelf := shelf0;
        return false, taken;
      }
      ghost var took := Model();
      orders := orders[order := row];
      ImportCompletes(start, Txn.Import(order, user, items, taken, shippingCents, paidAt), took);
      return true, taken;
    }

    /** The transaction of cancel, over the lines read before it. */
    method Cancel(o: OrderId, items: seq<Item>, at: Time) returns (cancelled: bool)
      modifies this
      ensures cancelled <==> Commits(old(Model()), Txn.Cancel(o, items, at))
      ensures Model() == Apply(old(Model()), Txn.Cancel(o, items, at))
    {
      cancelled := MoveAndRestock(o, ToCancelled(at), items);
    }

    /** applyRefund: the lines are read inside the transaction, once the order row is locked. */
    method ApplyRefund(o: OrderId, ref: Option<Ref>, at: Time) returns (applied: bool)
      modifies this
      ensures o in old(orders) ==> (applied <==> Commits(old(Model()), Txn.Refund(o, old(orders)[o].items, at, ref)))
      ensures o in old(orders) ==> Model() == Apply(old(Model()), Txn.Refund(o, old(orders)[o].items, at, ref))
      ensures o !in old(orders) ==> !applied && Model() == old(Model())
    {
      if o !in orders {
        return false;
      }
      applied := MoveAndRestock(o, ToRefunded(at, ref), orders[o].items);
    }

    /** A conditional status update and the restocks behind it, undone together if one throws. */
    method MoveAndRestock(o: OrderId, change: Change, items: seq<Item>) returns (done: bool)
      modifies this
      ensures done <==> Perform(old(Model()), [UpdateOrder(o, change)] + Restocks(items)).Some?
      ensures done ==> Model() == Perform(old(Model()), [UpdateOrder(o, change)] + Restocks(items)).value
      ensures !done ==> Model() == old(Model())
    {
      PerformConcat(Model(), [UpdateOrder(o, change)], Restocks(items));
      PerformOne(Model(), UpdateOrder(o, change));
      if o !in orders || orders[o].status != From(change) {
        return false;
      }
      var orders0, shelf0 := orders, shelf;
      orders := orders[o := Amend(orders[o], change)];
      var thrown := RestockLines(items);
      if thrown {
        orders, shelf := orders0, shelf0;
        return false;
      }
      return true;
    }

    /** transition: one conditional update, and a follow-up read that only words the refusal. */
    method Transition(o: OrderId, change: Change) returns (r: TransitionResult)
      requires change.ToPaid? || change.ToShipped? || change.ToDelivered?
      modifies this`orders
      ensures Model() == Apply(old(Model()), TransitionTxn(o, change))
      ensures r == Moved <==> Commits(old(Model()), TransitionTxn(o, change))
      ensures r == NotFound <==> o !in old(orders)
      ensures r.Conflict? ==> r.current == old(orders)[o].status != From(change)
    {
      PerformOne(Model(), UpdateOrder(o, change));
      if o in orders && orders[o].status == From(change) {
        orders := orders[o := Amend(orders[o], change)];
        return Moved;
      }
      if o !in orders {
        return NotFound;
      }
      return Conflict(orders[o].status);
    }
  }

  /** Inserting an order over taken lines, all of whose checks pass, is what `Places` performs. */
  lemma PlacesPerform(db: Db, o: OrderId, row: Order, taken: seq<bool>)
    requires |row.items| == |taken| && Perform(db, Takes(row.items, taken)).Some?
    requires o !in db.orders && PassesChecks(row)
    requires forall i :: 0 <= i < |row.items| ==> row.items[i].variant in db.listings
    ensures var d := Perform(db, Takes(row.items, taken)).value;
      Perform(db, Places(o, row, taken)) == Some(d.(orders := d.orders[o := row]))
  {
    var takes, reqs := Takes(row.items, taken), Requires(row.items);
    TakesEffect(db, row.items, taken);
    PerformSnoc(db, takes + reqs, InsertOrder(o, row));
    PerformConcat(db, takes, reqs);
    RequiresEffect(Perform(db, takes).value, row.items);
  }
}
