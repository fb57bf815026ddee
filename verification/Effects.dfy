/** What each committed transaction does to the rows, statement lists worked out. */
module Effects {
  import opened Wrappers
  import opened Rows
  import opened Shop
  import opened Seqs

  /** Pieces of variant `v` among the lines. */
  function Units(items: seq<Item>, v: VariantId): int {
    if items == [] then 0
    else Units(items[..|items| - 1], v) +
         (if items[|items| - 1].variant == v then items[|items| - 1].quantity else 0)
  }

  /** Which variant each piece is of: a line's variant as often as its quantity. */
  ghost function Pieces(items: seq<Item>): multiset<VariantId> {
    if items == [] then multiset{}
    else
      var last := items[|items| - 1];
      Pieces(items[..|items| - 1]) + multiset(seq(if last.quantity < 0 then 0 else last.quantity, _ => last.variant))
  }

  lemma {:induction false} SameTimes(n: nat, v: VariantId, w: VariantId)
    ensures multiset(seq(n, _ => v))[w] == if w == v then n else 0
  {
    var s := seq(n, _ => v);
    if n == 0 {
      assert s == [];
    } else {
      assert s == seq(n - 1, _ => v) + [v];
      SameTimes(n - 1, v, w);
    }
  }

  /** Units counts the pieces of one variant. */
  lemma {:induction false} UnitsCountPieces(items: seq<Item>, v: VariantId)
    requires forall i :: 0 <= i < |items| ==> items[i].quantity >= 0
    ensures Units(items, v) == Pieces(items)[v]
    decreases |items|
  {
    if items != [] {
      var last := items[|items| - 1];
      UnitsCountPieces(items[..|items| - 1], v);
      SameTimes(last.quantity, last.variant, v);
    }
  }

  /** Pieces of variant `v` whose decrement took effect. */
  function TakenUnits(items: seq<Item>, taken: seq<bool>, v: VariantId): int
    requires |items| == |taken|
  {
    if items == [] then 0
    else
      var k := |items| - 1;
      TakenUnits(items[..k], taken[..k], v) +
      (if taken[k] && items[k].variant == v then items[k].quantity else 0)
  }

  function Stock(db: Db, v: VariantId): int {
    if v in db.shelf then db.shelf[v].stock else 0
  }

  /** Same variants, same archive flags; only stock counts may differ. */
  predicate SameShelves(a: Db, b: Db) {
    && a.shelf.Keys == b.shelf.Keys
    && forall v :: v in a.shelf ==> a.shelf[v].archived == b.shelf[v].archived
  }

  ghost predicate NonNegative(db: Db) {
    forall v :: v in db.shelf ==> db.shelf[v].stock >= 0
  }

  lemma {:induction false} AllTaken(items: seq<Item>, v: VariantId)
    ensures TakenUnits(items, All(|items|), v) == Units(items, v)
    decreases |items|
  {
    if items != [] {
      var k := |items| - 1;
      assert All(|items|)[..k] == All(k);
      AllTaken(items[..k], v);
    }
  }

  // ---------- The phases of a program ----------

  /** One decrement that matched. */
  ghost predicate Took(db: Db, d: Db, item: Item) {
    && d == db.(shelf := d.shelf) && SameShelves(db, d)
    && item.quantity > 0 && item.variant in db.shelf && !db.shelf[item.variant].archived
    && Stock(d, item.variant) == Stock(db, item.variant) - item.quantity >= 0
    && (forall v :: v != item.variant ==> Stock(d, v) == Stock(db, v))
  }

  lemma DecrementTakes(db: Db, item: Item)
    requires ExecStmt(db, Decrement(item.variant, item.quantity, true)).1 == Hit
    ensures Took(db, ExecStmt(db, Decrement(item.variant, item.quantity, true)).0, item)
  {
  }

  /** Decrements that matched, one flag per line saying which did. */
  ghost predicate TookAll(db: Db, d: Db, items: seq<Item>, taken: seq<bool>)
    requires |items| == |taken|
  {
    && d == db.(shelf := d.shelf) && SameShelves(db, d)
    && (forall v :: Stock(d, v) == Stock(db, v) - TakenUnits(items, taken, v))
    && (NonNegative(db) ==> NonNegative(d))
    && (forall i :: 0 <= i < |items| && taken[i] ==>
          items[i].quantity > 0 && items[i].variant in db.shelf && !db.shelf[items[i].variant].archived)
  }

  lemma TookMore(db: Db, d: Db, d': Db, items: seq<Item>, taken: seq<bool>)
    requires |items| == |taken| > 0
    requires TookAll(db, d, items[..|items| - 1], taken[..|items| - 1])
    requires if taken[|items| - 1] then Took(d, d', items[|items| - 1]) else d' == d
    ensures TookAll(db, d', items, taken)
  {
    var k := |items| - 1;
    forall v | v in d'.shelf && NonNegative(db) ensures d'.shelf[v].stock >= 0 {
      assert d.shelf[v].stock >= 0;
      assert d'.shelf[v].stock == Stock(d', v) && d.shelf[v].stock == Stock(d, v);
    }
    forall i | 0 <= i < |items| && taken[i]
      ensures items[i].quantity > 0 && items[i].variant in db.shelf && !db.shelf[items[i].variant].archived
    {
      if i < k { assert items[..k][i] == items[i] && taken[..k][i]; }
    }
  }

  lemma {:induction false} TakesEffect(db: Db, items: seq<Item>, taken: seq<bool>)
    requires |items| == |taken| && Perform(db, Takes(items, taken)).Some?
    ensures TookAll(db, Perform(db, Takes(items, taken)).value, items, taken)
    decreases |items|
  {
    if items != [] {
      var k := |items| - 1;
      var init := Takes(items[..k], taken[..k]);
      if taken[k] {
        PerformSnoc(db, init, Decrement(items[k].variant, items[k].quantity, true));
        DecrementTakes(Perform(db, init).value, items[k]);
      } else {
        assert init + [] == init;
      }
      TakesEffect(db, items[..k], taken[..k]);
      TookMore(db, Perform(db, init).value, Perform(db, Takes(items, taken)).value, items, taken);
    }
  }

  lemma {:induction false} RestocksEffect(db: Db, items: seq<Item>)
    requires Perform(db, Restocks(items)).Some?
    ensures var d := Perform(db, Restocks(items)).value;
      && d == db.(shelf := d.shelf) && SameShelves(db, d)
      && (forall v :: Stock(d, v) == Stock(db, v) + Units(items, v))
      && (NonNegative(db) ==> NonNegative(d))
    decreases |items|
  {
    if items != [] {
      var k := |items| - 1;
      assert Restocks(items) == Restocks(items[..k]) + [Restock(items[k].variant, items[k].quantity)];
      PerformSnoc(db, Restocks(items[..k]), Restock(items[k].variant, items[k].quantity));
      RestocksEffect(db, items[..k]);
    }
  }

  /** Restocking lines whose variants exist, in positive quantities, cannot fail. */
  lemma {:induction false} RestocksSucceed(db: Db, items: seq<Item>)
    requires forall i :: 0 <= i < |items| ==> items[i].quantity > 0 && items[i].variant in db.shelf
    ensures Perform(db, Restocks(items)).Some?
    decreases |items|
  {
    if items != [] {
      var k := |items| - 1;
      assert Restocks(items) == Restocks(items[..k]) + [Restock(items[k].variant, items[k].quantity)];
      PerformSnoc(db, Restocks(items[..k]), Restock(items[k].variant, items[k].quantity));
      RestocksSucceed(db, items[..k]);
      RestocksEffect(db, items[..k]);
    }
  }

  lemma {:induction false} RequiresEffect(db: Db, items: seq<Item>)
    ensures Perform(db, Requires(items)) ==
            if forall i :: 0 <= i < |items| ==> items[i].variant in db.listings then Some(db) else None
    decreases |items|
  {
    if items != [] {
      var k := |items| - 1;
      assert Requires(items) == Requires(items[..k]) + [RequireListing(items[k].variant)];
      PerformSnoc(db, Requires(items[..k]), RequireListing(items[k].variant));
      RequiresEffect(db, items[..k]);
      assert forall i :: 0 <= i < k ==> items[..k][i] == items[i];
    }
  }

  ghost predicate OwnLines(db: Db, lines: seq<LineId>, user: UserId) {
    forall l :: l in lines ==> l in db.lines && db.lines[l].user == user
  }

  /** Deleting rows one by one works out exactly when they are distinct lines of that cart. */
  lemma {:induction false} DeletesEffect(db: Db, lines: seq<LineId>, user: UserId)
    ensures Perform(db, Deletes(lines, user)) ==
            if Distinct(lines) && OwnLines(db, lines, user)
            then Some(db.(lines := db.lines - Elements(lines))) else None
    decreases |lines|
  {
    if lines == [] {
      assert db.lines - Elements(lines) == db.lines;
    } else {
      var k := |lines| - 1;
      var init, l := lines[..k], lines[k];
      assert Deletes(lines, user) == Deletes(init, user) + [DeleteLine(l, user)];
      PerformSnoc(db, Deletes(init, user), DeleteLine(l, user));
      DeletesEffect(db, init, user);
      assert lines == init + [l];
      DistinctSnoc(init, l);
      assert l in Elements(init) <==> l in init;
      assert (db.lines - Elements(init)) - {l} == db.lines - Elements(lines);
      assert OwnLines(db, lines, user) <==> OwnLines(db, init, user) && OwnLines(db, [l], user) by {
        if OwnLines(db, init, user) && OwnLines(db, [l], user) {
          forall x | x in lines ensures x in db.lines && db.lines[x].user == user {
            if x !in init { assert x in [l]; }
          }
        }
        if OwnLines(db, lines, user) {
          assert forall x :: x in init ==> x in lines;
          assert l in lines;
        }
      }
      assert l in [l];
    }
  }

  ghost predicate LinesOn(db: Db, lines: seq<LineId>, v: VariantId) {
    forall l :: l in lines ==> l in db.lines && db.lines[l].variant == v
  }

  lemma DistinctSnoc(init: seq<LineId>, l: LineId)
    ensures Distinct(init + [l]) <==> Distinct(init) && l !in init
    ensures Elements(init + [l]) == Elements(init) + {l}
  {
    var lines := init + [l];
    assert forall i :: 0 <= i < |init| ==> lines[i] == init[i];
    if l in init {
      var i :| 0 <= i < |init| && init[i] == l;
      assert lines[i] == lines[|init|];
    }
    if Distinct(lines) {
      forall i, j | 0 <= i < j < |init| ensures init[i] != init[j] { assert lines[i] != lines[j]; }
    }
  }

  /** The lines of a variant, deleted one by one. */
  lemma {:induction false} ClearsEffect(db: Db, lines: seq<LineId>, v: VariantId)
    ensures Perform(db, Clears(lines, v)) ==
            if Distinct(lines) && LinesOn(db, lines, v) then Some(db.(lines := db.lines - Elements(lines))) else None
    decreases |lines|
  {
    if lines == [] {
      assert db.lines - Elements(lines) == db.lines;
    } else {
      var init, l := lines[..|lines| - 1], lines[|lines| - 1];
      assert lines == init + [l];
      assert Clears(lines, v) == Clears(init, v) + [ClearLine(l, v)];
      PerformSnoc(db, Clears(init, v), ClearLine(l, v));
      ClearsEffect(db, init, v);
      DistinctSnoc(init, l);
      ClearOneMore(db, init, l, v);
    }
    hide Perform, ExecStmt, Clears, Distinct, LinesOn, Elements;
  }

  lemma ClearOneMore(db: Db, init: seq<LineId>, l: LineId, v: VariantId)
    ensures LinesOn(db, init + [l], v) <==> LinesOn(db, init, v) && l in db.lines && db.lines[l].variant == v
    ensures var d := db.(lines := db.lines - Elements(init));
      ExecStmt(d, ClearLine(l, v)) ==
      if l in db.lines && db.lines[l].variant == v && l !in init
      then (db.(lines := db.lines - Elements(init + [l])), Hit) else (d, Miss)
  {
    assert forall x :: x in init + [l] <==> x in init || x == l;
    assert l in Elements(init) <==> l in init;
    DistinctSnoc(init, l);
    assert (db.lines - Elements(init)) - {l} == db.lines - Elements(init + [l]);
  }

  // ---------- Whole transactions ----------

  /** A new order was inserted over stock `taken` line by line. */
  ghost predicate Placed(db: Db, db': Db, o: OrderId, row: Order, taken: seq<bool>) {
    && |row.items| == |taken|
    && o !in db.orders && PassesChecks(row) && db'.orders == db.orders[o := row]
    && db'.listings == db.listings && SameShelves(db, db')
    && (forall v :: Stock(db', v) == Stock(db, v) - TakenUnits(row.items, taken, v))
    && (NonNegative(db) ==> NonNegative(db'))
    && (forall i :: 0 <= i < |row.items| ==> row.items[i].variant in db.listings)
  }

  /** An order moved by a conditional update, giving `items` back to the shelf. */
  ghost predicate Moved(db: Db, db': Db, o: OrderId, change: Change, items: seq<Item>) {
    && o in db.orders && db.orders[o].status == From(change)
    && db'.orders == db.orders[o := Amend(db.orders[o], change)]
    && db'.listings == db.listings && db'.lines == db.lines && SameShelves(db, db')
    && (forall v :: Stock(db', v) == Stock(db, v) + Units(items, v))
    && (NonNegative(db) ==> NonNegative(db'))
  }

  /** The rows without a variant and the cart lines on it. */
  function Removed(db: Db, v: VariantId, cleared: seq<LineId>): Db {
    Db(db.listings - {v}, db.shelf - {v}, db.orders, db.lines - Elements(cleared))
  }

  /** The effect of each kind of transaction, in full. */
  ghost predicate Effect(db: Db, txn: Txn, db': Db)
    requires Admissible(txn)
  {
    match txn
    case Checkout(o, u, items, deleted, shipping) =>
      && Placed(db, db', o, NewOrder(u, items, shipping, None), All(|items|))
      && Distinct(deleted) && OwnLines(db, deleted, u)
      && db'.lines == db.lines - Elements(deleted)
    case Import(o, u, items, taken, shipping, paidAt) =>
      && Placed(db, db', o, NewOrder(u, items, shipping, paidAt), taken)
      && db'.lines == db.lines
    case Cancel(o, items, at) => Moved(db, db', o, ToCancelled(at), items)
    case Refund(o, items, at, ref) => Moved(db, db', o, ToRefunded(at, ref), items)
    case MarkPaid(o, at, intent) => Moved(db, db', o, ToPaid(at, intent), []) && db'.shelf == db.shelf
    case Ship(o, at) => Moved(db, db', o, ToShipped(at), []) && db'.shelf == db.shelf
    case Deliver(o, at) => Moved(db, db', o, ToDelivered(at), []) && db'.shelf == db.shelf
    case SetQuantity(v, n) =>
      v in db.shelf && n >= 0 && db' == db.(shelf := db.shelf[v := db.shelf[v].(stock := n)])
    case AddVariant(v, n) =>
      && v !in db.listings && v !in db.shelf && n >= 0
      && db' == db.(listings := db.listings + {v}, shelf := db.shelf[v := Shelf(n, false)])
    case Archive(v, b) => v in db.shelf && db' == db.(shelf := db.shelf[v := db.shelf[v].(archived := b)])
    case RemoveVariant(v, cleared) =>
      && v in db.listings && v in db.shelf && !Sold(db, v)
      && Distinct(cleared) && LinesOn(db, cleared, v)
      && (forall l :: l in db.lines && db.lines[l].variant == v ==> l in cleared)
      && db' == Removed(db, v, cleared)
    case AddLine(l, entry) =>
      && entry.variant in db.listings && l !in db.lines && entry.quantity > 0
      && db' == db.(lines := db.lines[l := entry])
    case ChangeLine(l, u, n) =>
      && l in db.lines && db.lines[l].user == u && n > 0
      && db' == db.(lines := db.lines[l := db.lines[l].(quantity := n)])
    case DropLines(lines, u) =>
      Distinct(lines) && OwnLines(db, lines, u) && db' == db.(lines := db.lines - Elements(lines))
  }

  lemma PlaceEffect(db: Db, o: OrderId, row: Order, taken: seq<bool>)
    requires |row.items| == |taken|
    requires Perform(db, Places(o, row, taken)).Some?
    ensures var d := Perform(db, Places(o, row, taken)).value;
      Placed(db, d, o, row, taken) && d.lines == db.lines
  {
    var takes, reqs := Takes(row.items, taken), Requires(row.items);
    PerformSnoc(db, takes + reqs, InsertOrder(o, row));
    PerformConcat(db, takes, reqs);
    TakesEffect(db, row.items, taken);
    RequiresEffect(Perform(db, takes).value, row.items);
  }

  lemma MoveEffect(db: Db, o: OrderId, change: Change, items: seq<Item>)
    ensures Perform(db, [UpdateOrder(o, change)] + Restocks(items)).Some? ==>
      Moved(db, Perform(db, [UpdateOrder(o, change)] + Restocks(items)).value, o, change, items)
    ensures Perform(db, [UpdateOrder(o, change)] + Restocks(items)).Some? ==>
      o in db.orders && db.orders[o].status == From(change)
  {
    PerformConcat(db, [UpdateOrder(o, change)], Restocks(items));
    PerformOne(db, UpdateOrder(o, change));
    if Perform(db, [UpdateOrder(o, change)] + Restocks(items)).Some? {
      var d := Perform(db, [UpdateOrder(o, change)]).value;
      RestocksEffect(d, items);
      assert forall v :: Stock(d, v) == Stock(db, v);
    }
  }

  lemma CheckoutEffect(db: Db, txn: Txn)
    requires txn.Checkout? && Commits(db, txn)
    ensures Effect(db, txn, Apply(db, txn))
  {
    var row := NewOrder(txn.user, txn.items, txn.shippingCents, None);
    var taken := All(|txn.items|);
    PerformConcat(db, Deletes(txn.deleted, txn.user), Places(txn.order, row, taken));
    DeletesEffect(db, txn.deleted, txn.user);
    var d := db.(lines := db.lines - Elements(txn.deleted));
    PlaceEffect(d, txn.order, row, taken);
    PlacedAnyLines(d, Apply(db, txn), txn.order, row, taken, db);
  }

  /** `Placed` says nothing of the cart. */
  lemma {:induction false} PlacedAnyLines(db: Db, db': Db, o: OrderId, row: Order, taken: seq<bool>, other: Db)
    requires Placed(db, db', o, row, taken)
    requires other == db.(lines := other.lines)
    ensures Placed(other, db', o, row, taken)
  {
    assert forall v :: Stock(other, v) == Stock(db, v);
  }

  lemma {:induction false} TransitionEffect(db: Db, o: OrderId, change: Change)
    requires Perform(db, [UpdateOrder(o, change)]).Some?
    ensures var d := Perform(db, [UpdateOrder(o, change)]).value;
      Moved(db, d, o, change, []) && d.shelf == db.shelf
  {
    PerformOne(db, UpdateOrder(o, change));
  }

  lemma CatalogueEffect(db: Db, txn: Txn)
    requires txn.SetQuantity? || txn.AddVariant? || txn.Archive?
    requires Commits(db, txn)
    ensures Effect(db, txn, Apply(db, txn))
  {
    match txn
    case SetQuantity(v, n) => PerformOne(db, SetStock(v, n));
    case AddVariant(v, n) =>
      assert Program(txn) == [InsertListing(v)] + [InsertShelf(v, n)];
      PerformConcat(db, [InsertListing(v)], [InsertShelf(v, n)]);
      PerformOne(db, InsertListing(v));
      PerformOne(db.(listings := db.listings + {v}), InsertShelf(v, n));
    case Archive(v, b) => PerformOne(db, SetArchived(v, b));
  }

  /** A removal commits exactly on a listed variant nobody bought, with all the cart lines on it. */
  lemma RemovalCommitsIff(db: Db, v: VariantId, cleared: seq<LineId>)
    ensures Commits(db, RemoveVariant(v, cleared)) <==>
            && v in db.listings && v in db.shelf && !Sold(db, v)
            && Distinct(cleared) && LinesOn(db, cleared, v)
            && forall l :: l in db.lines && db.lines[l].variant == v ==> l in cleared
    ensures Commits(db, RemoveVariant(v, cleared)) ==> Apply(db, RemoveVariant(v, cleared)) == Removed(db, v, cleared)
  {
    var locks, clears, removes := [LockListing(v), LockShelf(v)], Clears(cleared, v), [RemoveListing(v), RemoveShelf(v)];
    PerformConcat(db, locks + clears, removes);
    PerformConcat(db, locks, clears);
    LocksPerform(db, v);
    hide Perform, ExecStmt;
    ClearsEffect(db, cleared, v);
    if Distinct(cleared) && LinesOn(db, cleared, v) {
      var d := db.(lines := db.lines - Elements(cleared));
      RemovesPerform(d, v);
      assert Sold(d, v) <==> Sold(db, v);
      AllCleared(db, v, cleared);
    }
  }

  lemma LocksPerform(db: Db, v: VariantId)
    ensures Perform(db, [LockListing(v), LockShelf(v)]) == if v in db.listings && v in db.shelf then Some(db) else None
  {
    hide Perform, Sold, InACart;
    assert [LockListing(v), LockShelf(v)] == [LockListing(v)] + [LockShelf(v)];
    PerformConcat(db, [LockListing(v)], [LockShelf(v)]);
    PerformOne(db, LockListing(v));
    PerformOne(db, LockShelf(v));
  }

  lemma AllCleared(db: Db, v: VariantId, cleared: seq<LineId>)
    ensures !InACart(db.(lines := db.lines - Elements(cleared)), v) <==>
            forall l :: l in db.lines && db.lines[l].variant == v ==> l in cleared
  {
    var d := db.(lines := db.lines - Elements(cleared));
    forall l ensures l in d.lines <==> l in db.lines && l !in cleared {}
    forall l | l in db.lines && db.lines[l].variant == v && l !in cleared ensures InACart(d, v) {
      assert l in d.lines;
    }
  }

  lemma RemovesPerform(db: Db, v: VariantId)
    ensures Perform(db, [RemoveListing(v), RemoveShelf(v)]) ==
            if v in db.listings && v in db.shelf && !Sold(db, v) && !InACart(db, v)
            then Some(db.(listings := db.listings - {v}, shelf := db.shelf - {v})) else None
  {
    hide Perform, Sold, InACart;
    assert [RemoveListing(v), RemoveShelf(v)] == [RemoveListing(v)] + [RemoveShelf(v)];
    PerformConcat(db, [RemoveListing(v)], [RemoveShelf(v)]);
    PerformOne(db, RemoveListing(v));
    PerformOne(db.(listings := db.listings - {v}), RemoveShelf(v));
  }

  lemma CartEffect(db: Db, txn: Txn)
    requires txn.AddLine? || txn.ChangeLine? || txn.DropLines?
    requires Commits(db, txn)
    ensures Effect(db, txn, Apply(db, txn))
  {
    match txn
    case AddLine(l, entry) =>
      assert Program(txn) == [RequireListing(entry.variant)] + [InsertLine(l, entry)];
      PerformConcat(db, [RequireListing(entry.variant)], [InsertLine(l, entry)]);
      PerformOne(db, RequireListing(entry.variant));
      PerformOne(db, InsertLine(l, entry));
    case ChangeLine(l, u, n) => PerformOne(db, SetLineQuantity(l, u, n));
    case DropLines(lines, u) => DeletesEffect(db, lines, u);
  }

  /** Reading the programs: what a transaction that commits has done. */
  lemma CommitEffect(db: Db, txn: Txn)
    requires Commits(db, txn)
    ensures Effect(db, txn, Apply(db, txn))
  {
    match txn
    case Checkout(_, _, _, _, _) => CheckoutEffect(db, txn);
    case Import(o, u, items, taken, shipping, paidAt) =>
      PlaceEffect(db, o, NewOrder(u, items, shipping, paidAt), taken);
    case Cancel(o, items, at) => MoveEffect(db, o, ToCancelled(at), items);
    case Refund(o, items, at, ref) => MoveEffect(db, o, ToRefunded(at, ref), items);
    case MarkPaid(o, at, intent) => TransitionEffect(db, o, ToPaid(at, intent));
    case Ship(o, at) => TransitionEffect(db, o, ToShipped(at));
    case Deliver(o, at) => TransitionEffect(db, o, ToDelivered(at));
    case SetQuantity(_, _) => CatalogueEffect(db, txn);
    case AddVariant(_, _) => CatalogueEffect(db, txn);
    case Archive(_, _) => CatalogueEffect(db, txn);
    case RemoveVariant(v, cleared) => RemovalCommitsIff(db, v, cleared);
    case AddLine(_, _) => CartEffect(db, txn);
    case ChangeLine(_, _, _) => CartEffect(db, txn);
    case DropLines(_, _) => CartEffect(db, txn);
  }

  /** The part of an effect that reaches the order table. */
  ghost predicate OrdersPart(db: Db, txn: Txn, db': Db) {
    match txn
    case Checkout(o, u, items, _, shipping) =>
      o !in db.orders && PassesChecks(NewOrder(u, items, shipping, None)) &&
      db'.orders == db.orders[o := NewOrder(u, items, shipping, None)]
    case Import(o, u, items, _, shipping, paidAt) =>
      o !in db.orders && PassesChecks(NewOrder(u, items, shipping, paidAt)) &&
      db'.orders == db.orders[o := NewOrder(u, items, shipping, paidAt)]
    case Cancel(o, _, at) => Transitioned(db, db', o, ToCancelled(at))
    case Refund(o, _, at, ref) => Transitioned(db, db', o, ToRefunded(at, ref))
    case MarkPaid(o, at, intent) => Transitioned(db, db', o, ToPaid(at, intent))
    case Ship(o, at) => Transitioned(db, db', o, ToShipped(at))
    case Deliver(o, at) => Transitioned(db, db', o, ToDelivered(at))
    case _ => db'.orders == db.orders
  }

  ghost predicate Transitioned(db: Db, db': Db, o: OrderId, change: Change) {
    o in db.orders && db.orders[o].status == From(change) && db'.orders == db.orders[o := Amend(db.orders[o], change)]
  }

  lemma ApplyOrders(db: Db, txn: Txn)
    ensures if Commits(db, txn) then OrdersPart(db, txn, Apply(db, txn)) else Apply(db, txn) == db
  {
    if Commits(db, txn) {
      OrdersOfEffect(db, txn);
    }
  }

  lemma OrdersOfEffect(db: Db, txn: Txn)
    requires Commits(db, txn)
    ensures OrdersPart(db, txn, Apply(db, txn))
  {
    CommitEffect(db, txn);
    hide Apply, Commits, PassesChecks;
  }

  lemma ApplyEffect(db: Db, txn: Txn)
    ensures if Commits(db, txn) then Effect(db, txn, Apply(db, txn)) else Apply(db, txn) == db
  {
    if Commits(db, txn) {
      CommitEffect(db, txn);
    }
  }
}
