/** When a checkout commits, and how many checkouts one cart can feed. */
module Checkouts {
  import opened Wrappers
  import opened Rows
  import opened Shop
  import opened Effects
  import opened Seqs
  import opened Lifecycle

  /** The shelf has this line: a live, unarchived variant with enough pieces. */
  predicate Covered(db: Db, item: Item) {
    item.quantity > 0 && item.variant in db.shelf && !db.shelf[item.variant].archived &&
    db.shelf[item.variant].stock >= item.quantity
  }

  predicate CoveredTwice(db: Db, item: Item) {
    Covered(db, item) && Covered(db, item.(quantity := 2 * item.quantity))
  }

  predicate DistinctVariants(items: seq<Item>) {
    forall i, j :: 0 <= i < j < |items| ==> items[i].variant != items[j].variant
  }

  lemma DecrementHitsIff(db: Db, item: Item)
    ensures ExecStmt(db, Decrement(item.variant, item.quantity, true)).1 == Hit <==> Covered(db, item)
  {
  }

  /** Taking lines of other variants leaves this one covered or not. */
  lemma StillCovered(db: Db, items: seq<Item>, item: Item)
    requires Perform(db, Takes(items, All(|items|))).Some?
    requires forall i :: 0 <= i < |items| ==> items[i].variant != item.variant
    ensures Covered(Perform(db, Takes(items, All(|items|))).value, item) == Covered(db, item)
  {
    var d := Perform(db, Takes(items, All(|items|))).value;
    TakesEffect(db, items, All(|items|));
    UntouchedVariant(items, All(|items|), item.variant);
    assert Stock(d, item.variant) == Stock(db, item.variant);
  }

  /** Lines of different variants do not compete: all decrements match exactly when each line is covered. */
  lemma {:induction false} TakesSucceedIff(db: Db, items: seq<Item>)
    requires DistinctVariants(items)
    ensures Perform(db, Takes(items, All(|items|))).Some? <==> forall i :: 0 <= i < |items| ==> Covered(db, items[i])
    decreases |items|
  {
    if items != [] {
      var k := |items| - 1;
      var init := items[..k];
      assert All(|items|)[..k] == All(k);
      assert Takes(items, All(|items|)) == Takes(init, All(k)) + [Decrement(items[k].variant, items[k].quantity, true)];
      TakesSucceedIff(db, init);
      PerformSnoc(db, Takes(init, All(k)), Decrement(items[k].variant, items[k].quantity, true));
      assert forall i :: 0 <= i < k ==> init[i] == items[i];
      if Perform(db, Takes(init, All(k))).Some? {
        DecrementHitsIff(Perform(db, Takes(init, All(k))).value, items[k]);
        StillCovered(db, init, items[k]);
      }
    }
    hide Perform, ExecStmt, Covered, Takes;
  }

  lemma {:induction false} UntouchedVariant(items: seq<Item>, taken: seq<bool>, v: VariantId)
    requires |items| == |taken| && forall i :: 0 <= i < |items| ==> items[i].variant != v
    ensures TakenUnits(items, taken, v) == 0
    decreases |items|
  {
    if items != [] {
      UntouchedVariant(items[..|items| - 1], taken[..|items| - 1], v);
    }
  }

  lemma PlacesSucceedIff(db: Db, o: OrderId, row: Order)
    requires db.listings == db.shelf.Keys && DistinctVariants(row.items)
    ensures Perform(db, Places(o, row, All(|row.items|))).Some? <==>
            && (forall i :: 0 <= i < |row.items| ==> Covered(db, row.items[i]))
            && o !in db.orders && PassesChecks(row)
  {
    var takes, reqs := Takes(row.items, All(|row.items|)), Requires(row.items);
    PerformSnoc(db, takes + reqs, InsertOrder(o, row));
    PerformConcat(db, takes, reqs);
    TakesSucceedIff(db, row.items);
    assert forall i :: 0 <= i < |row.items| && Covered(db, row.items[i]) ==> row.items[i].variant in db.listings;
    hide Perform, Covered, PassesChecks, Sold, InACart;
    if Perform(db, takes).Some? {
      TakenApart(db, row.items);
      RequiresEffect(Perform(db, takes).value, row.items);
    }
  }

  lemma TakenApart(db: Db, items: seq<Item>)
    requires Perform(db, Takes(items, All(|items|))).Some?
    ensures var d := Perform(db, Takes(items, All(|items|))).value;
      d.listings == db.listings && d.orders == db.orders && d.lines == db.lines
  {
    TakesEffect(db, items, All(|items|));
  }

  /**
   * A checkout commits exactly when it found as many cart lines as it had read, the shelf
   * covers every line, and the order it would insert passes the table's checks.
   */
  lemma CheckoutCommitsIff(db: Db, txn: Txn)
    requires txn.Checkout? && db.listings == db.shelf.Keys && DistinctVariants(txn.items)
    ensures Commits(db, txn) <==>
            && 0 < |txn.items| == |txn.deleted| && Distinct(txn.deleted) && OwnLines(db, txn.deleted, txn.user)
            && (forall i :: 0 <= i < |txn.items| ==> Covered(db, txn.items[i]))
            && txn.order !in db.orders && PassesChecks(NewOrder(txn.user, txn.items, txn.shippingCents, None))
  {
    if Admissible(txn) {
      var row := NewOrder(txn.user, txn.items, txn.shippingCents, None);
      var d := db.(lines := db.lines - Elements(txn.deleted));
      PerformConcat(db, Deletes(txn.deleted, txn.user), Places(txn.order, row, All(|txn.items|)));
      DeletesEffect(db, txn.deleted, txn.user);
      PlacesSucceedIff(d, txn.order, row);
      assert forall i :: 0 <= i < |txn.items| ==> (Covered(d, txn.items[i]) <==> Covered(db, txn.items[i]));
    }
  }

  // ---------- Double submit ----------

  ghost function LinesOf(db: Db, user: UserId): set<LineId> {
    set l | l in db.lines && db.lines[l].user == user
  }

  /** Orders created from `user`'s cart by checkouts that had read `n` lines. */
  ghost function OrdersOf(db: Db, log: seq<Txn>, user: UserId, n: nat): nat {
    if log == [] then 0
    else
      var init, txn := log[..|log| - 1], log[|log| - 1];
      OrdersOf(db, init, user, n) +
      (if IsOrderOf(txn, user, n) && Commits(ApplyAll(db, init), txn) then 1 else 0)
  }

  /** Lines put into `user`'s cart over the run. */
  ghost function LinesAdded(db: Db, log: seq<Txn>, user: UserId): nat {
    if log == [] then 0
    else
      var init, txn := log[..|log| - 1], log[|log| - 1];
      LinesAdded(db, init, user) +
      (if IsLineOf(txn, user) && Commits(ApplyAll(db, init), txn) then 1 else 0)
  }

  predicate IsOrderOf(txn: Txn, user: UserId, n: nat) {
    txn.Checkout? && txn.user == user && |txn.items| == n
  }

  predicate IsLineOf(txn: Txn, user: UserId) {
    txn.AddLine? && txn.entry.user == user
  }

  lemma RemovedLines(db: Db, db': Db, deleted: seq<LineId>, user: UserId, owner: UserId)
    requires Distinct(deleted) && OwnLines(db, deleted, owner) && db'.lines == db.lines - Elements(deleted)
    ensures |LinesOf(db', user)| + (if user == owner then |deleted| else 0) <= |LinesOf(db, user)|
  {
    if user == owner {
      DistinctSize(deleted);
      assert LinesOf(db', user) == LinesOf(db, user) - Elements(deleted);
      assert Elements(deleted) <= LinesOf(db, user);
    } else {
      SubsetSize(LinesOf(db', user), LinesOf(db, user));
    }
  }

  lemma AddedLine(db: Db, db': Db, l: LineId, entry: Line, user: UserId)
    requires l !in db.lines && db'.lines == db.lines[l := entry]
    ensures |LinesOf(db', user)| == |LinesOf(db, user)| + (if entry.user == user then 1 else 0)
  {
    assert LinesOf(db', user) == LinesOf(db, user) + (if entry.user == user then {l} else {});
    assert l !in LinesOf(db, user);
  }

  lemma KeptLines(db: Db, db': Db, user: UserId)
    requires db'.lines.Keys == db.lines.Keys && forall l :: l in db.lines ==> db'.lines[l].user == db.lines[l].user
    ensures LinesOf(db', user) == LinesOf(db, user)
  {
  }

  /** The part of `Effect` about cart lines. */
  ghost predicate CartEffectOnly(db: Db, txn: Txn, db': Db) {
    match txn
    case Checkout(_, owner, items, deleted, _) =>
      |items| == |deleted| && Distinct(deleted) && OwnLines(db, deleted, owner) && db'.lines == db.lines - Elements(deleted)
    case DropLines(deleted, owner) =>
      Distinct(deleted) && OwnLines(db, deleted, owner) && db'.lines == db.lines - Elements(deleted)
    case RemoveVariant(_, cleared) => db'.lines == db.lines - Elements(cleared)
    case AddLine(l, entry) => l !in db.lines && db'.lines == db.lines[l := entry]
    case _ => db'.lines.Keys == db.lines.Keys && forall l :: l in db.lines ==> db'.lines[l].user == db.lines[l].user
  }

  lemma ProjectCart(db: Db, txn: Txn, db': Db)
    requires Admissible(txn) && Effect(db, txn, db')
    ensures CartEffectOnly(db, txn, db')
  {
  }

  /** The lines of the user's cart that one transaction consumes or supplies. */
  lemma EffectOnCart(db: Db, txn: Txn, db': Db, user: UserId, n: nat)
    requires CartEffectOnly(db, txn, db')
    ensures |LinesOf(db', user)| + (if IsOrderOf(txn, user, n) then n else 0) <=
            |LinesOf(db, user)| + (if IsLineOf(txn, user) then 1 else 0)
  {
    match txn
    case Checkout(_, owner, _, deleted, _) => RemovedLines(db, db', deleted, user, owner);
    case DropLines(deleted, owner) => RemovedLines(db, db', deleted, user, owner);
    case RemoveVariant(_, _) => SubsetSize(LinesOf(db', user), LinesOf(db, user));
    case AddLine(l, entry) => AddedLine(db, db', l, entry, user);
    case _ => KeptLines(db, db', user);
  }

  lemma CartStep(db: Db, txn: Txn, user: UserId, n: nat)
    ensures |LinesOf(Apply(db, txn), user)| + (if IsOrderOf(txn, user, n) && Commits(db, txn) then n else 0) <=
            |LinesOf(db, user)| + (if IsLineOf(txn, user) && Commits(db, txn) then 1 else 0)
  {
    if Commits(db, txn) {
      CommitEffect(db, txn);
      ProjectCart(db, txn, Apply(db, txn));
      EffectOnCart(db, txn, Apply(db, txn), user, n);
    }
  }

  lemma Successor(n: nat, c: nat)
    ensures n * (c + 1) == n * c + n
  {
  }

  lemma {:induction false} AtLeastTwice(n: nat, c: nat)
    requires 2 <= c
    ensures 2 * n <= n * c
  {
    assert n * c == n * (c - 2) + n * 2;
  }

  /** Each checkout that read `n` lines used `n` lines up; they are never used twice. */
  lemma {:induction false} LinesPayForOrders(db: Db, log: seq<Txn>, user: UserId, n: nat)
    ensures n * OrdersOf(db, log, user, n) + |LinesOf(ApplyAll(db, log), user)| <=
            |LinesOf(db, user)| + LinesAdded(db, log, user)
    decreases |log|
  {
    hide Apply, Commits, LinesOf, IsOrderOf, IsLineOf;
    if log != [] {
      var init := log[..|log| - 1];
      LinesPayForOrders(db, init, user, n);
      CartStep(ApplyAll(db, init), log[|log| - 1], user, n);
      var before := OrdersOf(db, init, user, n);
      Successor(n, before);
      assert OrdersOf(db, log, user, n) == before || OrdersOf(db, log, user, n) == before + 1;
    }
  }

  /**
   * Double submit: of any number of checkouts that all read one cart of `n` lines, at
   * most one creates an order, as long as fewer than `n` lines are added meanwhile.
   */
  lemma OneOrderPerCart(db: Db, log: seq<Txn>, user: UserId, n: nat)
    requires 0 < n == |LinesOf(db, user)| && LinesAdded(db, log, user) < n
    ensures OrdersOf(db, log, user, n) <= 1
  {
    LinesPayForOrders(db, log, user, n);
    if 2 <= OrdersOf(db, log, user, n) {
      AtLeastTwice(n, OrdersOf(db, log, user, n));
    }
  }

  // ---------- Only the number of lines is compared ----------

  /**
   * Submitting the same items again after a checkout of them committed, whatever happened
   * since: it commits exactly when the cart again has that many lines, whichever they are,
   * the shelf still covers the items, and the order id is new.
   */
  lemma SecondSubmitIff(db: Db, first: Txn, log: seq<Txn>, second: Txn)
    requires ReferencesLive(db) && first.Checkout? && Commits(db, first) && DistinctVariants(first.items)
    requires second.Checkout? && second.user == first.user && second.items == first.items
    requires second.shippingCents == first.shippingCents
    requires var d := ApplyAll(Apply(db, first), log);
      Distinct(second.deleted) && Elements(second.deleted) == LinesOf(d, second.user)
    ensures var d := ApplyAll(Apply(db, first), log);
      Commits(d, second) <==>
        && |LinesOf(d, second.user)| == |second.items|
        && (forall i :: 0 <= i < |second.items| ==> Covered(d, second.items[i]))
        && second.order !in d.orders
  {
    var d := ApplyAll(Apply(db, first), log);
    ReferencesStayLive(db, first);
    ReferencesLiveInEveryRun(Apply(db, first), log);
    CheckoutCommitsIff(db, first);
    CheckoutCommitsIff(d, second);
    DistinctSize(second.deleted);
    assert NewOrder(second.user, second.items, second.shippingCents, None) ==
           NewOrder(first.user, first.items, first.shippingCents, None);
    forall l | l in second.deleted ensures l in LinesOf(d, second.user) {
      assert l in Elements(second.deleted);
    }
    hide Apply, Commits, PassesChecks, Covered, NewOrder, Sold;
  }

  lemma {:induction false} OwnUnits(items: seq<Item>, i: nat)
    requires DistinctVariants(items) && i < |items|
    ensures TakenUnits(items, All(|items|), items[i].variant) == items[i].quantity
    decreases |items|
  {
    var k := |items| - 1;
    assert All(|items|)[..k] == All(k);
    if i == k {
      UntouchedVariant(items[..k], All(k), items[k].variant);
    } else {
      OwnUnits(items[..k], i);
    }
  }

  lemma AddLineCommits(db: Db, l: LineId, entry: Line)
    requires entry.variant in db.listings && l !in db.lines && entry.quantity > 0
    ensures Commits(db, AddLine(l, entry)) && Apply(db, AddLine(l, entry)) == db.(lines := db.lines[l := entry])
  {
    assert Program(AddLine(l, entry)) == [RequireListing(entry.variant)] + [InsertLine(l, entry)];
    PerformConcat(db, [RequireListing(entry.variant)], [InsertLine(l, entry)]);
    PerformOne(db, RequireListing(entry.variant));
    PerformOne(db, InsertLine(l, entry));
  }

  /** The lines a cart is filled with again. */
  function Adds(added: seq<LineId>, entries: seq<Line>): (log: seq<Txn>)
    requires |added| == |entries|
    ensures |log| == |added|
  {
    if added == [] then []
    else
      var k := |added| - 1;
      Adds(added[..k], entries[..k]) + [AddLine(added[k], entries[k])]
  }

  predicate Addable(db: Db, user: UserId, added: seq<LineId>, entries: seq<Line>) {
    && |added| == |entries| && Distinct(added)
    && forall i :: 0 <= i < |added| ==>
         added[i] !in db.lines && entries[i].user == user && entries[i].variant in db.listings && entries[i].quantity > 0
  }

  /** Filling an emptied cart with `n` lines after a checkout: they are its lines, and nothing else moved. */
  lemma {:induction false} RefilledCart(db: Db, first: Txn, user: UserId, added: seq<LineId>, entries: seq<Line>, n: nat)
    requires first.Checkout? && Commits(db, first) && first.user == user && |first.items| == n
    requires LinesOf(Apply(db, first), user) == {} && Addable(Apply(db, first), user, added, entries)
    ensures var log, d1 := [first] + Adds(added, entries), Apply(db, first);
      var d := ApplyAll(db, log);
      && d == d1.(lines := d.lines) && d.lines.Keys == d1.lines.Keys + Elements(added)
      && LinesOf(d, user) == Elements(added)
      && LinesAdded(db, log, user) == |added| && OrdersOf(db, log, user, n) == 1
    decreases |added|
  {
    var log, d1 := [first] + Adds(added, entries), Apply(db, first);
    hide Apply, Commits, LinesOf, Adds, Addable, Elements;
    if added == [] {
      EmptyRefill(db, first, user, added, entries, n);
    } else {
      var k := |added| - 1;
      var init := [first] + Adds(added[..k], entries[..k]);
      var add := AddLine(added[k], entries[k]);
      AddableInit(d1, user, added, entries);
      RefilledCart(db, first, user, added[..k], entries[..k], n);
      assert log == init + [add];
      var before := ApplyAll(db, init);
      FreshLast(added, k);
      AddLineCommits(before, added[k], entries[k]);
      LogSnoc(db, init, add, user, n);
      hide ApplyAll, LinesAdded, OrdersOf;
      RefillStep(before, added[k], entries[k], user);
    }
  }

  lemma EmptyRefill(db: Db, first: Txn, user: UserId, added: seq<LineId>, entries: seq<Line>, n: nat)
    requires first.Checkout? && Commits(db, first) && first.user == user && |first.items| == n && added == [] && entries == []
    ensures var log := [first] + Adds(added, entries);
      && ApplyAll(db, log) == Apply(db, first) && Elements(added) == {}
      && LinesAdded(db, log, user) == 0 && OrdersOf(db, log, user, n) == 1
  {
    assert [first] + Adds(added, entries) == [] + [first];
    LogSnoc(db, [], first, user, n);
    hide Apply, Commits;
    assert ApplyAll(db, []) == db && LinesAdded(db, [], user) == 0 && OrdersOf(db, [], user, n) == 0;
  }

  lemma LogSnoc(db: Db, init: seq<Txn>, txn: Txn, user: UserId, n: nat)
    ensures var log, before := init + [txn], ApplyAll(db, init);
      && ApplyAll(db, log) == Apply(before, txn)
      && LinesAdded(db, log, user) == LinesAdded(db, init, user) + (if IsLineOf(txn, user) && Commits(before, txn) then 1 else 0)
      && OrdersOf(db, log, user, n) == OrdersOf(db, init, user, n) + (if IsOrderOf(txn, user, n) && Commits(before, txn) then 1 else 0)
  {
    hide Apply, Commits;
    assert (init + [txn])[..|init|] == init;
  }

  lemma AddableInit(db: Db, user: UserId, added: seq<LineId>, entries: seq<Line>)
    requires Addable(db, user, added, entries) && added != []
    ensures var k := |added| - 1;
      && Addable(db, user, added[..k], entries[..k])
      && added[k] !in db.lines && entries[k].user == user && entries[k].variant in db.listings && entries[k].quantity > 0
      && Distinct(added) && Adds(added, entries) == Adds(added[..k], entries[..k]) + [AddLine(added[k], entries[k])]
  {
  }

  lemma FreshLast(added: seq<LineId>, k: nat)
    requires Distinct(added) && |added| == k + 1
    ensures added[k] !in Elements(added[..k]) && Elements(added) == Elements(added[..k]) + {added[k]}
  {
    assert added == added[..k] + [added[k]];
  }

  lemma RefillStep(before: Db, l: LineId, entry: Line, user: UserId)
    requires entry.user == user && l !in before.lines
    ensures LinesOf(before.(lines := before.lines[l := entry]), user) == LinesOf(before, user) + {l}
  {
  }

  /**
   * The bound is reached by every cart: with `n` lines added after a checkout of `n` lines,
   * for whatever variants, a second submit of the same items creates a second order, as long
   * as the shelf covers the items twice. It sells what was read once and uses up lines that
   * may be for something else.
   */
  lemma {:induction false} AddedLinesFeedASecondOrder(db: Db, user: UserId, items: seq<Item>, shipping: int, lines: seq<LineId>,
                                   added: seq<LineId>, entries: seq<Line>, o1: OrderId, o2: OrderId)
    requires ReferencesLive(db) && DistinctVariants(items) && PassesChecks(NewOrder(user, items, shipping, None))
    requires Distinct(lines) && Elements(lines) == LinesOf(db, user) && |lines| == |items| > 0
    requires forall i :: 0 <= i < |items| ==> CoveredTwice(db, items[i])
    requires Addable(db, user, added, entries) && |added| == |items|
    requires o1 != o2 && o1 !in db.orders && o2 !in db.orders
    ensures var log := [Txn.Checkout(o1, user, items, lines, shipping)] + Adds(added, entries) +
                       [Txn.Checkout(o2, user, items, added, shipping)];
      && LinesAdded(db, log, user) == |items| && OrdersOf(db, log, user, |items|) == 2
      && o1 in ApplyAll(db, log).orders && o2 in ApplyAll(db, log).orders
      && ApplyAll(db, log).orders[o1].items == ApplyAll(db, log).orders[o2].items == items
  {
    hide Apply, Commits, PassesChecks, Adds, LinesOf, Elements, Covered, NewOrder, Sold, Addable;
    var n := |items|;
    var first, second := Txn.Checkout(o1, user, items, lines, shipping), Txn.Checkout(o2, user, items, added, shipping);
    FirstSubmit(db, first, lines);
    var d1 := Apply(db, first);
    StillAddable(db, d1, user, added, entries);
    RefilledCart(db, first, user, added, entries, n);
    var init := [first] + Adds(added, entries);
    var d := ApplyAll(db, init);
    CoveredApart(d1, d, items);
    FirstOfLog(db, first, Adds(added, entries));
    DistinctSize(added);
    SecondSubmitIff(db, first, Adds(added, entries), second);
    LogSnoc(db, init, second, user, n);
    CommitEffect(d, second);
    OrdersAfter(d, second);
    hide ApplyAll, LinesAdded, OrdersOf, Effect;
  }

  lemma StillAddable(db: Db, d: Db, user: UserId, added: seq<LineId>, entries: seq<Line>)
    requires Addable(db, user, added, entries) && d.lines.Keys <= db.lines.Keys && d.listings == db.listings
    ensures Addable(d, user, added, entries) && |added| == |entries| && Distinct(added)
  {
  }

  lemma CoveredApart(db: Db, d: Db, items: seq<Item>)
    requires d == db.(lines := d.lines)
    ensures forall i :: 0 <= i < |items| ==> Covered(d, items[i]) == Covered(db, items[i])
  {
  }

  lemma OrdersAfter(db: Db, txn: Txn)
    requires txn.Checkout? && Commits(db, txn)
    ensures Apply(db, txn).orders == db.orders[txn.order := NewOrder(txn.user, txn.items, txn.shippingCents, None)]
    ensures NewOrder(txn.user, txn.items, txn.shippingCents, None).items == txn.items
  {
    ApplyOrders(db, txn);
  }

  /** The first transaction of a log can be run on its own. */
  lemma {:induction false} FirstOfLog(db: Db, first: Txn, rest: seq<Txn>)
    ensures ApplyAll(db, [first] + rest) == ApplyAll(Apply(db, first), rest)
    decreases |rest|
  {
    hide Apply;
    if rest == [] {
      assert [first] + rest == [first] && [first][..0] == [];
      assert ApplyAll(db, []) == db;
    } else {
      var log := [first] + rest;
      assert log[..|log| - 1] == [first] + rest[..|rest| - 1];
      FirstOfLog(db, first, rest[..|rest| - 1]);
    }
  }

  lemma FirstSubmit(db: Db, first: Txn, lines: seq<LineId>)
    requires ReferencesLive(db) && first.Checkout? && first.deleted == lines && DistinctVariants(first.items)
    requires PassesChecks(NewOrder(first.user, first.items, first.shippingCents, None)) && first.order !in db.orders
    requires Distinct(lines) && Elements(lines) == LinesOf(db, first.user) && |lines| == |first.items| > 0
    requires forall i :: 0 <= i < |first.items| ==> Covered(db, first.items[i])
    ensures Commits(db, first)
    ensures var d := Apply(db, first);
      && LinesOf(d, first.user) == {} && d.lines.Keys <= db.lines.Keys && d.listings == db.listings
      && d.orders == db.orders[first.order := NewOrder(first.user, first.items, first.shippingCents, None)]
      && NewOrder(first.user, first.items, first.shippingCents, None).items == first.items
      && forall i :: 0 <= i < |first.items| && CoveredTwice(db, first.items[i]) ==> Covered(d, first.items[i])
  {
    forall l | l in lines ensures l in db.lines && db.lines[l].user == first.user {
      assert l in Elements(lines);
    }
    CheckoutCommitsIff(db, first);
    CommitEffect(db, first);
    var d := Apply(db, first);
    hide Apply, Commits, PassesChecks;
    forall i | 0 <= i < |first.items| && CoveredTwice(db, first.items[i])
      ensures Covered(d, first.items[i])
    {
      OwnUnits(first.items, i);
      assert Stock(d, first.items[i].variant) == Stock(db, first.items[i].variant) - first.items[i].quantity;
    }
  }
}
