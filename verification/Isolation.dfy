/**
 * Transactions interleaved statement by statement under Postgres' row locks (READ
 * COMMITTED). A statement that changes a row locks it to the end of its transaction;
 * one that misses locks nothing; an insert holds the keys it points at, shared. What any
 * interleaving commits, deletions of variants included, is what its committed
 * transactions do one after the other, in commit order.
 */
module Isolation {
  import opened Wrappers
  import opened Rows
  import opened Shop

  datatype Key = ListingKey(v: VariantId) | ShelfKey(v: VariantId) | OrderKey(o: OrderId) | LineKey(l: LineId)

  datatype Cell = Absent | Listed | ShelfCell(shelf: Shelf) | OrderCell(row: Order) | LineCell(line: Line)

  function KeyOf(s: Stmt): Key {
    match s
    case DeleteLine(l, _) => LineKey(l)
    case InsertLine(l, _) => LineKey(l)
    case SetLineQuantity(l, _, _) => LineKey(l)
    case Decrement(v, _, _) => ShelfKey(v)
    case Restock(v, _) => ShelfKey(v)
    case SetStock(v, _) => ShelfKey(v)
    case SetArchived(v, _) => ShelfKey(v)
    case InsertListing(v) => ListingKey(v)
    case InsertShelf(v, _) => ShelfKey(v)
    case RequireListing(v) => ListingKey(v)
    case LockListing(v) => ListingKey(v)
    case LockShelf(v) => ShelfKey(v)
    case ClearLine(l, _) => LineKey(l)
    case RemoveListing(v) => ListingKey(v)
    case RemoveShelf(v) => ShelfKey(v)
    case InsertOrder(o, _) => OrderKey(o)
    case UpdateOrder(o, _) => OrderKey(o)
  }

  /** FOR KEY SHARE: a foreign key check reads the referenced key and changes nothing. */
  predicate Shared(s: Stmt) {
    s.RequireListing?
  }

  function At(db: Db, k: Key): Cell {
    match k
    case ListingKey(v) => if v in db.listings then Listed else Absent
    case ShelfKey(v) => if v in db.shelf then ShelfCell(db.shelf[v]) else Absent
    case OrderKey(o) => if o in db.orders then OrderCell(db.orders[o]) else Absent
    case LineKey(l) => if l in db.lines then LineCell(db.lines[l]) else Absent
  }

  function Exclusive(stmts: seq<Stmt>): set<Key> {
    set i | 0 <= i < |stmts| && !Shared(stmts[i]) :: KeyOf(stmts[i])
  }

  function Locked(stmts: seq<Stmt>): set<Key> {
    set i | 0 <= i < |stmts| :: KeyOf(stmts[i])
  }

  /** `active` holds, for each open transaction, the statements that took effect so far. */
  datatype Machine = Machine(rows: Db, committed: Db, active: map<nat, seq<Stmt>>, log: seq<Txn>)

  datatype Step =
    | Begin(t: nat)
    | Issue(t: nat, s: Stmt)
    | Commit(t: nat, txn: Txn)
    | Abort(t: nat)

  /** Whether `s` gets its lock at once; otherwise it waits. */
  ghost predicate Grants(m: Machine, t: nat, s: Stmt) {
    forall u | u in m.active && u != t ::
      KeyOf(s) !in (if Shared(s) then Exclusive(m.active[u]) else Locked(m.active[u]))
  }

  /** An insert checks its foreign keys, and holds what it checked to the end. */
  predicate Backed(stmts: seq<Stmt>, s: Stmt) {
    match s
    case InsertOrder(_, row) => forall i :: 0 <= i < |row.items| ==> RequireListing(row.items[i].variant) in stmts
    case InsertLine(_, entry) => RequireListing(entry.variant) in stmts
    case _ => true
  }

  /** Deleting a variant waits for whoever still holds one of its cart lines. */
  ghost predicate Settled(m: Machine, t: nat, s: Stmt) {
    s.RemoveListing? ==>
      forall u, l | u in m.active && u != t && l in m.committed.lines && LineKey(l) in Exclusive(m.active[u]) ::
        m.committed.lines[l].variant != s.variant
  }

  ghost predicate Enabled(m: Machine, t: nat, s: Stmt)
    requires t in m.active
  {
    Grants(m, t, s) && Backed(m.active[t], s) && Settled(m, t, s)
  }

  /** `base` with the cells under `keys` taken from `source`: undoing one transaction's writes. */
  function Merge(base: Db, source: Db, keys: set<Key>): Db {
    Db((set v | v in base.listings && ListingKey(v) !in keys) + (set v | v in source.listings && ListingKey(v) in keys),
       map v | v in base.shelf.Keys + source.shelf.Keys && (if ShelfKey(v) in keys then v in source.shelf else v in base.shelf)
       :: if ShelfKey(v) in keys then source.shelf[v] else base.shelf[v],
       map o | o in base.orders.Keys + source.orders.Keys && (if OrderKey(o) in keys then o in source.orders else o in base.orders)
       :: if OrderKey(o) in keys then source.orders[o] else base.orders[o],
       map l | l in base.lines.Keys + source.lines.Keys && (if LineKey(l) in keys then l in source.lines else l in base.lines)
       :: if LineKey(l) in keys then source.lines[l] else base.lines[l])
  }

  function RollBack(m: Machine, t: nat): Machine
    requires t in m.active
  {
    m.(rows := Merge(m.rows, m.committed, Exclusive(m.active[t])), active := m.active - {t})
  }

  /** One step; a step that is not enabled leaves the machine as it is. */
  ghost function Next(m: Machine, step: Step): Machine {
    match step
    case Begin(t) => if t in m.active then m else m.(active := m.active[t := []])
    case Issue(t, s) =>
      if t !in m.active || !Enabled(m, t, s) then m
      else
        var (rows, outcome) := ExecStmt(m.rows, s);
        if outcome == Hit then m.(rows := rows, active := m.active[t := m.active[t] + [s]])
        else if outcome == Miss then m
        else RollBack(m, t)
    case Commit(t, txn) =>
      if t !in m.active || !Admissible(txn) || m.active[t] != Program(txn) then m
      else
        m.(committed := Merge(m.committed, m.rows, Exclusive(m.active[t])),
           active := m.active - {t}, log := m.log + [txn])
    case Abort(t) => if t in m.active then RollBack(m, t) else m
  }

  ghost function Run(m: Machine, steps: seq<Step>): Machine {
    if steps == [] then m else Next(Run(m, steps[..|steps| - 1]), steps[|steps| - 1])
  }

  function Start(db: Db): Machine {
    Machine(db, db, map[], [])
  }

  // ---------- Statements are local to their key ----------

  lemma Extensional(a: Db, b: Db)
    requires forall k :: At(a, k) == At(b, k)
    ensures a == b
  {
    forall v ensures v in a.listings <==> v in b.listings { assert At(a, ListingKey(v)) == At(b, ListingKey(v)); }
    forall v ensures (v in a.shelf <==> v in b.shelf) && (v in a.shelf ==> a.shelf[v] == b.shelf[v]) {
      assert At(a, ShelfKey(v)) == At(b, ShelfKey(v));
    }
    forall o ensures (o in a.orders <==> o in b.orders) && (o in a.orders ==> a.orders[o] == b.orders[o]) {
      assert At(a, OrderKey(o)) == At(b, OrderKey(o));
    }
    forall l ensures (l in a.lines <==> l in b.lines) && (l in a.lines ==> a.lines[l] == b.lines[l]) {
      assert At(a, LineKey(l)) == At(b, LineKey(l));
    }
    assert a.listings == b.listings && a.shelf == b.shelf && a.orders == b.orders && a.lines == b.lines;
  }

  lemma MergeAt(base: Db, source: Db, keys: set<Key>, k: Key)
    ensures At(Merge(base, source, keys), k) == At(if k in keys then source else base, k)
  {
  }

  lemma StmtFrame(db: Db, s: Stmt, k: Key)
    requires k != KeyOf(s) || Shared(s)
    ensures At(ExecStmt(db, s).0, k) == At(db, k)
  {
  }

  /** Something outside the variant's own row still points at it. */
  predicate Referenced(db: Db, v: VariantId) {
    Sold(db, v) || InACart(db, v)
  }

  lemma StmtLocal(a: Db, b: Db, s: Stmt)
    requires At(a, KeyOf(s)) == At(b, KeyOf(s))
    requires s.RemoveListing? ==> Referenced(a, s.variant) == Referenced(b, s.variant)
    ensures ExecStmt(a, s).1 == ExecStmt(b, s).1
    ensures At(ExecStmt(a, s).0, KeyOf(s)) == At(ExecStmt(b, s).0, KeyOf(s))
  {
  }

  lemma LocksSnoc(stmts: seq<Stmt>, s: Stmt)
    ensures Locked(stmts + [s]) == Locked(stmts) + {KeyOf(s)}
    ensures Exclusive(stmts + [s]) == Exclusive(stmts) + (if Shared(s) then {} else {KeyOf(s)})
    ensures Exclusive(stmts) <= Locked(stmts)
  {
    var all := stmts + [s];
    assert forall i :: 0 <= i < |stmts| ==> all[i] == stmts[i];
    assert all[|stmts|] == s;
  }

  /** Performing statements changes only the rows they lock. */
  lemma {:induction false} PerformFrame(db: Db, stmts: seq<Stmt>, k: Key)
    requires Perform(db, stmts).Some? && k !in Exclusive(stmts)
    ensures At(Perform(db, stmts).value, k) == At(db, k)
    decreases |stmts|
  {
    if stmts != [] {
      var init, s := stmts[..|stmts| - 1], stmts[|stmts| - 1];
      assert stmts == init + [s];
      LocksSnoc(init, s);
      PerformFrame(db, init, k);
      StmtFrame(Perform(db, init).value, s, k);
    }
  }

  /** Where `b` has an order item or a cart line pointing at a variant the statements delete, `a` has it too. */
  ghost predicate NoNewReferences(a: Db, b: Db, stmts: seq<Stmt>) {
    forall v | RemoveListing(v) in stmts ::
      && (forall o :: o in b.orders && OrderKey(o) !in Locked(stmts) && Names(b.orders[o], v) ==>
            o in a.orders && Names(a.orders[o], v))
      && (forall l :: l in b.lines && LineKey(l) !in Locked(stmts) && b.lines[l].variant == v ==>
            l in a.lines && a.lines[l].variant == v)
  }

  /** What is left unreferenced on one side is on the other. */
  lemma UnreferencedToo(a: Db, b: Db, init: seq<Stmt>, v: VariantId)
    requires Perform(a, init).Some? && Perform(b, init).Some?
    requires forall k :: k in Locked(init) ==> At(Perform(a, init).value, k) == At(Perform(b, init).value, k)
    requires NoNewReferences(a, b, init + [RemoveListing(v)])
    requires !Referenced(Perform(a, init).value, v)
    ensures !Referenced(Perform(b, init).value, v)
  {
    var a', b' := Perform(a, init).value, Perform(b, init).value;
    LocksSnoc(init, RemoveListing(v));
    assert RemoveListing(v) in init + [RemoveListing(v)];
    hide Perform;
    forall o | o in b'.orders ensures !Names(b'.orders[o], v) {
      if OrderKey(o) in Locked(init) {
        assert At(a', OrderKey(o)) == At(b', OrderKey(o));
      } else {
        PerformFrame(a, init, OrderKey(o));
        PerformFrame(b, init, OrderKey(o));
        assert At(b', OrderKey(o)) == At(b, OrderKey(o)) && At(a', OrderKey(o)) == At(a, OrderKey(o));
      }
    }
    forall l | l in b'.lines ensures b'.lines[l].variant != v {
      if LineKey(l) in Locked(init) {
        assert At(a', LineKey(l)) == At(b', LineKey(l));
      } else {
        PerformFrame(a, init, LineKey(l));
        PerformFrame(b, init, LineKey(l));
        assert At(b', LineKey(l)) == At(b, LineKey(l)) && At(a', LineKey(l)) == At(a, LineKey(l));
      }
    }
  }

  lemma NoNewReferencesInit(a: Db, b: Db, init: seq<Stmt>, s: Stmt)
    requires NoNewReferences(a, b, init + [s])
    requires forall k :: k in Locked(init + [s]) ==> At(a, k) == At(b, k)
    ensures NoNewReferences(a, b, init)
  {
    LocksSnoc(init, s);
    forall v | RemoveListing(v) in init
      ensures forall o :: o in b.orders && OrderKey(o) !in Locked(init) && Names(b.orders[o], v) ==>
                o in a.orders && Names(a.orders[o], v)
      ensures forall l :: l in b.lines && LineKey(l) !in Locked(init) && b.lines[l].variant == v ==>
                l in a.lines && a.lines[l].variant == v
    {
      assert RemoveListing(v) in init + [s];
      forall o | o in b.orders && OrderKey(o) !in Locked(init) && Names(b.orders[o], v)
        ensures o in a.orders && Names(a.orders[o], v)
      {
        if OrderKey(o) in Locked(init + [s]) { assert At(a, OrderKey(o)) == At(b, OrderKey(o)); }
      }
      forall l | l in b.lines && LineKey(l) !in Locked(init) && b.lines[l].variant == v
        ensures l in a.lines && a.lines[l].variant == v
      {
        if LineKey(l) in Locked(init + [s]) { assert At(a, LineKey(l)) == At(b, LineKey(l)); }
      }
    }
  }

  /** What statements do depends only on the rows they lock, and on who points at a variant they delete. */
  lemma {:induction false} PerformLocal(a: Db, b: Db, stmts: seq<Stmt>)
    requires forall k :: k in Locked(stmts) ==> At(a, k) == At(b, k)
    requires NoNewReferences(a, b, stmts)
    requires Perform(a, stmts).Some?
    ensures Perform(b, stmts).Some?
    ensures forall k :: k in Locked(stmts) ==> At(Perform(a, stmts).value, k) == At(Perform(b, stmts).value, k)
    decreases |stmts|
  {
    if stmts != [] {
      var init, s := stmts[..|stmts| - 1], stmts[|stmts| - 1];
      assert stmts == init + [s];
      LocksSnoc(init, s);
      NoNewReferencesInit(a, b, init, s);
      PerformLocal(a, b, init);
      PerformSnoc(a, init, s);
      PerformSnoc(b, init, s);
      hide Perform, ExecStmt, NoNewReferences, At, Locked, Sold, InACart;
      LocalStep(a, b, init, s);
    }
  }

  lemma LocalStep(a: Db, b: Db, init: seq<Stmt>, s: Stmt)
    requires Perform(a, init).Some? && Perform(b, init).Some?
    requires forall k :: k in Locked(init) ==> At(Perform(a, init).value, k) == At(Perform(b, init).value, k)
    requires forall k :: k in Locked(init + [s]) ==> At(a, k) == At(b, k)
    requires NoNewReferences(a, b, init + [s]) && ExecStmt(Perform(a, init).value, s).1 == Hit
    ensures var (a', b') := (Perform(a, init).value, Perform(b, init).value);
      ExecStmt(b', s).1 == Hit &&
      forall k :: k in Locked(init + [s]) ==> At(ExecStmt(a', s).0, k) == At(ExecStmt(b', s).0, k)
  {
    var a', b' := Perform(a, init).value, Perform(b, init).value;
    LocksSnoc(init, s);
    assert At(a', KeyOf(s)) == At(b', KeyOf(s)) by {
      if KeyOf(s) !in Locked(init) {
        PerformFrame(a, init, KeyOf(s));
        PerformFrame(b, init, KeyOf(s));
      }
    }
    if s.RemoveListing? {
      HitIsUnreferenced(a', s.variant);
      UnreferencedToo(a, b, init, s.variant);
    }
    hide Perform, NoNewReferences;
    StmtLocal(a', b', s);
    hide ExecStmt;
    forall k | k in Locked(init + [s]) ensures At(ExecStmt(a', s).0, k) == At(ExecStmt(b', s).0, k) {
      if k != KeyOf(s) {
        StmtFrame(a', s, k);
        StmtFrame(b', s, k);
      }
    }
  }

  lemma HitIsUnreferenced(db: Db, v: VariantId)
    ensures ExecStmt(db, RemoveListing(v)).1 == Hit <==> v in db.listings && !Referenced(db, v)
  {
  }

  // ---------- Where references come from ----------

  ghost predicate InsertsOrder(stmts: seq<Stmt>, items: seq<Item>) {
    exists i :: 0 <= i < |stmts| && stmts[i].InsertOrder? && stmts[i].row.items == items
  }

  ghost predicate InsertsLine(stmts: seq<Stmt>, v: VariantId) {
    exists i :: 0 <= i < |stmts| && stmts[i].InsertLine? && stmts[i].entry.variant == v
  }

  lemma InsertsSnoc(init: seq<Stmt>, s: Stmt, items: seq<Item>, v: VariantId)
    ensures InsertsOrder(init, items) || (s.InsertOrder? && s.row.items == items) ==> InsertsOrder(init + [s], items)
    ensures InsertsLine(init, v) || (s.InsertLine? && s.entry.variant == v) ==> InsertsLine(init + [s], v)
  {
    var stmts := init + [s];
    assert forall i :: 0 <= i < |init| ==> stmts[i] == init[i];
    assert stmts[|init|] == s;
  }

  lemma StmtReferences(d: Db, s: Stmt, o: OrderId, l: LineId)
    ensures var d' := ExecStmt(d, s).0;
      && (o in d.orders ==> o in d'.orders && d'.orders[o].items == d.orders[o].items)
      && (o in d'.orders && o !in d.orders ==> s.InsertOrder? && s.row.items == d'.orders[o].items)
      && (l in d'.lines ==> (l in d.lines && d.lines[l].variant == d'.lines[l].variant) ||
                            (s.InsertLine? && s.entry.variant == d'.lines[l].variant))
  {
    hide PassesChecks, Sold, InACart;
  }

  /** Orders never go, nor do their items change; a new one was inserted with its items. */
  lemma {:induction false} OrdersFrom(db: Db, stmts: seq<Stmt>, o: OrderId)
    requires Perform(db, stmts).Some?
    ensures var d := Perform(db, stmts).value;
      && (o in db.orders ==> o in d.orders && d.orders[o].items == db.orders[o].items)
      && (o in d.orders && o !in db.orders ==> InsertsOrder(stmts, d.orders[o].items))
    decreases |stmts|
  {
    if stmts != [] {
      var init, s := stmts[..|stmts| - 1], stmts[|stmts| - 1];
      assert stmts == init + [s];
      OrdersFrom(db, init, o);
      var d, d' := Perform(db, init).value, Perform(db, stmts).value;
      PerformSnoc(db, init, s);
      StmtReferences(d, s, o, 0);
      hide Perform, ExecStmt;
      if o in d'.orders { InsertsSnoc(init, s, d'.orders[o].items, 0); }
      hide InsertsOrder;
    }
  }

  /** A cart line pointing at a variant pointed at it before, or was inserted. */
  lemma {:induction false} LinesFrom(db: Db, stmts: seq<Stmt>, l: LineId)
    requires Perform(db, stmts).Some? && l in Perform(db, stmts).value.lines
    ensures var v := Perform(db, stmts).value.lines[l].variant;
      (l in db.lines && db.lines[l].variant == v) || InsertsLine(stmts, v)
    decreases |stmts|
  {
    if stmts != [] {
      var init, s := stmts[..|stmts| - 1], stmts[|stmts| - 1];
      assert stmts == init + [s];
      var d, d' := Perform(db, init).value, Perform(db, stmts).value;
      PerformSnoc(db, init, s);
      StmtReferences(d, s, 0, l);
      hide ExecStmt;
      if l in d.lines { LinesFrom(db, init, l); }
      InsertsSnoc(init, s, [], d'.lines[l].variant);
      hide Perform, InsertsLine;
    }
  }

  // ---------- The invariant of the interleaving ----------

  /** Open transactions never lock the same row, except to share it. */
  ghost predicate LocksApart(m: Machine) {
    forall t, u | t in m.active && u in m.active && t != u ::
      Exclusive(m.active[t]) !! Locked(m.active[u])
  }

  /** Replayed on the committed rows, an open transaction does what it has done to the shared ones. */
  ghost predicate Replays(m: Machine, t: nat)
    requires t in m.active
  {
    var r := Perform(m.committed, m.active[t]);
    r.Some? && forall k :: k in Exclusive(m.active[t]) ==> At(r.value, k) == At(m.rows, k)
  }

  ghost predicate Unowned(m: Machine, k: Key) {
    forall t :: t in m.active ==> k !in Exclusive(m.active[t])
  }

  /** Every insert of an open transaction holds the variants it points at. */
  ghost predicate AllBacked(m: Machine) {
    forall t, i :: t in m.active && 0 <= i < |m.active[t]| ==> Backed(m.active[t], m.active[t][i])
  }

  ghost predicate Consistent(m: Machine) {
    && LocksApart(m)
    && AllBacked(m)
    && (forall t :: t in m.active ==> Replays(m, t))
    && (forall k :: Unowned(m, k) ==> At(m.rows, k) == At(m.committed, k))
  }

  lemma HeldListing(stmts: seq<Stmt>, v: VariantId)
    ensures RequireListing(v) in stmts ==> ListingKey(v) in Locked(stmts)
    ensures RemoveListing(v) in stmts ==> ListingKey(v) in Exclusive(stmts)
  {
    if RequireListing(v) in stmts {
      var i :| 0 <= i < |stmts| && stmts[i] == RequireListing(v);
      assert KeyOf(stmts[i]) in Locked(stmts);
    }
    if RemoveListing(v) in stmts {
      var i :| 0 <= i < |stmts| && stmts[i] == RemoveListing(v);
      assert KeyOf(stmts[i]) in Exclusive(stmts);
    }
  }

  /** An open transaction that inserted a reference to `v` holds `v`. */
  lemma InserterHolds(m: Machine, u: nat, items: seq<Item>, v: VariantId)
    requires Consistent(m) && u in m.active
    ensures InsertsOrder(m.active[u], items) && (exists i :: 0 <= i < |items| && items[i].variant == v) ==>
              ListingKey(v) in Locked(m.active[u])
    ensures InsertsLine(m.active[u], v) ==> ListingKey(v) in Locked(m.active[u])
  {
    HeldListing(m.active[u], v);
    if InsertsOrder(m.active[u], items) && exists i :: 0 <= i < |items| && items[i].variant == v {
      var i :| 0 <= i < |m.active[u]| && m.active[u][i].InsertOrder? && m.active[u][i].row.items == items;
      assert Backed(m.active[u], m.active[u][i]);
    }
    if InsertsLine(m.active[u], v) {
      var i :| 0 <= i < |m.active[u]| && m.active[u][i].InsertLine? && m.active[u][i].entry.variant == v;
      assert Backed(m.active[u], m.active[u][i]);
    }
  }

  /** What `t` sees when its deletion of `v` goes through is what the committed rows will show it. */
  lemma SeesAllReferences(m: Machine, t: nat, v: VariantId)
    requires Consistent(m) && t in m.active && Enabled(m, t, RemoveListing(v)) && !Referenced(m.rows, v)
    ensures Perform(m.committed, m.active[t]).Some? && !Referenced(Perform(m.committed, m.active[t]).value, v)
  {
    assert Replays(m, t);
    var d := Perform(m.committed, m.active[t]).value;
    forall o | o in d.orders ensures !Names(d.orders[o], v) {
      OrderShows(m, t, o);
      assert o in m.rows.orders && !Names(m.rows.orders[o], v);
    }
    forall l | l in d.lines ensures d.lines[l].variant != v {
      if LineKey(l) in Exclusive(m.active[t]) {
        assert At(d, LineKey(l)) == At(m.rows, LineKey(l));
      } else {
        PerformFrame(m.committed, m.active[t], LineKey(l));
        assert At(d, LineKey(l)) == At(m.committed, LineKey(l));
        if Unowned(m, LineKey(l)) {
          assert At(m.rows, LineKey(l)) == At(m.committed, LineKey(l));
        }
      }
    }
  }

  /** An order `t` would see shows in the rows, with its items. */
  lemma OrderShows(m: Machine, t: nat, o: OrderId)
    requires Consistent(m) && t in m.active && Perform(m.committed, m.active[t]).Some?
    requires o in Perform(m.committed, m.active[t]).value.orders
    ensures o in m.rows.orders && m.rows.orders[o].items == Perform(m.committed, m.active[t]).value.orders[o].items
  {
    var d := Perform(m.committed, m.active[t]).value;
    assert Replays(m, t);
    if OrderKey(o) in Exclusive(m.active[t]) {
      assert At(d, OrderKey(o)) == At(m.rows, OrderKey(o));
    } else {
      PerformFrame(m.committed, m.active[t], OrderKey(o));
      assert At(d, OrderKey(o)) == At(m.committed, OrderKey(o));
      if u :| u in m.active && OrderKey(o) in Exclusive(m.active[u]) {
        assert Replays(m, u);
        OrdersFrom(m.committed, m.active[u], o);
        assert At(Perform(m.committed, m.active[u]).value, OrderKey(o)) == At(m.rows, OrderKey(o));
      } else {
        assert Unowned(m, OrderKey(o));
        assert At(m.rows, OrderKey(o)) == At(m.committed, OrderKey(o));
      }
    }
  }

  lemma BackedSnoc(done: seq<Stmt>, s: Stmt)
    requires Backed(done, s) && forall i :: 0 <= i < |done| ==> Backed(done, done[i])
    ensures forall i :: 0 <= i < |done + [s]| ==> Backed(done + [s], (done + [s])[i])
  {
    assert forall x :: x in done ==> x in done + [s];
    forall i | 0 <= i < |done + [s]| ensures Backed(done + [s], (done + [s])[i]) {
      assert Backed(done, (done + [s])[i]);
    }
  }

  lemma IssueHit(m: Machine, t: nat, s: Stmt)
    requires Consistent(m) && t in m.active && Enabled(m, t, s) && ExecStmt(m.rows, s).1 == Hit
    ensures Consistent(Next(m, Issue(t, s)))
  {
    var m' := Next(m, Issue(t, s));
    var done := m.active[t];
    LocksSnoc(done, s);
    forall u | u in m.active ensures Exclusive(m.active[u]) <= Locked(m.active[u]) { LocksSnoc(m.active[u], s); }
    var d := Perform(m.committed, done).value;
    assert At(d, KeyOf(s)) == At(m.rows, KeyOf(s)) by {
      if KeyOf(s) !in Exclusive(done) {
        PerformFrame(m.committed, done, KeyOf(s));
        assert Unowned(m, KeyOf(s));
      }
    }
    if s.RemoveListing? {
      HitIsUnreferenced(m.rows, s.variant);
      SeesAllReferences(m, t, s.variant);
    }
    StmtLocal(d, m.rows, s);
    PerformSnoc(m.committed, done, s);
    BackedSnoc(done, s);
    hide Perform, ExecStmt, At, Backed, Referenced, Sold, InACart, Settled;
    assert AllBacked(m');
    forall u | u in m'.active ensures Replays(m', u) {
      forall k | k in Exclusive(m'.active[u])
        ensures At(Perform(m.committed, m'.active[u]).value, k) == At(m'.rows, k)
      {
        if u != t {
          StmtFrame(m.rows, s, k);
        } else if k != KeyOf(s) || Shared(s) {
          StmtFrame(m.rows, s, k);
          StmtFrame(d, s, k);
        }
      }
    }
    forall k | Unowned(m', k) ensures At(m'.rows, k) == At(m'.committed, k) {
      assert k !in Exclusive(m'.active[t]);
      forall u | u in m.active ensures k !in Exclusive(m.active[u]) { assert u in m'.active; }
      assert Unowned(m, k);
      StmtFrame(m.rows, s, k);
    }
  }

  lemma {:induction false} RollBackConsistent(m: Machine, t: nat)
    requires Consistent(m) && t in m.active
    ensures Consistent(RollBack(m, t))
  {
    var m' := RollBack(m, t);
    var mine := Exclusive(m.active[t]);
    forall u | u in m'.active ensures Replays(m', u) {
      assert Replays(m, u);
      LocksSnoc(m.active[u], RequireListing(0));
      forall k | k in Exclusive(m.active[u])
        ensures At(Perform(m.committed, m.active[u]).value, k) == At(m'.rows, k)
      {
        MergeAt(m.rows, m.committed, mine, k);
      }
    }
    forall k | Unowned(m', k) ensures At(m'.rows, k) == At(m'.committed, k) {
      MergeAt(m.rows, m.committed, mine, k);
      if k !in mine {
        forall u | u in m.active ensures k !in Exclusive(m.active[u]) { assert u == t || u in m'.active; }
        assert Unowned(m, k);
      }
    }
  }

  /** The heart of the matter: committing publishes exactly what the transaction does on its own. */
  lemma CommitIsAtomic(m: Machine, t: nat, txn: Txn)
    requires Consistent(m) && t in m.active && Admissible(txn) && m.active[t] == Program(txn)
    ensures Commits(m.committed, txn)
    ensures Next(m, Commit(t, txn)).committed == Apply(m.committed, txn)
  {
    var mine := Exclusive(m.active[t]);
    var d := Perform(m.committed, m.active[t]).value;
    assert Replays(m, t);
    var published := Merge(m.committed, m.rows, mine);
    forall k ensures At(published, k) == At(d, k) {
      MergeAt(m.committed, m.rows, mine, k);
      if k !in mine {
        PerformFrame(m.committed, m.active[t], k);
      }
    }
    Extensional(published, d);
  }

  /** Committing `t` brings the others no reference to a variant they are deleting. */
  lemma CommitBringsNoReference(m: Machine, t: nat, u: nat, v: VariantId)
    requires Consistent(m) && t in m.active && u in m.active && t != u && RemoveListing(v) in m.active[u]
    ensures forall o :: OrderKey(o) in Exclusive(m.active[t]) && o in m.rows.orders && Names(m.rows.orders[o], v) ==>
              o in m.committed.orders && Names(m.committed.orders[o], v)
    ensures forall l :: LineKey(l) in Exclusive(m.active[t]) && l in m.rows.lines && m.rows.lines[l].variant == v ==>
              l in m.committed.lines && m.committed.lines[l].variant == v
  {
    assert Replays(m, t) && Replays(m, u);
    var r := Perform(m.committed, m.active[t]).value;
    HeldListing(m.active[u], v);
    assert ListingKey(v) !in Locked(m.active[t]);
    forall o | OrderKey(o) in Exclusive(m.active[t]) && o in m.rows.orders && Names(m.rows.orders[o], v)
      ensures o in m.committed.orders && Names(m.committed.orders[o], v)
    {
      assert At(r, OrderKey(o)) == At(m.rows, OrderKey(o));
      OrdersFrom(m.committed, m.active[t], o);
      InserterHolds(m, t, r.orders[o].items, v);
    }
    forall l | LineKey(l) in Exclusive(m.active[t]) && l in m.rows.lines && m.rows.lines[l].variant == v
      ensures l in m.committed.lines && m.committed.lines[l].variant == v
    {
      assert At(r, LineKey(l)) == At(m.rows, LineKey(l));
      LinesFrom(m.committed, m.active[t], l);
      InserterHolds(m, t, [], v);
    }
  }

  lemma OthersReplay(m: Machine, t: nat, published: Db, u: nat)
    requires Consistent(m) && t in m.active && u in m.active && t != u
    requires published == Merge(m.committed, m.rows, Exclusive(m.active[t]))
    ensures var r := Perform(published, m.active[u]);
      r.Some? && forall k :: k in Exclusive(m.active[u]) ==> At(r.value, k) == At(m.rows, k)
  {
    var mine := Exclusive(m.active[t]);
    assert Replays(m, u);
    LocksSnoc(m.active[u], RequireListing(0));
    forall k | k in Locked(m.active[u]) ensures At(m.committed, k) == At(published, k) {
      MergeAt(m.committed, m.rows, mine, k);
    }
    forall v | RemoveListing(v) in m.active[u]
      ensures forall o :: o in published.orders && OrderKey(o) !in Locked(m.active[u]) && Names(published.orders[o], v) ==>
                o in m.committed.orders && Names(m.committed.orders[o], v)
      ensures forall l :: l in published.lines && LineKey(l) !in Locked(m.active[u]) && published.lines[l].variant == v ==>
                l in m.committed.lines && m.committed.lines[l].variant == v
    {
      CommitBringsNoReference(m, t, u, v);
      hide Perform;
      forall o | o in published.orders && Names(published.orders[o], v) ensures o in m.committed.orders && Names(m.committed.orders[o], v) {
        MergeAt(m.committed, m.rows, mine, OrderKey(o));
      }
      forall l | l in published.lines && published.lines[l].variant == v ensures l in m.committed.lines && m.committed.lines[l].variant == v {
        MergeAt(m.committed, m.rows, mine, LineKey(l));
      }
    }
    PerformLocal(m.committed, published, m.active[u]);
  }

  lemma CommitConsistent(m: Machine, t: nat, txn: Txn)
    requires Consistent(m) && t in m.active && Admissible(txn) && m.active[t] == Program(txn)
    ensures Consistent(Next(m, Commit(t, txn)))
  {
    var m' := Next(m, Commit(t, txn));
    var mine := Exclusive(m.active[t]);
    forall u | u in m'.active ensures Replays(m', u) {
      OthersReplay(m, t, m'.committed, u);
    }
    hide Perform, Backed;
    forall k | Unowned(m', k) ensures At(m'.rows, k) == At(m'.committed, k) {
      MergeAt(m.committed, m.rows, mine, k);
      if k !in mine {
        forall u | u in m.active ensures k !in Exclusive(m.active[u]) { assert u == t || u in m'.active; }
        assert Unowned(m, k);
      }
    }
  }

  lemma StepConsistent(m: Machine, step: Step)
    requires Consistent(m)
    ensures Consistent(Next(m, step))
  {
    match step
    case Begin(t) =>
      if t !in m.active {
        var m' := Next(m, step);
        assert Exclusive([]) == {} && Locked([]) == {};
        forall u | u in m'.active ensures Replays(m', u) {
          if u != t { assert Replays(m, u); }
        }
        forall k | Unowned(m', k) ensures At(m'.rows, k) == At(m'.committed, k) {
          forall u | u in m.active ensures k !in Exclusive(m.active[u]) { assert u in m'.active; }
          assert Unowned(m, k);
        }
      }
    case Issue(t, s) =>
      if t in m.active && Enabled(m, t, s) {
        if ExecStmt(m.rows, s).1 == Hit {
          IssueHit(m, t, s);
        } else if ExecStmt(m.rows, s).1 == Error {
          RollBackConsistent(m, t);
        }
      }
    case Commit(t, txn) =>
      if t in m.active && Admissible(txn) && m.active[t] == Program(txn) {
        CommitConsistent(m, t, txn);
      }
    case Abort(t) =>
      if t in m.active {
        RollBackConsistent(m, t);
      }
  }

  /** Every transaction of the log commits when its turn comes. */
  ghost predicate EachCommits(db: Db, log: seq<Txn>) {
    forall i :: 0 <= i < |log| ==> Commits(ApplyAll(db, log[..i]), log[i])
  }

  lemma {:induction false} EachCommitsSnoc(db: Db, log: seq<Txn>, txn: Txn)
    requires EachCommits(db, log) && Commits(ApplyAll(db, log), txn)
    ensures EachCommits(db, log + [txn]) && ApplyAll(db, log + [txn]) == Apply(ApplyAll(db, log), txn)
  {
    hide Commits, Apply;
    var log' := log + [txn];
    assert log'[..|log'| - 1] == log;
    forall i | 0 <= i < |log'| ensures Commits(ApplyAll(db, log'[..i]), log'[i]) {
      if i < |log| { assert log'[..i] == log[..i] && log'[i] == log[i]; } else { assert log'[..i] == log; }
    }
  }

  /**
   * Serializability: after any interleaving of any transactions' statements, commits
   * and aborts, the committed database is the serial run of the commit log, every
   * entry of which commits in that serial run too.
   */
  lemma {:induction false} InterleavingIsSerial(db: Db, steps: seq<Step>)
    ensures Consistent(Run(Start(db), steps))
    ensures Run(Start(db), steps).committed == ApplyAll(db, Run(Start(db), steps).log)
    ensures EachCommits(db, Run(Start(db), steps).log)
    decreases |steps|
  {
    if steps != [] {
      var init, step := steps[..|steps| - 1], steps[|steps| - 1];
      InterleavingIsSerial(db, init);
      var m := Run(Start(db), init);
      StepConsistent(m, step);
      hide Consistent, Commits, Apply, Perform, EachCommits;
      if step.Commit? && step.t in m.active && Admissible(step.txn) && m.active[step.t] == Program(step.txn) {
        CommitIsAtomic(m, step.t, step.txn);
        EachCommitsSnoc(db, m.log, step.txn);
      }
    }
  }

  /** Once nothing is open, the rows themselves are that serial run: no half-done transaction shows. */
  lemma QuietMeansCommitted(db: Db, steps: seq<Step>)
    requires Run(Start(db), steps).active == map[]
    ensures Run(Start(db), steps).rows == ApplyAll(db, Run(Start(db), steps).log)
  {
    InterleavingIsSerial(db, steps);
    var m := Run(Start(db), steps);
    forall k ensures At(m.rows, k) == At(m.committed, k) {
      assert Unowned(m, k);
    }
    Extensional(m.rows, m.committed);
  }

  // ---------- A transaction nobody disturbs ----------

  /** The statements of one transaction, issued one after the other. */
  function IssueAll(t: nat, stmts: seq<Stmt>): (r: seq<Step>)
    ensures |r| == |stmts|
  {
    seq(|stmts|, i requires 0 <= i < |stmts| => Issue(t, stmts[i]))
  }

  ghost predicate AlwaysBacked(stmts: seq<Stmt>) {
    forall i :: 0 <= i < |stmts| ==> Backed(stmts[..i], stmts[i])
  }

  /** With no other open, none waits: each takes effect on the rows the ones before it left. */
  lemma {:induction false} IssuesAlone(m: Machine, t: nat, stmts: seq<Stmt>)
    requires m.active == map[t := []] && AlwaysBacked(stmts) && Perform(m.rows, stmts).Some?
    ensures Run(m, IssueAll(t, stmts)) == m.(rows := Perform(m.rows, stmts).value, active := map[t := stmts])
    decreases |stmts|
  {
    if stmts == [] {
      assert IssueAll(t, stmts) == [];
    } else {
      var k := |stmts| - 1;
      var init, steps := stmts[..k], IssueAll(t, stmts);
      assert AlwaysBacked(init) by {
        forall i | 0 <= i < |init| ensures Backed(init[..i], init[i]) { assert init[..i] == stmts[..i]; }
      }
      IssuesAlone(m, t, init);
      assert steps[..k] == IssueAll(t, init);
      var m1 := m.(rows := Perform(m.rows, init).value, active := map[t := init]);
      assert init + [stmts[k]] == stmts;
      hide Perform, ExecStmt, Backed;
      assert Enabled(m1, t, stmts[k]);
      LastIssue(m1, t, init, stmts[k]);
      PerformSnocIs(m.rows, stmts);
    }
  }

  lemma PerformSnocIs(db: Db, stmts: seq<Stmt>)
    requires stmts != [] && Perform(db, stmts).Some?
    ensures var init, last := stmts[..|stmts| - 1], stmts[|stmts| - 1];
      Perform(db, init).Some? && ExecStmt(Perform(db, init).value, last).1 == Hit &&
      Perform(db, stmts).value == ExecStmt(Perform(db, init).value, last).0
  {
  }

  lemma LastIssue(m: Machine, t: nat, init: seq<Stmt>, s: Stmt)
    requires m.active == map[t := init] && Enabled(m, t, s) && ExecStmt(m.rows, s).1 == Hit
    ensures Next(m, Issue(t, s)) == m.(rows := ExecStmt(m.rows, s).0, active := map[t := init + [s]])
  {
    hide Enabled, ExecStmt;
  }

  /** Every transaction of the shop checks a foreign key before it inserts behind it. */
  lemma ProgramsAreBacked(txn: Txn)
    requires Admissible(txn)
    ensures AlwaysBacked(Program(txn))
  {
    match txn {
      case Checkout(o, u, items, deleted, shipping) =>
        PlacesAreBacked(Deletes(deleted, u), o, NewOrder(u, items, shipping, None), All(|items|));
      case Import(o, u, items, taken, shipping, paidAt) =>
        PlacesAreBacked([], o, NewOrder(u, items, shipping, paidAt), taken);
        assert [] + Places(o, NewOrder(u, items, shipping, paidAt), taken) == Places(o, NewOrder(u, items, shipping, paidAt), taken);
      case AddLine(l, entry) =>
        var p := Program(txn);
        assert p[..1] == [p[0]] && p[0] in p[..1];
      case _ =>
    }
  }

  lemma {:induction false} TakesOnly(items: seq<Item>, taken: seq<bool>)
    requires |items| == |taken|
    ensures forall s :: s in Takes(items, taken) ==> s.Decrement?
    decreases |items|
  {
    if items != [] { TakesOnly(items[..|items| - 1], taken[..|items| - 1]); }
  }

  lemma PlacesAreBacked(before: seq<Stmt>, o: OrderId, row: Order, taken: seq<bool>)
    requires |row.items| == |taken| && forall s :: s in before ==> s.DeleteLine?
    ensures AlwaysBacked(before + Places(o, row, taken))
  {
    TakesOnly(row.items, taken);
    var takes, reqs := Takes(row.items, taken), Requires(row.items);
    var all := before + Places(o, row, taken);
    var last := |all| - 1;
    assert all == before + takes + reqs + [InsertOrder(o, row)];
    assert all[..last] == before + takes + reqs;
    hide Takes;
    forall i | 0 <= i < |row.items| ensures RequireListing(row.items[i].variant) in all[..last] {
      assert reqs[i] in reqs;
    }
    forall i | 0 <= i < last ensures Backed(all[..i], all[i]) {
      assert all[i] in before || all[i] in takes || all[i] in reqs;
    }
  }

  lemma OpenAloneIsConsistent(m: Machine, t: nat, stmts: seq<Stmt>)
    requires Perform(m.committed, stmts).Some? && m.rows == Perform(m.committed, stmts).value && m.active == map[t := stmts]
    requires AlwaysBacked(stmts)
    ensures Consistent(m)
  {
    forall i | 0 <= i < |stmts| ensures Backed(stmts, stmts[i]) {
      assert forall s :: s in stmts[..i] ==> s in stmts;
    }
    forall k | Unowned(m, k) ensures At(m.rows, k) == At(m.committed, k) {
      assert t in m.active && k !in Exclusive(m.active[t]);
      PerformFrame(m.committed, stmts, k);
    }
  }

  /** After any run with nothing open, a transaction nobody disturbs commits whenever it can, and leaves just what it does. */
  lemma UndisturbedCommits(db: Db, steps: seq<Step>, t: nat, txn: Txn)
    requires Run(Start(db), steps).active == map[] && Commits(Run(Start(db), steps).committed, txn)
    ensures var m := Run(Start(db), steps);
      Next(Run(Next(m, Begin(t)), IssueAll(t, Program(txn))), Commit(t, txn)) ==
      Machine(Apply(m.committed, txn), Apply(m.committed, txn), map[], m.log + [txn])
  {
    var m := Run(Start(db), steps);
    QuietMeansCommitted(db, steps);
    InterleavingIsSerial(db, steps);
    assert m.rows == m.committed;
    hide Run, ApplyAll, Consistent, EachCommits;
    var begun := Next(m, Begin(t));
    assert begun == m.(active := map[t := []]);
    ProgramsAreBacked(txn);
    IssuesAlone(begun, t, Program(txn));
    var open := m.(rows := Perform(m.committed, Program(txn)).value, active := map[t := Program(txn)]);
    OpenAloneIsConsistent(open, t, Program(txn));
    CommitIsAtomic(open, t, txn);
    hide Perform, Program, AlwaysBacked;
    assert open.active - {t} == map[];
  }
}
