/**
 * Removing a size while carts, checkouts and other removals go on. A removal is a
 * transaction of several statements: it locks the product's variants, counts the cart
 * lines, deletes them, deletes the variant. Inserting a cart line or an order item
 * takes FOR KEY SHARE on its variant and so waits for that lock; deleting a cart line
 * does not. A checkout commits only when none of its variants is locked, since its
 * decrements wait for them too: it is one step here.
 */
module VariantRemoval {
  import opened Wrappers
  import opened Seqs

  type VariantId = nat
  type ProductId = nat
  type LineId = nat
  type RemovalId = nat

  /** The two halves of the confirmation. */
  datatype Confirmation = Confirmation(discard: bool, expected: Option<nat>)

  predicate Whole(c: Confirmation) {
    c.discard <==> c.expected.Some?
  }

  /** Wall 3, against a count taken under the lock. */
  predicate Reviewed(c: Confirmation, count: nat) {
    if c.discard then c.expected == Some(count) else count == 0
  }

  datatype Outcome =
    | NotWhole
    | NotFound
    | Sold
    | LastVariant
    | Unreviewed(count: nat)
    | Aborted
    | Removed(counted: set<LineId>, deleted: set<LineId>)

  datatype Phase =
    | Waiting
    | Locked(held: set<VariantId>)
    | Counted(held: set<VariantId>, counted: set<LineId>)
    | Emptied(held: set<VariantId>, counted: set<LineId>, doomed: set<LineId>)
    | Finished(outcome: Outcome)

  datatype Removal = Removal(product: ProductId, variant: VariantId, confirmation: Confirmation, phase: Phase)

  /** Committed rows; a removal's own deletions show at its commit. `sold` are the variants order items point at. */
  datatype World = World(
    products: set<ProductId>,
    variants: map<VariantId, ProductId>,
    lines: map<LineId, VariantId>,
    sold: set<VariantId>,
    removals: map<RemovalId, Removal>)

  datatype Step =
    | NewProduct(p: ProductId, rows: set<VariantId>)
    | AddVariant(p: ProductId, v: VariantId)
    | AddLine(l: LineId, v: VariantId)
    | DropLine(l: LineId)
    | Checkout(drops: set<LineId>, items: set<VariantId>)
    | Request(r: RemovalId, p: ProductId, v: VariantId, confirmation: Confirmation)
    | Lock(r: RemovalId, seen: set<VariantId>)
    | Count(r: RemovalId)
    | Empty(r: RemovalId)
    | Commit(r: RemovalId)
    | Abort(r: RemovalId)

  function LinesOf(w: World, v: VariantId): set<LineId> {
    set l | l in w.lines && w.lines[l] == v
  }

  function RowsOf(w: World, p: ProductId): set<VariantId> {
    set v | v in w.variants && w.variants[v] == p
  }

  predicate InTransaction(phase: Phase) {
    phase.Locked? || phase.Counted? || phase.Emptied?
  }

  /** The variant rows a removal has locked. */
  function Held(removal: Removal): set<VariantId> {
    if InTransaction(removal.phase) then removal.phase.held else {}
  }

  /** The cart lines whose deletion waits for the removal's commit. */
  function Doomed(removal: Removal): set<LineId> {
    if removal.phase.Emptied? then removal.phase.doomed else {}
  }

  predicate IsLocked(w: World, v: VariantId) {
    exists r :: r in w.removals && v in Held(w.removals[r])
  }

  predicate IsDoomed(w: World, l: LineId) {
    exists r :: r in w.removals && l in Doomed(w.removals[r])
  }

  function To(w: World, r: RemovalId, phase: Phase): World
    requires r in w.removals
  {
    w.(removals := w.removals[r := w.removals[r].(phase := phase)])
  }

  function Next(w: World, step: Step): World {
    match step
    case NewProduct(p, rows) =>
      if p in w.products || rows == {} || rows * w.variants.Keys != {} then w
      else w.(products := w.products + {p}, variants := w.variants + (map v | v in rows :: p))
    case AddVariant(p, v) =>
      if p !in w.products || v in w.variants then w else w.(variants := w.variants[v := p])
    case AddLine(l, v) =>
      if l in w.lines || v !in w.variants || IsLocked(w, v) then w else w.(lines := w.lines[l := v])
    case DropLine(l) => if IsDoomed(w, l) then w else w.(lines := w.lines - {l})
    case Checkout(drops, items) =>
      if !(items <= w.variants.Keys) || (exists v :: v in items && IsLocked(w, v)) || (exists l :: l in drops && IsDoomed(w, l)) then w
      else w.(lines := w.lines - drops, sold := w.sold + items)
    case Request(r, p, v, confirmation) =>
      if r in w.removals then w
      else
        var phase :=
          if !Whole(confirmation) then Finished(NotWhole)
          else if v !in w.variants || w.variants[v] != p then Finished(NotFound)
          else if v in w.sold then Finished(Sold)
          else Waiting;
        w.(removals := w.removals[r := Removal(p, v, confirmation, phase)])
    case Lock(r, seen) =>
      if r !in w.removals || !w.removals[r].phase.Waiting? then w
      else if exists v :: v in seen && (v !in w.variants || w.variants[v] != w.removals[r].product || IsLocked(w, v)) then w
      else if |seen| <= 1 then To(w, r, Finished(LastVariant))
      else if w.removals[r].variant !in seen then To(w, r, Finished(NotFound))
      else To(w, r, Locked(seen))
    case Count(r) =>
      if r !in w.removals || !w.removals[r].phase.Locked? then w
      else
        var removal := w.removals[r];
        var counted := LinesOf(w, removal.variant);
        To(w, r, if Reviewed(removal.confirmation, |counted|) then Counted(removal.phase.held, counted)
                 else Finished(Unreviewed(|counted|)))
    case Empty(r) =>
      if r !in w.removals || !w.removals[r].phase.Counted? then w
      else To(w, r, Emptied(w.removals[r].phase.held, w.removals[r].phase.counted, LinesOf(w, w.removals[r].variant)))
    case Commit(r) =>
      if r !in w.removals || !w.removals[r].phase.Emptied? then w
      else
        var removal := w.removals[r];
        if removal.variant in w.sold then To(w, r, Finished(Sold))
        else
          To(w, r, Finished(Removed(removal.phase.counted, removal.phase.doomed))).(
            lines := w.lines - removal.phase.doomed, variants := w.variants - {removal.variant})
    case Abort(r) =>
      if r !in w.removals || !InTransaction(w.removals[r].phase) then w else To(w, r, Finished(Aborted))
  }

  function Run(w: World, steps: seq<Step>): World {
    if steps == [] then w else Next(Run(w, steps[..|steps| - 1]), steps[|steps| - 1])
  }

  const EMPTY := World({}, map[], map[], {}, map[])

  // ---------- The invariant ----------

  predicate RemovalFits(w: World, removal: Removal) {
    && (InTransaction(removal.phase) ==>
          && |removal.phase.held| >= 2 && removal.variant in removal.phase.held
          && (forall v :: v in removal.phase.held ==> v in w.variants && w.variants[v] == removal.product))
    && (removal.phase.Counted? ==>
          LinesOf(w, removal.variant) <= removal.phase.counted && Reviewed(removal.confirmation, |removal.phase.counted|))
    && (removal.phase.Emptied? ==>
          && LinesOf(w, removal.variant) == removal.phase.doomed <= removal.phase.counted
          && Reviewed(removal.confirmation, |removal.phase.counted|))
    && (removal.phase.Finished? && removal.phase.outcome.Removed? ==>
          && removal.phase.outcome.deleted <= removal.phase.outcome.counted
          && Reviewed(removal.confirmation, |removal.phase.outcome.counted|))
  }

  ghost predicate LocksAreExclusive(w: World) {
    forall r, s :: r in w.removals && s in w.removals && r != s ==> Held(w.removals[r]) !! Held(w.removals[s])
  }

  predicate HasVariant(w: World, p: ProductId) {
    exists v :: v in w.variants && w.variants[v] == p
  }

  /** Every product has a variant; cart lines and order items point at variants that are there. */
  ghost predicate CatalogueSound(w: World) {
    && (forall p :: p in w.products ==> HasVariant(w, p))
    && (forall l :: l in w.lines ==> w.lines[l] in w.variants)
    && w.sold <= w.variants.Keys
  }

  ghost predicate Inv(w: World) {
    && CatalogueSound(w)
    && LocksAreExclusive(w)
    && (forall r :: r in w.removals ==> RemovalFits(w, w.removals[r]))
  }

  /** Variants only added, and the lines a removal counts on not disturbed. */
  lemma {:induction false} OutsideStep(w: World, w': World)
    requires Inv(w) && CatalogueSound(w') && w'.removals == w.removals
    requires forall v :: v in w.variants ==> v in w'.variants && w'.variants[v] == w.variants[v]
    requires forall r :: r in w.removals && InTransaction(w.removals[r].phase) ==>
               LinesOf(w', w.removals[r].variant) <= LinesOf(w, w.removals[r].variant)
    requires forall r :: r in w.removals && w.removals[r].phase.Emptied? ==>
               LinesOf(w', w.removals[r].variant) == LinesOf(w, w.removals[r].variant)
    ensures Inv(w')
  {
    forall r | r in w'.removals ensures RemovalFits(w', w'.removals[r]) {
      assert RemovalFits(w, w.removals[r]);
    }
  }

  lemma {:induction false} CatalogueGrows(w: World, w': World)
    requires CatalogueSound(w) && w'.lines == w.lines && w'.sold == w.sold
    requires forall v :: v in w.variants ==> v in w'.variants && w'.variants[v] == w.variants[v]
    requires forall p :: p in w'.products ==> p in w.products || HasVariant(w', p)
    ensures CatalogueSound(w')
  {
    forall p | p in w'.products ensures HasVariant(w', p) {
      if p in w.products {
        assert HasVariant(w, p);
        var v :| v in w.variants && w.variants[v] == p;
        assert v in w'.variants && w'.variants[v] == p;
      }
    }
  }

  lemma {:induction false} AddLineInv(w: World, l: LineId, v: VariantId)
    requires Inv(w) && l !in w.lines && v in w.variants && !IsLocked(w, v)
    ensures Inv(w.(lines := w.lines[l := v]))
  {
    var w' := w.(lines := w.lines[l := v]);
    forall p | p in w'.products ensures HasVariant(w', p) {
      assert HasVariant(w, p);
    }
    forall r | r in w.removals && InTransaction(w.removals[r].phase)
      ensures LinesOf(w', w.removals[r].variant) == LinesOf(w, w.removals[r].variant)
    {
      assert RemovalFits(w, w.removals[r]);
      assert w.removals[r].variant in Held(w.removals[r]);
      assert w.removals[r].variant != v;
    }
    OutsideStep(w, w');
  }

  /** Taking lines away, none of them doomed, and selling variants that are there. */
  lemma {:induction false} DropInv(w: World, drops: set<LineId>, items: set<VariantId>)
    requires Inv(w) && items <= w.variants.Keys && forall l :: l in drops ==> !IsDoomed(w, l)
    ensures Inv(w.(lines := w.lines - drops, sold := w.sold + items))
  {
    var w' := w.(lines := w.lines - drops, sold := w.sold + items);
    forall p | p in w'.products ensures HasVariant(w', p) {
      assert HasVariant(w, p);
    }
    forall r | r in w.removals && w.removals[r].phase.Emptied?
      ensures LinesOf(w', w.removals[r].variant) == LinesOf(w, w.removals[r].variant)
    {
      assert RemovalFits(w, w.removals[r]);
      assert forall l :: l in LinesOf(w, w.removals[r].variant) ==> l in Doomed(w.removals[r]);
    }
    OutsideStep(w, w');
  }

  /** A removal moving on without writing: it must fit its new phase, and lock nothing others hold. */
  lemma {:induction false} PhaseInv(w: World, r: RemovalId, phase: Phase)
    requires Inv(w) && r in w.removals
    requires RemovalFits(w, w.removals[r].(phase := phase))
    requires Held(w.removals[r].(phase := phase)) <= Held(w.removals[r]) ||
             forall v :: v in Held(w.removals[r].(phase := phase)) ==> !IsLocked(w, v)
    ensures Inv(To(w, r, phase))
  {
    var w' := To(w, r, phase);
    forall p | p in w'.products ensures HasVariant(w', p) {
      assert HasVariant(w, p);
    }
    forall s | s in w'.removals ensures RemovalFits(w', w'.removals[s]) {
      assert RemovalFits(w, if s == r then w'.removals[r] else w.removals[s]);
      assert LinesOf(w', w'.removals[s].variant) == LinesOf(w, w'.removals[s].variant);
    }
    forall s, t | s in w'.removals && t in w'.removals && s != t
      ensures Held(w'.removals[s]) !! Held(w'.removals[t])
    {
      if s == r {
        assert forall v :: v in Held(w.removals[t]) ==> IsLocked(w, v);
      } else if t == r {
        assert forall v :: v in Held(w.removals[s]) ==> IsLocked(w, v);
      }
    }
  }

  /** Another row of the product stays: it is locked by the same removal, so nobody else can remove it. */
  lemma CommitKeepsProducts(w: World, r: RemovalId, p: ProductId)
    requires Inv(w) && r in w.removals && w.removals[r].phase.Emptied? && p in w.products
    ensures exists v :: v in w.variants && w.variants[v] == p && v != w.removals[r].variant
  {
    var removal := w.removals[r];
    assert RemovalFits(w, removal) && HasVariant(w, p);
    if p == removal.product {
      var others := removal.phase.held - {removal.variant};
      assert |others| >= 1;
      var v :| v in others;
      assert v in w.variants && w.variants[v] == p;
    }
  }

  lemma CommitInv(w: World, r: RemovalId)
    requires Inv(w) && r in w.removals && w.removals[r].phase.Emptied? && w.removals[r].variant !in w.sold
    ensures Inv(Next(w, Commit(r)))
  {
    var w', removal := Next(w, Commit(r)), w.removals[r];
    assert RemovalFits(w, removal);
    forall p | p in w'.products ensures HasVariant(w', p) {
      CommitKeepsProducts(w, r, p);
      var v :| v in w.variants && w.variants[v] == p && v != removal.variant;
      assert v in w'.variants && w'.variants[v] == p;
    }
    forall l | l in w'.lines ensures w'.lines[l] in w'.variants {
      assert l !in LinesOf(w, removal.variant);
    }
    forall s | s in w'.removals ensures RemovalFits(w', w'.removals[s]) {
      assert RemovalFits(w, w.removals[s]);
      if s != r && InTransaction(w.removals[s].phase) {
        assert Held(removal) !! Held(w.removals[s]) && removal.variant in Held(removal);
        assert w.removals[s].variant in Held(w.removals[s]);
        assert LinesOf(w', w.removals[s].variant) == LinesOf(w, w.removals[s].variant);
      }
    }
  }

  lemma {:induction false} NewVariantsInv(w: World, step: Step)
    requires Inv(w) && (step.NewProduct? || step.AddVariant?)
    ensures Inv(Next(w, step))
  {
    var w' := Next(w, step);
    if w' != w {
      if step.NewProduct? {
        var v :| v in step.rows;
        assert w'.variants[v] == step.p;
        assert forall u :: u in w.variants && u in step.rows ==> u in step.rows * w.variants.Keys;
      }
      CatalogueGrows(w, w');
      OutsideStep(w, w');
    }
  }

  lemma {:induction false} LockInv(w: World, r: RemovalId, seen: set<VariantId>)
    requires Inv(w)
    ensures Inv(Next(w, Lock(r, seen)))
  {
    var w' := Next(w, Lock(r, seen));
    if w' != w { PhaseInv(w, r, w'.removals[r].phase); }
  }

  lemma {:induction false} CountInv(w: World, r: RemovalId)
    requires Inv(w) && r in w.removals
    ensures Inv(Next(w, Count(r)))
  {
    var w' := Next(w, Count(r));
    if w.removals[r].phase.Locked? {
      assert RemovalFits(w, w.removals[r]);
      PhaseInv(w, r, w'.removals[r].phase);
    }
  }

  lemma {:induction false} EmptyInv(w: World, r: RemovalId)
    requires Inv(w) && r in w.removals
    ensures Inv(Next(w, Empty(r)))
  {
    var w' := Next(w, Empty(r));
    if w.removals[r].phase.Counted? {
      assert RemovalFits(w, w.removals[r]);
      PhaseInv(w, r, w'.removals[r].phase);
    }
  }

  lemma {:induction false} StepInv(w: World, step: Step)
    requires Inv(w)
    ensures Inv(Next(w, step))
  {
    hide Inv, LinesOf, Held, Doomed, Reviewed, Whole;
    match step {
      case NewProduct(_, _) => NewVariantsInv(w, step);
      case AddVariant(_, _) => NewVariantsInv(w, step);
      case AddLine(l, v) =>
        if l !in w.lines && v in w.variants && !IsLocked(w, v) { AddLineInv(w, l, v); }
      case DropLine(l) =>
        if !IsDoomed(w, l) {
          DropInv(w, {l}, {});
          assert w.sold + {} == w.sold;
        }
      case Checkout(drops, items) =>
        if items <= w.variants.Keys && forall l :: l in drops ==> !IsDoomed(w, l) { DropInv(w, drops, items); }
      case Request(r, p, v, confirmation) =>
        if r !in w.removals { RequestInv(w, Next(w, step), r); }
      case Lock(r, seen) => LockInv(w, r, seen);
      case Count(r) =>
        if r in w.removals { CountInv(w, r); }
      case Empty(r) =>
        if r in w.removals { EmptyInv(w, r); }
      case Commit(r) =>
        if r in w.removals && w.removals[r].phase.Emptied? {
          if w.removals[r].variant in w.sold { FinishedInv(w, r, Sold); } else { CommitInv(w, r); }
        }
      case Abort(r) =>
        if r in w.removals { FinishedInv(w, r, Aborted); }
    }
  }

  lemma {:induction false} FinishedInv(w: World, r: RemovalId, outcome: Outcome)
    requires Inv(w) && r in w.removals && !outcome.Removed?
    ensures Inv(To(w, r, Finished(outcome)))
  {
    PhaseInv(w, r, Finished(outcome));
  }

  lemma {:induction false} RequestInv(w: World, w': World, r: RemovalId)
    requires Inv(w) && r !in w.removals && r in w'.removals && w' == w.(removals := w.removals[r := w'.removals[r]])
    requires w'.removals[r].phase.Waiting? || (w'.removals[r].phase.Finished? && !w'.removals[r].phase.outcome.Removed?)
    ensures Inv(w')
  {
    forall p | p in w'.products ensures HasVariant(w', p) {
      assert HasVariant(w, p);
    }
    forall s | s in w'.removals ensures RemovalFits(w', w'.removals[s]) {
      if s != r {
        assert RemovalFits(w, w.removals[s]);
        assert LinesOf(w', w'.removals[s].variant) == LinesOf(w, w'.removals[s].variant);
      }
    }
  }

  lemma {:induction false} InvInEveryRun(steps: seq<Step>)
    ensures Inv(Run(EMPTY, steps))
    decreases |steps|
  {
    if steps != [] {
      InvInEveryRun(steps[..|steps| - 1]);
      StepInv(Run(EMPTY, steps[..|steps| - 1]), steps[|steps| - 1]);
    }
  }

  // ---------- Main results ----------

  /** In every run every product has a variant, and nothing points at one that is gone: a restock never misses its row. */
  lemma EveryProductKeepsAVariant(steps: seq<Step>)
    ensures CatalogueSound(Run(EMPTY, steps))
  {
    InvInEveryRun(steps);
  }

  /**
   * A removal that committed deleted none but the cart lines it had counted, and had
   * counted exactly the number confirmed, or none when nothing was to be discarded.
   */
  lemma {:induction false} DeletesAtMostWhatWasConfirmed(steps: seq<Step>, r: RemovalId)
    requires var w := Run(EMPTY, steps);
      r in w.removals && w.removals[r].phase.Finished? && w.removals[r].phase.outcome.Removed?
    ensures var removal := Run(EMPTY, steps).removals[r];
      var Removed(counted, deleted) := removal.phase.outcome;
      && deleted <= counted && |deleted| <= |counted|
      && (removal.confirmation.discard ==> removal.confirmation.expected == Some(|counted|))
      && (!removal.confirmation.discard ==> counted == {} && deleted == {})
  {
    InvInEveryRun(steps);
    var removal := Run(EMPTY, steps).removals[r];
    assert RemovalFits(Run(EMPTY, steps), removal);
    SubsetSize(removal.phase.outcome.deleted, removal.phase.outcome.counted);
  }

  /** The cart lines a step takes away on the carts' side. */
  function TakenAway(w: World, step: Step): set<LineId> {
    if step.DropLine? || step.Checkout? then w.lines.Keys - Next(w, step).lines.Keys else {}
  }

  /** The lines a removal has counted, from its count on. */
  function CountedBy(removal: Removal): set<LineId> {
    match removal.phase
    case Counted(_, counted) => counted
    case Emptied(_, counted, _) => counted
    case Finished(outcome) => if outcome.Removed? then outcome.counted else {}
    case _ => {}
  }

  /** Of the lines `r` counted, those that customers took away between its count and its deleteMany. */
  function LeftMeanwhile(steps: seq<Step>, r: RemovalId): set<LineId> {
    if steps == [] then {}
    else
      var init := steps[..|steps| - 1];
      var w := Run(EMPTY, init);
      LeftMeanwhile(init, r) + LeftBy(w, steps[|steps| - 1], r)
  }

  function LeftBy(w: World, step: Step, r: RemovalId): set<LineId> {
    if r in w.removals && w.removals[r].phase.Counted? then TakenAway(w, step) * w.removals[r].phase.counted else {}
  }

  /** What a removal has left to delete, or deleted: the lines it counted less those that left. */
  ghost predicate DeletesWhatStayed(w: World, removal: Removal, left: set<LineId>) {
    match removal.phase
    case Counted(_, counted) => LinesOf(w, removal.variant) == counted - left
    case Emptied(_, counted, doomed) => doomed == counted - left
    case Finished(outcome) => outcome.Removed? ==> outcome.deleted == outcome.counted - left
    case _ => left == {}
  }

  lemma {:induction false} LeftAreCounted(steps: seq<Step>, r: RemovalId)
    ensures r !in Run(EMPTY, steps).removals ==> LeftMeanwhile(steps, r) == {}
    ensures r in Run(EMPTY, steps).removals ==>
              DeletesWhatStayed(Run(EMPTY, steps), Run(EMPTY, steps).removals[r], LeftMeanwhile(steps, r))
    decreases |steps|
  {
    hide Next, Inv, DeletesWhatStayed, LeftBy;
    if steps != [] {
      var init, step := steps[..|steps| - 1], steps[|steps| - 1];
      LeftAreCounted(init, r);
      InvInEveryRun(init);
      var w := Run(EMPTY, init);
      if r in w.removals {
        LeftStep(w, step, r, LeftMeanwhile(init, r));
      } else {
        NewRemovalHasNoneLeft(w, step, r);
        assert LeftMeanwhile(init, r) + {} == {};
      }
    } else {
      assert Run(EMPTY, steps) == EMPTY;
    }
  }

  lemma NewRemovalHasNoneLeft(w: World, step: Step, r: RemovalId)
    requires r !in w.removals
    ensures LeftBy(w, step, r) == {}
    ensures r in Next(w, step).removals ==> DeletesWhatStayed(Next(w, step), Next(w, step).removals[r], {})
  {
  }

  /** While a removal has counted, its lines go only by being taken, and none come. */
  lemma CountedLinesOnlyLeave(w: World, step: Step, r: RemovalId)
    requires Inv(w) && r in w.removals && w.removals[r].phase.Counted?
    ensures var v := w.removals[r].variant;
      LinesOf(Next(w, step), v) == LinesOf(w, v) - TakenAway(w, step)
  {
    var removal, w' := w.removals[r], Next(w, step);
    assert RemovalFits(w, removal) && removal.variant in Held(removal);
    if step.AddLine? {
      assert IsLocked(w, removal.variant);
    }
    if step.Commit? && step.r in w.removals && w.removals[step.r].phase.Emptied? {
      var other := w.removals[step.r];
      assert RemovalFits(w, other) && other.variant in Held(other);
      assert other.variant != removal.variant;
    }
  }

  /** The phase a removal is in changes by its own steps only. */
  lemma PhaseMoves(w: World, step: Step, r: RemovalId)
    requires r in w.removals
    ensures r in Next(w, step).removals && Next(w, step).removals[r].variant == w.removals[r].variant
    ensures var phase, phase' := w.removals[r].phase, Next(w, step).removals[r].phase;
      match phase
      case Waiting => phase'.Waiting? || phase'.Locked? || (phase'.Finished? && !phase'.outcome.Removed?)
      case Locked(_) =>
        phase' == phase || (phase'.Finished? && !phase'.outcome.Removed?) ||
        (phase'.Counted? && phase'.counted == LinesOf(w, w.removals[r].variant) && Next(w, step) == To(w, r, phase'))
      case Counted(_, counted) =>
        phase' == phase || (phase'.Finished? && !phase'.outcome.Removed?) ||
        (phase'.Emptied? && phase'.counted == counted && phase'.doomed == LinesOf(w, w.removals[r].variant) && step.Empty?)
      case Emptied(_, counted, doomed) =>
        phase' == phase || (phase'.Finished? && !phase'.outcome.Removed?) || phase' == Finished(Removed(counted, doomed))
      case Finished(_) => phase' == phase
  {
    hide IsLocked, IsDoomed, LinesOf, Reviewed, Whole;
    match step {
      case Request(_, _, _, _) =>
      case Lock(_, _) =>
      case Count(_) =>
      case Empty(_) =>
      case Commit(_) =>
      case Abort(_) =>
      case _ =>
    }
  }

  lemma LeftStep(w: World, step: Step, r: RemovalId, left: set<LineId>)
    requires Inv(w) && r in w.removals && DeletesWhatStayed(w, w.removals[r], left)
    ensures r in Next(w, step).removals
    ensures DeletesWhatStayed(Next(w, step), Next(w, step).removals[r], left + LeftBy(w, step, r))
  {
    hide Next, Inv;
    PhaseMoves(w, step, r);
    var removal, w' := w.removals[r], Next(w, step);
    var phase' := w'.removals[r].phase;
    if removal.phase.Counted? {
      CountedLinesOnlyLeave(w, step, r);
      assert LeftBy(w, step, r) == TakenAway(w, step) * removal.phase.counted;
      if step.Empty? { assert TakenAway(w, step) == {}; }
      hide TakenAway, LinesOf, LeftBy;
    } else {
      assert LeftBy(w, step, r) == {} && left + {} == left;
      hide LeftBy;
      if removal.phase.Locked? && phase'.Counted? {
        assert LinesOf(w', removal.variant) == LinesOf(w, removal.variant);
      }
      hide LinesOf;
    }
  }

  /**
   * Over every run: a committed removal deleted exactly the lines it had counted less those
   * a customer took away between its count and its deleteMany. So it deleted exactly the
   * number counted, which is the number confirmed, if and only if none was taken.
   */
  lemma DeletesExactlyIff(steps: seq<Step>, r: RemovalId)
    requires var w := Run(EMPTY, steps);
      r in w.removals && w.removals[r].phase.Finished? && w.removals[r].phase.outcome.Removed?
    ensures var Removed(counted, deleted) := Run(EMPTY, steps).removals[r].phase.outcome;
      && deleted == counted - LeftMeanwhile(steps, r)
      && (|deleted| == |counted| <==> LeftMeanwhile(steps, r) * counted == {})
  {
    LeftAreCounted(steps, r);
    var Removed(counted, deleted) := Run(EMPTY, steps).removals[r].phase.outcome;
    SubsetSize(deleted, counted);
    if deleted == counted {
      forall l | l in LeftMeanwhile(steps, r) ensures l !in counted {
        assert l in counted ==> l in deleted;
      }
    } else {
      var l :| l in counted && l !in deleted;
      assert l in LeftMeanwhile(steps, r) * counted;
    }
  }

  /** From the deleteMany to the commit no line can come or go, so the cascade behind the delete finds nothing. */
  lemma {:induction false} CascadeFindsNothing(steps: seq<Step>, r: RemovalId)
    requires r in Run(EMPTY, steps).removals && Run(EMPTY, steps).removals[r].phase.Emptied?
    ensures var w := Run(EMPTY, steps);
      LinesOf(w.(lines := w.lines - w.removals[r].phase.doomed), w.removals[r].variant) == {}
  {
    InvInEveryRun(steps);
    assert RemovalFits(Run(EMPTY, steps), Run(EMPTY, steps).removals[r]);
  }

  predicate ByRemoval(step: Step) {
    step.Request? || step.Lock? || step.Count? || step.Empty? || step.Commit? || step.Abort?
  }

  /** Only the commit of a variant nobody bought writes: it takes the variant and the lines deleted, and nothing else. */
  lemma {:induction false} RemovalWritesOnlyAtCommit(w: World, step: Step)
    requires Inv(w) && ByRemoval(step)
    ensures var w' := Next(w, step);
      if step.Commit? && step.r in w.removals && w.removals[step.r].phase.Emptied? && w.removals[step.r].variant !in w.sold then
        var v := w.removals[step.r].variant;
        && w'.variants == w.variants - {v} && w'.lines == w.lines - LinesOf(w, v)
        && w'.sold == w.sold && w'.products == w.products
      else
        w' == w.(removals := w'.removals)
  {
    if step.Commit? && step.r in w.removals && w.removals[step.r].phase.Emptied? {
      assert RemovalFits(w, w.removals[step.r]);
    }
  }

  // ---------- Fewer lines than confirmed ----------

  const ONE_LINE := Confirmation(true, Some(1))

  /** One line confirmed and counted; its owner empties the cart before the deleteMany. */
  function LineLeaves(): seq<Step> {
    [NewProduct(0, {0, 1}), AddLine(0, 0), Request(0, 0, 0, ONE_LINE), Lock(0, {0, 1}), Count(0)] +
    [DropLine(0), Empty(0), Commit(0)]
  }

  /** The world with the one line in a cart, and the removal of its variant in some phase. */
  function OneLine(removals: map<RemovalId, Removal>): World {
    World({0}, map[0 := 0, 1 := 0], map[0 := 0], {}, removals)
  }

  function Removing(phase: Phase): map<RemovalId, Removal> {
    map[0 := Removal(0, 0, ONE_LINE, phase)]
  }

  lemma {:induction false} SoldStays(w: World, step: Step)
    ensures w.sold <= Next(w, step).sold
  {
  }

  /** A checkout takes its lines, and what it has sold stays a variant in every continuation. */
  lemma {:induction false} SoldForGood(w: World, drops: set<LineId>, items: set<VariantId>, steps: seq<Step>)
    requires Inv(w) && items <= w.variants.Keys
    requires (forall v :: v in items ==> !IsLocked(w, v)) && (forall l :: l in drops ==> !IsDoomed(w, l))
    ensures Next(w, Checkout(drops, items)).lines == w.lines - drops
    ensures var w' := Run(Next(w, Checkout(drops, items)), steps); Inv(w') && items <= w'.sold && items <= w'.variants.Keys
    decreases |steps|
  {
    if steps == [] {
      StepInv(w, Checkout(drops, items));
    } else {
      SoldForGood(w, drops, items, steps[..|steps| - 1]);
      var before := Run(Next(w, Checkout(drops, items)), steps[..|steps| - 1]);
      StepInv(before, steps[|steps| - 1]);
      SoldStays(before, steps[|steps| - 1]);
      var after := Run(Next(w, Checkout(drops, items)), steps);
      assert after == Next(before, steps[|steps| - 1]);
      assert Next(w, Checkout(drops, items)).lines == w.lines - drops;
      hide Next;
      assert CatalogueSound(after);
    }
  }

  lemma {:induction false} LineIsAdded()
    ensures Next(Next(EMPTY, NewProduct(0, {0, 1})), AddLine(0, 0)) == OneLine(map[])
  {
    var w1 := Next(EMPTY, NewProduct(0, {0, 1}));
    assert w1.variants == map[0 := 0, 1 := 0];
    assert w1.products == {0};
  }

  lemma {:induction false} RemovalLocks()
    ensures Next(Next(OneLine(map[]), Request(0, 0, 0, ONE_LINE)), Lock(0, {0, 1})) == OneLine(Removing(Locked({0, 1})))
  {
    assert Next(OneLine(map[]), Request(0, 0, 0, ONE_LINE)) == OneLine(Removing(Waiting));
    assert |{0, 1}| == 2;
  }

  lemma RemovalCounts()
    ensures Next(OneLine(Removing(Locked({0, 1}))), Count(0)) == OneLine(Removing(Counted({0, 1}, {0})))
  {
    assert LinesOf(OneLine(Removing(Locked({0, 1}))), 0) == {0};
  }

  lemma RemovalFindsNone()
    ensures var w := Next(Next(Next(OneLine(Removing(Counted({0, 1}, {0}))), DropLine(0)), Empty(0)), Commit(0));
      w.removals == Removing(Finished(Removed({0}, {})))
  {
    var w1 := Next(OneLine(Removing(Counted({0, 1}, {0}))), DropLine(0));
    assert LinesOf(w1, 0) == {};
    assert Next(w1, Empty(0)).removals == Removing(Emptied({0, 1}, {0}, {}));
  }

  lemma RunOfThree(w: World, a: Step, b: Step, c: Step)
    ensures Run(w, [a, b, c]) == Next(Next(Next(w, a), b), c)
  {
    hide Next;
    assert [a, b, c][..2] == [a, b] && [a, b][..1] == [a] && [a][..0] == [];
    assert Run(w, [a]) == Next(w, a);
    assert Run(w, [a, b]) == Next(Next(w, a), b);
  }

  lemma {:induction false} RunConcat(w: World, a: seq<Step>, b: seq<Step>)
    ensures Run(w, a + b) == Run(Run(w, a), b)
    decreases |b|
  {
    if b == [] {
      assert a + b == a;
    } else {
      assert (a + b)[..|a + b| - 1] == a + b[..|b| - 1];
      RunConcat(w, a, b[..|b| - 1]);
    }
  }

  /** So a removal can commit having deleted fewer lines than were confirmed. */
  lemma FewerThanConfirmed()
    ensures Run(EMPTY, LineLeaves()).removals == Removing(Finished(Removed({0}, {})))
  {
    hide Next, OneLine, Removing;
    var first := [NewProduct(0, {0, 1}), AddLine(0, 0), Request(0, 0, 0, ONE_LINE)];
    var middle := [Lock(0, {0, 1}), Count(0), DropLine(0)];
    var last := [Empty(0), Commit(0)];
    assert LineLeaves() == first + middle + last;
    RunConcat(EMPTY, first + middle, last);
    RunConcat(EMPTY, first, middle);
    RunOfThree(EMPTY, first[0], first[1], first[2]);
    RunOfThree(Run(EMPTY, first), middle[0], middle[1], middle[2]);
    var w6 := Run(EMPTY, first + middle);
    assert last[..1] == [last[0]] && last[..0] == [];
    assert Run(w6, last[..1]) == Next(w6, last[0]);
    LineIsAdded();
    RemovalLocks();
    RemovalCounts();
    RemovalFindsNone();
  }

  // ---------- The service as an object ----------

  /** One removal nothing interleaves with, seen as a run of the machine. */
  function Undisturbed(w: World, p: ProductId, v: VariantId, confirmation: Confirmation): World {
    var rows := RowsOf(w, p);
    Next(Next(Next(Next(Next(w, Request(0, p, v, confirmation)), Lock(0, rows)), Count(0)), Empty(0)), Commit(0))
  }

  class ProductsService {
    var products: set<ProductId>
    var variants: map<VariantId, ProductId>
    var lines: map<LineId, VariantId>
    var sold: set<VariantId>

    ghost function Model(): World
      reads this
    {
      World(products, variants, lines, sold, map[])
    }

    method RemoveVariant(p: ProductId, v: VariantId, confirmation: Confirmation) returns (outcome: Outcome)
      requires CatalogueSound(Model())
      modifies this
      ensures products == old(products) && sold == old(sold) && CatalogueSound(Model())
      ensures outcome.Removed? ==> variants == old(variants) - {v} && lines == old(lines) - LinesOf(old(Model()), v)
      ensures !outcome.Removed? ==> variants == old(variants) && lines == old(lines)
      ensures outcome.Removed? <==>
                && confirmation.discard == confirmation.expected.Some?
                && v in old(variants) && old(variants)[v] == p && v !in sold
                && (exists u :: u in old(variants) && u != v && old(variants)[u] == p)
                && |LinesOf(old(Model()), v)| == (if confirmation.discard then confirmation.expected.value else 0)
      ensures outcome == NotWhole <==> confirmation.discard != confirmation.expected.Some?
      ensures outcome.Unreviewed? ==> outcome.count == |LinesOf(old(Model()), v)|
      ensures Undisturbed(old(Model()), p, v, confirmation) ==
              Model().(removals := map[0 := Removal(p, v, confirmation, Finished(outcome))])
    {
      ghost var start := Model();
      UndisturbedOutcome(start, p, v, confirmation);
      UndisturbedInv(start, p, v, confirmation);
      hide CatalogueSound, Undisturbed, Next;
      if (confirmation.discard && confirmation.expected.None?) || (!confirmation.discard && confirmation.expected.Some?) {
        return NotWhole;
      }
      if v !in variants || variants[v] != p {
        return NotFound;
      }
      if v in sold {
        return Outcome.Sold;
      }
      var locked := set u | u in variants && variants[u] == p;
      assert locked == RowsOf(start, p);
      OnlyOne(locked, v);
      assert |locked| <= 1 <==> forall u :: u in variants && variants[u] == p ==> u == v;
      if |locked| <= 1 {
        return LastVariant;
      }
      var found := set l | l in lines && lines[l] == v;
      assert found == LinesOf(start, v);
      var reviewed := if confirmation.discard then |found| == confirmation.expected.value else |found| == 0;
      if !reviewed {
        return Unreviewed(|found|);
      }
      lines := lines - found;
      variants := variants - {v};
      SoundApart(Undisturbed(start, p, v, confirmation), Model());
      return Removed(found, found);
    }
  }

  lemma OnlyOne(rows: set<VariantId>, v: VariantId)
    requires v in rows
    ensures |rows| <= 1 <==> forall u :: u in rows ==> u == v
  {
    SubsetSize({v}, rows);
    if forall u :: u in rows ==> u == v {
      assert rows == {v};
    }
  }

  /** Removals themselves point at nothing. */
  lemma {:induction false} SoundApart(w: World, w': World)
    requires CatalogueSound(w) && w' == w.(removals := w'.removals)
    ensures CatalogueSound(w')
  {
    forall p | p in w'.products ensures HasVariant(w', p) {
      assert HasVariant(w, p);
    }
  }

  lemma UndisturbedInv(w: World, p: ProductId, v: VariantId, confirmation: Confirmation)
    requires CatalogueSound(w) && w.removals == map[]
    ensures CatalogueSound(Undisturbed(w, p, v, confirmation))
  {
    var rows := RowsOf(w, p);
    var w1 := Next(w, Request(0, p, v, confirmation));
    assert Inv(w);
    StepInv(w, Request(0, p, v, confirmation));
    StepInv(w1, Lock(0, rows));
    StepInv(Next(w1, Lock(0, rows)), Count(0));
    StepInv(Next(Next(w1, Lock(0, rows)), Count(0)), Empty(0));
    StepInv(Next(Next(Next(w1, Lock(0, rows)), Count(0)), Empty(0)), Commit(0));
  }

  /** The outcome of a removal left alone, check by check, and what it wrote. */
  lemma {:induction false} UndisturbedOutcome(w: World, p: ProductId, v: VariantId, confirmation: Confirmation)
    requires w.removals == map[]
    ensures var rows, lines := RowsOf(w, p), LinesOf(w, v);
      var outcome :=
        if !Whole(confirmation) then NotWhole
        else if v !in w.variants || w.variants[v] != p then NotFound
        else if v in w.sold then Sold
        else if |rows| <= 1 then LastVariant
        else if !Reviewed(confirmation, |lines|) then Unreviewed(|lines|)
        else Removed(lines, lines);
      var w' := if outcome.Removed? then w.(variants := w.variants - {v}, lines := w.lines - lines) else w;
      Undisturbed(w, p, v, confirmation) == w'.(removals := map[0 := Removal(p, v, confirmation, Finished(outcome))])
  {
    var rows := RowsOf(w, p);
    UpToTheLock(w, p, v, confirmation);
    var w2 := Next(Next(w, Request(0, p, v, confirmation)), Lock(0, rows));
    assert LinesOf(w2, v) == LinesOf(w, v);
    hide LinesOf, RowsOf, IsLocked, Whole, Reviewed;
    if w2.removals[0].phase.Locked? { FromTheLock(w2, 0); }
  }

  /** Request and lock, left alone. */
  lemma {:induction false} UpToTheLock(w: World, p: ProductId, v: VariantId, confirmation: Confirmation)
    requires w.removals == map[]
    ensures var rows := RowsOf(w, p);
      var phase :=
        if !Whole(confirmation) then Finished(NotWhole)
        else if v !in w.variants || w.variants[v] != p then Finished(NotFound)
        else if v in w.sold then Finished(Sold)
        else if |rows| <= 1 then Finished(LastVariant)
        else Locked(rows);
      Next(Next(w, Request(0, p, v, confirmation)), Lock(0, rows)) ==
      w.(removals := map[0 := Removal(p, v, confirmation, phase)])
  {
    var w1 := Next(w, Request(0, p, v, confirmation));
    assert forall u :: !IsLocked(w1, u);
  }

  /** What follows the lock, left alone. */
  lemma {:induction false} FromTheLock(w: World, r: RemovalId)
    requires r in w.removals && w.removals[r].phase.Locked?
    ensures var w', removal := Next(Next(Next(w, Count(r)), Empty(r)), Commit(r)), w.removals[r];
      var lines := LinesOf(w, removal.variant);
      if !Reviewed(removal.confirmation, |lines|) then w' == To(w, r, Finished(Unreviewed(|lines|)))
      else if removal.variant in w.sold then w' == To(w, r, Finished(Sold))
      else w' == To(w, r, Finished(Removed(lines, lines))).(
             lines := w.lines - lines, variants := w.variants - {removal.variant})
  {
    var removal := w.removals[r];
    var lines := LinesOf(w, removal.variant);
    var w1 := Next(w, Count(r));
    if Reviewed(removal.confirmation, |lines|) {
      assert w1 == To(w, r, Counted(removal.phase.held, lines));
      assert LinesOf(w1, removal.variant) == lines;
      var w2 := Next(w1, Empty(r));
      assert w2 == To(w1, r, Emptied(removal.phase.held, lines, lines));
    }
  }
}
