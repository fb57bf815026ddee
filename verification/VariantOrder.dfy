/**
 * The order a product's sizes are shown in: by position, then by id. Reordering
 * restates every position, adding appends past the highest one in use.
 */
module VariantOrder {
  import opened Wrappers
  import opened Seqs

  type VariantId = nat

  const SINGLE_VARIANT_LABEL := "Único"

  /** Centimetres, each known or not. */
  datatype Dimensions = Dimensions(heightCm: Option<int>, widthCm: Option<int>, lengthCm: Option<int>)

  const UNMEASURED := Dimensions(None, None, None)

  datatype Variant = Variant(sizeLabel: string, position: int, stock: int, dimensions: Dimensions)

  /** One product's variants. */
  type Rows = map<VariantId, Variant>

  predicate Before(rows: Rows, a: VariantId, b: VariantId)
    requires a in rows && b in rows
  {
    rows[a].position < rows[b].position || (rows[a].position == rows[b].position && a < b)
  }

  ghost predicate Sorted(rows: Rows, s: seq<VariantId>) {
    && (forall i :: 0 <= i < |s| ==> s[i] in rows)
    && (forall i, j :: 0 <= i < j < |s| ==> Before(rows, s[i], s[j]))
  }

  /** What ORDER BY position, id returns. */
  ghost predicate IsDisplay(rows: Rows, s: seq<VariantId>) {
    Sorted(rows, s) && forall v :: v in rows ==> v in s
  }

  lemma {:induction false} SortedIsUnique(rows: Rows, s: seq<VariantId>, t: seq<VariantId>)
    requires Sorted(rows, s) && Sorted(rows, t)
    requires forall v :: v in s <==> v in t
    ensures s == t
    decreases |s|
  {
    assert t != [] ==> t[0] in t && t[0] in s;
    if s != [] {
      assert s[0] in s;
      assert s[0] == t[0];
      forall v ensures v in s[1..] <==> v in t[1..] {
        if v in s[1..] { assert v in s && v != s[0]; }
        if v in t[1..] { assert v in t && v != t[0]; }
      }
      SortedIsUnique(rows, s[1..], t[1..]);
    }
  }

  /** There is one display order: no two reads disagree. */
  lemma DisplayIsUnique(rows: Rows, s: seq<VariantId>, t: seq<VariantId>)
    requires IsDisplay(rows, s) && IsDisplay(rows, t)
    ensures s == t
  {
    SortedIsUnique(rows, s, t);
  }

  predicate IsLast(rows: Rows, v: VariantId) {
    v in rows && forall u :: u in rows && u != v ==> Before(rows, u, v)
  }

  lemma {:induction false} LastExists(rows: Rows)
    requires rows != map[]
    ensures exists v :: IsLast(rows, v)
    decreases |rows|
  {
    var v :| v in rows;
    var rest := rows - {v};
    if rest == map[] {
      assert forall u :: u in rows && u != v ==> u in rest;
      assert IsLast(rows, v);
    } else {
      LastExists(rest);
      var last :| IsLast(rest, last);
      assert forall u :: u in rows && u != v ==> u in rest && rest[u] == rows[u];
      assert IsLast(rows, if Before(rows, v, last) then last else v);
    }
  }

  /** Whatever the positions, there is a display order. */
  lemma {:induction false} DisplayExists(rows: Rows)
    ensures exists s :: IsDisplay(rows, s)
    decreases |rows|
  {
    if rows == map[] {
      assert IsDisplay(rows, []);
    } else {
      LastExists(rows);
      var last :| IsLast(rows, last);
      var rest := rows - {last};
      DisplayExists(rest);
      var s :| IsDisplay(rest, s);
      LastShownLast(rows, last, s);
    }
  }

  lemma LastShownLast(rows: Rows, last: VariantId, s: seq<VariantId>)
    requires IsLast(rows, last) && IsDisplay(rows - {last}, s)
    ensures IsDisplay(rows, s + [last])
  {
    var rest := rows - {last};
    assert forall i :: 0 <= i < |s| ==> s[i] in rest && rest[s[i]] == rows[s[i]];
    forall v | v in rows ensures v in s + [last] {
      if v != last { assert v in rest; }
    }
  }

  // ---------- Exact sets ----------

  lemma SameElements(a: seq<VariantId>, b: seq<VariantId>)
    requires Distinct(a) && Distinct(b)
    ensures multiset(a) == multiset(b) <==> |a| == |b| && Elements(b) <= Elements(a)
  {
    DistinctSize(a);
    DistinctSize(b);
    if |a| == |b| && Elements(b) <= Elements(a) {
      assert Elements(a) == Elements(b) by {
        assert |Elements(a) - Elements(b)| == |Elements(a)| - |Elements(b)|;
      }
      forall v ensures multiset(a)[v] == multiset(b)[v] {
        assert v in a <==> v in Elements(a);
        assert v in b <==> v in Elements(b);
        assert v in a <==> v in multiset(a);
        assert v in b <==> v in multiset(b);
      }
    }
    if multiset(a) == multiset(b) {
      assert |multiset(a)| == |multiset(b)|;
      forall v | v in Elements(b) ensures v in Elements(a) {
        assert v in multiset(b);
        assert v in multiset(a);
      }
    }
  }

  datatype ExactSet = Exact | Repeats | Different

  /** assertIsExactVariantSet accepts precisely the permutations of the product's variants. */
  method AssertIsExactVariantSet(existing: seq<VariantId>, variantIds: seq<VariantId>) returns (r: ExactSet)
    requires Distinct(existing)
    ensures r == Exact <==> multiset(variantIds) == multiset(existing)
    ensures r == Repeats <==> !Distinct(variantIds)
  {
    DistinctSize(variantIds);
    DistinctSize(existing);
    var sent := set v | v in variantIds;
    assert sent == Elements(variantIds);
    if |sent| != |variantIds| {
      if multiset(variantIds) == multiset(existing) {
        assert |multiset(variantIds)| == |multiset(existing)|;
        SameSize(variantIds, existing);
      }
      return Repeats;
    }
    SameElements(variantIds, existing);
    if |sent| != |existing| {
      return Different;
    }
    for i := 0 to |existing|
      invariant forall k :: 0 <= k < i ==> existing[k] in sent
    {
      if existing[i] !in sent {
        assert existing[i] in Elements(existing);
        return Different;
      }
    }
    return Exact;
  }

  /** Equal multisets have the same elements. */
  lemma SameSize(a: seq<VariantId>, b: seq<VariantId>)
    requires multiset(a) == multiset(b)
    ensures |a| == |b| && Elements(a) == Elements(b)
  {
    assert |multiset(a)| == |multiset(b)|;
    forall v ensures v in a <==> v in b {
      assert v in a <==> v in multiset(a);
      assert v in b <==> v in multiset(b);
    }
  }

  // ---------- Appending ----------

  /** One past the highest position in use. */
  method NextPosition(positions: seq<int>) returns (next: int)
    ensures next >= 0
    ensures forall i :: 0 <= i < |positions| ==> positions[i] < next
    ensures next == 0 || exists i :: 0 <= i < |positions| && positions[i] + 1 == next
  {
    next := 0;
    for i := 0 to |positions|
      invariant next >= 0
      invariant forall k :: 0 <= k < i ==> positions[k] < next
      invariant next == 0 || exists k :: 0 <= k < i && positions[k] + 1 == next
    {
      if positions[i] + 1 > next {
        next := positions[i] + 1;
      }
    }
  }

  lemma AppendedLast(rows: Rows, id: VariantId, variant: Variant, s: seq<VariantId>)
    requires id !in rows && IsDisplay(rows, s)
    requires forall v :: v in rows ==> rows[v].position < variant.position
    ensures IsDisplay(rows[id := variant], s + [id])
  {
  }

  // ---------- Adding while others write ----------

  /** What nextPosition gives on these rows. */
  ghost predicate IsNext(rows: Rows, next: int) {
    && next >= 0 && (forall v :: v in rows ==> rows[v].position < next)
    && (next == 0 || exists v :: v in rows && rows[v].position + 1 == next)
  }

  /** An add that read the positions before another inserted takes the same one, and is shown last exactly by the larger id. */
  lemma {:induction false} OverlappingAddLastIff(rows: Rows, a: VariantId, first: Variant, b: VariantId, second: Variant)
    requires a != b && a !in rows && b !in rows && IsNext(rows, first.position) && IsNext(rows, second.position)
    ensures first.position == second.position && (IsLast(rows[a := first][b := second], b) <==> a < b)
  {
    var all := rows[a := first][b := second];
    assert IsLast(all, b) ==> Before(all, a, b);
  }

  /** An add that read the positions before a reorder wrote them is shown last exactly when it clears the last place, or ties with it by a larger id. */
  lemma {:induction false} ReorderedAddLastIff(rows: Rows, ids: seq<VariantId>, id: VariantId, variant: Variant)
    requires Distinct(ids) && ids != [] && rows.Keys == Elements(ids) && id !in rows
    requires forall i :: 0 <= i < |ids| ==> rows[ids[i]].position == i
    ensures IsLast(rows[id := variant], id) <==>
            variant.position >= |ids| || (variant.position == |ids| - 1 && ids[|ids| - 1] < id)
  {
    var all, last := rows[id := variant], |ids| - 1;
    assert ids[last] in Elements(ids);
    assert IsLast(all, id) ==> Before(all, ids[last], id);
    forall u | u in rows ensures exists i :: 0 <= i < |ids| && ids[i] == u && rows[u].position == i {
      assert u in Elements(ids);
    }
  }

  // ---------- Creating ----------

  datatype Input = Input(sizeLabel: string, position: Option<int>, stock: Option<int>, dimensions: Dimensions)

  /** variantRows: no sizes means one, sizes keep the order they came in. */
  method VariantRows(variants: Option<seq<Input>>) returns (rows: Option<seq<Variant>>)
    ensures variants.None? || variants.value == [] ==> rows == Some([Variant(SINGLE_VARIANT_LABEL, 0, 0, UNMEASURED)])
    ensures rows.None? <==> variants.Some? && exists i, j :: 0 <= i < j < |variants.value| && variants.value[i].sizeLabel == variants.value[j].sizeLabel
    ensures rows.Some? ==> rows.value != [] && forall i, j :: 0 <= i < j < |rows.value| ==> rows.value[i].sizeLabel != rows.value[j].sizeLabel
    ensures rows.Some? && variants.Some? && variants.value != [] ==> |rows.value| == |variants.value|
    ensures rows.Some? && variants.Some? && variants.value != [] ==> forall i :: 0 <= i < |rows.value| ==>
              rows.value[i] == Variant(variants.value[i].sizeLabel,
                                       if variants.value[i].position.Some? then variants.value[i].position.value else i,
                                       if variants.value[i].stock.Some? then variants.value[i].stock.value else 0,
                                       variants.value[i].dimensions)
  {
    if variants.None? || variants.value == [] {
      return Some([Variant(SINGLE_VARIANT_LABEL, 0, 0, UNMEASURED)]);
    }
    var sent := variants.value;
    var repeated := exists i, j :: 0 <= i < j < |sent| && sent[i].sizeLabel == sent[j].sizeLabel;
    if repeated {
      return None;
    }
    return Some(seq(|sent|, i requires 0 <= i < |sent| =>
      Variant(sent[i].sizeLabel,
              if sent[i].position.Some? then sent[i].position.value else i,
              if sent[i].stock.Some? then sent[i].stock.value else 0,
              sent[i].dimensions)));
  }

  /** With no positions given, a product shows its sizes in the order they were sent, whatever ids they get. */
  lemma CreatedInOrder(rows: Rows, ids: seq<VariantId>)
    requires Distinct(ids) && rows.Keys == Elements(ids)
    requires forall i :: 0 <= i < |ids| ==> rows[ids[i]].position == i
    ensures IsDisplay(rows, ids)
    ensures forall s :: IsDisplay(rows, s) ==> s == ids
  {
    assert IsDisplay(rows, ids);
    forall s | IsDisplay(rows, s) ensures s == ids {
      DisplayIsUnique(rows, s, ids);
    }
  }

  // ---------- The product's sizes as an object ----------

  datatype Reordered = Reordered | ProductNotFound | NotExactSet

  datatype Added = Added | ProductMissing | LabelTaken

  class ProductVariants {
    /** Whether the product itself is there. */
    var found: bool
    var rows: Rows

    /** `existing` is what findMany returns, in whatever order. */
    method ReorderVariants(existing: seq<VariantId>, variantIds: seq<VariantId>) returns (r: Reordered)
      requires Distinct(existing) && Elements(existing) == rows.Keys
      modifies this
      ensures r == Reordered.Reordered <==> existing != [] && multiset(variantIds) == multiset(existing)
      ensures r == Reordered.Reordered ==>
                IsDisplay(rows, variantIds) && forall s :: IsDisplay(rows, s) ==> s == variantIds
      ensures r != Reordered.Reordered ==> rows == old(rows)
      ensures found == old(found)
      ensures rows.Keys == old(rows).Keys
      ensures forall v :: v in rows ==> rows[v] == old(rows)[v].(position := rows[v].position)
    {
      if existing == [] {
        return ProductNotFound;
      }
      var exact := AssertIsExactVariantSet(existing, variantIds);
      if exact != Exact {
        return NotExactSet;
      }
      SameSize(variantIds, existing);
      assert forall v :: v in variantIds ==> v in Elements(variantIds);
      for index := 0 to |variantIds|
        invariant rows.Keys == old(rows).Keys && found == old(found)
        invariant forall v :: v in rows ==> rows[v] == old(rows)[v].(position := rows[v].position)
        invariant forall k :: 0 <= k < index ==> rows[variantIds[k]].position == k
      {
        var id := variantIds[index];
        assert id in variantIds;
        rows := rows[id := rows[id].(position := index)];
      }
      CreatedInOrder(rows, variantIds);
      return Reordered.Reordered;
    }

    method AddVariant(listed: seq<VariantId>, id: VariantId, sizeLabel: string, position: Option<int>, stock: int, dimensions: Dimensions)
      returns (r: Added)
      requires id !in rows && Elements(listed) == rows.Keys
      modifies this
      ensures found == old(found)
      ensures r == ProductMissing <==> !found
      ensures r == LabelTaken <==> found && exists v :: v in old(rows) && old(rows)[v].sizeLabel == sizeLabel
      ensures r != Added.Added ==> rows == old(rows)
      ensures r == Added.Added ==> id in rows && rows == old(rows)[id := Variant(sizeLabel, rows[id].position, stock, dimensions)]
      ensures r == Added.Added && position.Some? ==> rows[id].position == position.value
      ensures r == Added.Added && position.None? ==> forall s :: IsDisplay(old(rows), s) ==> IsDisplay(rows, s + [id])
    {
      if !found {
        return ProductMissing;
      }
      if exists v :: v in rows && rows[v].sizeLabel == sizeLabel {
        return LabelTaken;
      }
      var at;
      if position.Some? {
        at := position.value;
      } else {
        assert forall i :: 0 <= i < |listed| ==> listed[i] in Elements(listed);
        var current := rows;
        var positions := seq(|listed|, i requires 0 <= i < |listed| && listed[i] in current => current[listed[i]].position);
        at := NextPosition(positions);
        forall v | v in rows ensures rows[v].position < at {
          assert v in Elements(listed);
          var i :| 0 <= i < |listed| && listed[i] == v;
          assert positions[i] == rows[v].position;
        }
        forall s | IsDisplay(rows, s) ensures IsDisplay(rows[id := Variant(sizeLabel, at, stock, dimensions)], s + [id]) {
          AppendedLast(rows, id, Variant(sizeLabel, at, stock, dimensions), s);
        }
      }
      rows := rows[id := Variant(sizeLabel, at, stock, dimensions)];
      return Added.Added;
    }
  }
}
