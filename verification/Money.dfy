/** How much is in a cart or an order, and what that number means piece by piece. */
module Money {
  import opened Rows
  import opened Seqs

  /** Unit price times quantity, over the lines. */
  function ItemsSubtotalCents(items: seq<Item>): int {
    if items == [] then 0
    else ItemsSubtotalCents(items[..|items| - 1]) + items[|items| - 1].unitPriceCents * items[|items| - 1].quantity
  }

  /** Pieces, not lines. */
  function ItemCount(items: seq<Item>): int {
    if items == [] then 0 else ItemCount(items[..|items| - 1]) + items[|items| - 1].quantity
  }

  // ---------- Piece by piece ----------

  /** The price of each piece: a line's unit price as often as its quantity. */
  ghost function PiecePrices(items: seq<Item>): seq<int> {
    if items == [] then []
    else seq(if items[0].quantity < 0 then 0 else items[0].quantity, _ => items[0].unitPriceCents) + PiecePrices(items[1..])
  }

  predicate Counted(items: seq<Item>) {
    forall i :: 0 <= i < |items| ==> items[i].quantity >= 0
  }

  lemma {:induction false} SplitFirst(items: seq<Item>)
    requires items != []
    ensures ItemsSubtotalCents(items) == items[0].unitPriceCents * items[0].quantity + ItemsSubtotalCents(items[1..])
    ensures ItemCount(items) == items[0].quantity + ItemCount(items[1..])
    decreases |items|
  {
    var init, rest := items[..|items| - 1], items[1..];
    if |items| > 1 {
      SplitFirst(init);
      assert init[1..] == rest[..|rest| - 1] && rest[|rest| - 1] == items[|items| - 1];
    } else {
      assert init == [] && rest == [];
    }
  }

  /** The subtotal is the sum of the prices of all the pieces, and the count is how many pieces there are. */
  lemma {:induction false} SubtotalIsPieceByPiece(items: seq<Item>)
    requires Counted(items)
    ensures ItemsSubtotalCents(items) == Sum(PiecePrices(items))
    ensures ItemCount(items) == |PiecePrices(items)|
    decreases |items|
  {
    if items != [] {
      var first := items[0];
      SplitFirst(items);
      SubtotalIsPieceByPiece(items[1..]);
      SumOfSame(first.quantity, first.unitPriceCents);
      SumConcat(seq(first.quantity, _ => first.unitPriceCents), PiecePrices(items[1..]));
    }
  }

  /** One more piece of a line costs exactly that line's unit price, whatever else is in there. */
  lemma {:induction false} OneMorePiece(items: seq<Item>, i: nat)
    requires i < |items|
    ensures var more := items[i := items[i].(quantity := items[i].quantity + 1)];
      && ItemsSubtotalCents(more) == ItemsSubtotalCents(items) + items[i].unitPriceCents
      && ItemCount(more) == ItemCount(items) + 1
    decreases |items|
  {
    var more, last := items[i := items[i].(quantity := items[i].quantity + 1)], |items| - 1;
    if i == last {
      assert more[..last] == items[..last];
      assert items[i].unitPriceCents * (items[i].quantity + 1) == items[i].unitPriceCents * items[i].quantity + items[i].unitPriceCents;
    } else {
      OneMorePiece(items[..last], i);
      assert more[..last] == items[..last][i := more[i]] && more[last] == items[last];
    }
  }
}
