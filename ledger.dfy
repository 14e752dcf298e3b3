/**
 * The shopping cart of the storefront page (src/App.tsx, `CartLine`, `addToCart`,
 * `removeFromCart`, `updateQty`, `subtotal` and `cartCount`). The cart is a list of lines,
 * one per product id, each with a quantity of at least 1.
 */
module Ledger {
  import opened Seqs
  import opened Catalog

  datatype CartLine = CartLine(product: Product, quantity: int)

  /** No two lines are for the same product id. */
  predicate UniqueLineIds(lines: seq<CartLine>)
  {
    forall i, j :: 0 <= i < j < |lines| ==> lines[i].product.id != lines[j].product.id
  }

  /** The ledger invariant: one line per product id, and every quantity at least 1. */
  predicate WellFormed(lines: seq<CartLine>)
  {
    UniqueLineIds(lines) && forall k :: 0 <= k < |lines| ==> lines[k].quantity >= 1
  }

  /** `lines.findIndex((l) => l.product.id === id)`: the first line for `id`, or -1 when there is none. */
  function FirstIndex(lines: seq<CartLine>, id: string): (i: int)
    ensures -1 <= i < |lines|
    ensures i >= 0 ==> lines[i].product.id == id && forall k :: 0 <= k < i ==> lines[k].product.id != id
    ensures i == -1 ==> forall k :: 0 <= k < |lines| ==> lines[k].product.id != id
  {
    if lines == [] then -1
    else if lines[0].product.id == id then 0
    else
      var j := FirstIndex(lines[1..], id);
      if j < 0 then -1 else j + 1
  }

  /** `addToCart`: one more of the product on its existing line, or a new line of 1 at the end. */
  function AddLine(lines: seq<CartLine>, product: Product): seq<CartLine>
  {
    var idx := FirstIndex(lines, product.id);
    if idx >= 0 then lines[idx := lines[idx].(quantity := lines[idx].quantity + 1)]
    else lines + [CartLine(product, 1)]
  }

  function Keeps(id: string): CartLine -> bool
  {
    (l: CartLine) => l.product.id != id
  }

  /** `removeFromCart`: every line for `id` dropped. */
  function RemoveLine(lines: seq<CartLine>, id: string): seq<CartLine>
  {
    Filter(lines, Keeps(id))
  }

  function Max(a: int, b: int): int
  {
    if a >= b then a else b
  }

  /** `updateQty`: every line for `id` gets the quantity `Math.max(1, qty)`. */
  function UpdateQuantity(lines: seq<CartLine>, id: string, qty: int): seq<CartLine>
  {
    seq(|lines|, k requires 0 <= k < |lines| =>
      if lines[k].product.id == id then lines[k].(quantity := Max(1, qty)) else lines[k])
  }

  /** `lines.reduce((acc, l) => acc + f(l), 0)`, folded from the left. */
  function Sum(lines: seq<CartLine>, f: CartLine -> int): int
  {
    if lines == [] then 0 else Sum(lines[..|lines| - 1], f) + f(lines[|lines| - 1])
  }

  /** What one line adds to the subtotal: `(l.product.price || 0) * l.quantity`. */
  const LineAmount: CartLine -> int := (l: CartLine) => PriceKey(l.product) * l.quantity

  /** What one line adds to the item count. */
  const LineCount: CartLine -> int := (l: CartLine) => l.quantity

  /** `subtotal`: price (0 when missing) times quantity, summed over the lines. */
  function Subtotal(lines: seq<CartLine>): int
  {
    Sum(lines, LineAmount)
  }

  /** `cartCount`: the quantities summed over the lines. */
  function CartCount(lines: seq<CartLine>): int
  {
    Sum(lines, LineCount)
  }

  lemma {:induction false} SumAppend(a: seq<CartLine>, b: seq<CartLine>, f: CartLine -> int)
    ensures Sum(a + b, f) == Sum(a, f) + Sum(b, f)
    decreases |b|
  {
    if b != [] {
      var init := b[..|b| - 1];
      assert (a + b)[..|a + b| - 1] == a + init;
      SumAppend(a, init, f);
      assert b == init + [b[|b| - 1]];
    } else {
      assert a + b == a;
    }
  }

  lemma SumSingle(l: CartLine, f: CartLine -> int)
    ensures Sum([l], f) == f(l)
  {
    assert [l][..0] == [];
  }

  /** Replacing one line changes a sum by the difference of that line's terms. */
  lemma SumUpdate(lines: seq<CartLine>, i: nat, l: CartLine, f: CartLine -> int)
    requires i < |lines|
    ensures Sum(lines[i := l], f) == Sum(lines, f) - f(lines[i]) + f(l)
  {
    var before, after := lines[..i], lines[i + 1..];
    assert lines == before + [lines[i]] + after;
    assert lines[i := l] == before + [l] + after;
    SumAppend(before + [lines[i]], after, f);
    SumAppend(before, [lines[i]], f);
    SumAppend(before + [l], after, f);
    SumAppend(before, [l], f);
    SumSingle(lines[i], f);
    SumSingle(l, f);
  }

  /** A sum of terms that are each at least `m` is at least `m` times the number of lines. */
  lemma {:induction false} SumLowerBound(lines: seq<CartLine>, f: CartLine -> int, m: int)
    requires forall k :: 0 <= k < |lines| ==> f(lines[k]) >= m
    ensures Sum(lines, f) >= m * |lines|
  {
    if lines != [] {
      SumLowerBound(lines[..|lines| - 1], f, m);
    }
  }

  /** When `id` already has a line, adding keeps its product and raises its quantity by 1, and nothing else changes. */
  lemma AddExisting(lines: seq<CartLine>, product: Product, k: nat)
    requires UniqueLineIds(lines)
    requires k < |lines| && lines[k].product.id == product.id
    ensures |AddLine(lines, product)| == |lines|
    ensures AddLine(lines, product)[k] == CartLine(lines[k].product, lines[k].quantity + 1)
    ensures forall j :: 0 <= j < |lines| && j != k ==> AddLine(lines, product)[j] == lines[j]
  {
    var idx := FirstIndex(lines, product.id);
    assert idx == k;
  }

  /** A product without a line is appended as a new line of quantity 1. */
  lemma AddNew(lines: seq<CartLine>, product: Product)
    requires forall k :: 0 <= k < |lines| ==> lines[k].product.id != product.id
    ensures AddLine(lines, product) == lines + [CartLine(product, 1)]
  {
  }

  /** Adding the same new product twice gives one line of quantity 2. */
  lemma AddTwice(lines: seq<CartLine>, product: Product)
    requires forall k :: 0 <= k < |lines| ==> lines[k].product.id != product.id
    ensures AddLine(AddLine(lines, product), product) == lines + [CartLine(product, 2)]
  {
    var once := lines + [CartLine(product, 1)];
    AddNew(lines, product);
    assert once[|lines|].product.id == product.id;
    assert forall k :: 0 <= k < |lines| ==> once[k] == lines[k];
    assert FirstIndex(once, product.id) == |lines|;
  }

  /** Adding keeps the ledger invariant. */
  lemma AddWellFormed(lines: seq<CartLine>, product: Product)
    requires WellFormed(lines)
    ensures WellFormed(AddLine(lines, product))
  {
    var r := AddLine(lines, product);
    var idx := FirstIndex(lines, product.id);
    if idx >= 0 {
      assert forall k :: 0 <= k < |r| ==> r[k].product == lines[k].product;
    } else {
      assert forall k :: 0 <= k < |lines| ==> r[k] == lines[k];
    }
  }

  /** Adding raises the item count by 1. */
  lemma AddCount(lines: seq<CartLine>, product: Product)
    ensures CartCount(AddLine(lines, product)) == CartCount(lines) + 1
  {
    var idx := FirstIndex(lines, product.id);
    if idx >= 0 {
      SumUpdate(lines, idx, lines[idx].(quantity := lines[idx].quantity + 1), LineCount);
    } else {
      SumAppend(lines, [CartLine(product, 1)], LineCount);
      SumSingle(CartLine(product, 1), LineCount);
    }
  }

  /** When every line for the product's id holds that same product, adding raises the subtotal by its price (0 when missing). */
  lemma AddSubtotal(lines: seq<CartLine>, product: Product)
    requires forall k :: 0 <= k < |lines| && lines[k].product.id == product.id ==> lines[k].product == product
    ensures Subtotal(AddLine(lines, product)) == Subtotal(lines) + PriceKey(product)
  {
    var idx := FirstIndex(lines, product.id);
    if idx >= 0 {
      SumUpdate(lines, idx, lines[idx].(quantity := lines[idx].quantity + 1), LineAmount);
    } else {
      SumAppend(lines, [CartLine(product, 1)], LineAmount);
      SumSingle(CartLine(product, 1), LineAmount);
    }
  }

  /** After removal no line is for `id`, and every other line is still there. */
  lemma RemoveDropsOnlyId(lines: seq<CartLine>, id: string)
    ensures forall k :: 0 <= k < |RemoveLine(lines, id)| ==> RemoveLine(lines, id)[k].product.id != id
    ensures forall l :: l in RemoveLine(lines, id) <==> l in lines && l.product.id != id
  {
    FilterMembers(lines, Keeps(id));
    forall k | 0 <= k < |RemoveLine(lines, id)| ensures RemoveLine(lines, id)[k].product.id != id {
      assert RemoveLine(lines, id)[k] in RemoveLine(lines, id);
    }
  }

  /** Removal keeps the order of the remaining lines. */
  lemma RemoveKeepsOrder(lines: seq<CartLine>, id: string)
    ensures IsSubsequence(RemoveLine(lines, id), lines)
  {
    FilterIsSubsequence(lines, Keeps(id));
  }

  /** Removing an id that has no line changes nothing. */
  lemma RemoveAbsent(lines: seq<CartLine>, id: string)
    requires forall k :: 0 <= k < |lines| ==> lines[k].product.id != id
    ensures RemoveLine(lines, id) == lines
  {
    FilterKeepsAll(lines, Keeps(id));
  }

  /** In a ledger with unique ids, removing the id of line `i` takes out exactly that line. */
  lemma RemoveAt(lines: seq<CartLine>, i: nat)
    requires UniqueLineIds(lines) && i < |lines|
    ensures RemoveLine(lines, lines[i].product.id) == lines[..i] + lines[i + 1..]
  {
    var id := lines[i].product.id;
    var before, after := lines[..i], lines[i + 1..];
    assert lines == before + [lines[i]] + after;
    assert forall k :: 0 <= k < |before| ==> before[k] == lines[k];
    assert forall k :: 0 <= k < |after| ==> after[k] == lines[i + 1 + k];
    FilterDropsOne(before, lines[i], after, Keeps(id));
  }

  lemma SlicesWellFormed(lines: seq<CartLine>, i: nat)
    requires WellFormed(lines) && i < |lines|
    ensures WellFormed(lines[..i] + lines[i + 1..])
  {
    var r := lines[..i] + lines[i + 1..];
    assert forall k :: 0 <= k < |r| ==> r[k] == lines[if k < i then k else k + 1];
  }

  /** Removal keeps the ledger invariant. */
  lemma RemoveWellFormed(lines: seq<CartLine>, id: string)
    requires WellFormed(lines)
    ensures WellFormed(RemoveLine(lines, id))
  {
    var idx := FirstIndex(lines, id);
    if idx >= 0 {
      RemoveAt(lines, idx);
      SlicesWellFormed(lines, idx);
    } else {
      RemoveAbsent(lines, id);
    }
  }

  /** In a ledger with unique ids, removing the id of line `i` lowers the item count by that line's quantity. */
  lemma RemoveCount(lines: seq<CartLine>, i: nat)
    requires UniqueLineIds(lines) && i < |lines|
    ensures CartCount(RemoveLine(lines, lines[i].product.id)) == CartCount(lines) - lines[i].quantity
  {
    RemoveAt(lines, i);
    var before, after := lines[..i], lines[i + 1..];
    assert lines == before + [lines[i]] + after;
    SumAppend(before + [lines[i]], after, LineCount);
    SumAppend(before, [lines[i]], LineCount);
    SumAppend(before, after, LineCount);
    SumSingle(lines[i], LineCount);
  }

  /**
   * Updating never removes or reorders lines: every line keeps its product, a line for `id`
   * gets at least 1, and every other line is unchanged.
   */
  lemma UpdateEffect(lines: seq<CartLine>, id: string, qty: int)
    ensures |UpdateQuantity(lines, id, qty)| == |lines|
    ensures forall k :: 0 <= k < |lines| ==> UpdateQuantity(lines, id, qty)[k].product == lines[k].product
    ensures forall k :: 0 <= k < |lines| && lines[k].product.id == id ==>
      UpdateQuantity(lines, id, qty)[k].quantity == (if qty >= 1 then qty else 1)
    ensures forall k :: 0 <= k < |lines| && lines[k].product.id != id ==> UpdateQuantity(lines, id, qty)[k] == lines[k]
  {
  }

  /** A quantity of 0 or below is clamped to 1: 0 and -5 both give 1, and the line stays in the cart. */
  lemma UpdateClamps(lines: seq<CartLine>, id: string)
    ensures UpdateQuantity(lines, id, 0) == UpdateQuantity(lines, id, 1)
    ensures UpdateQuantity(lines, id, -5) == UpdateQuantity(lines, id, 1)
  {
  }

  /** Updating an id that has no line changes nothing. */
  lemma UpdateAbsent(lines: seq<CartLine>, id: string, qty: int)
    requires forall k :: 0 <= k < |lines| ==> lines[k].product.id != id
    ensures UpdateQuantity(lines, id, qty) == lines
  {
  }

  /** Updating keeps the ledger invariant, whatever quantity is typed. */
  lemma UpdateWellFormed(lines: seq<CartLine>, id: string, qty: int)
    requires WellFormed(lines)
    ensures WellFormed(UpdateQuantity(lines, id, qty))
  {
    UpdateEffect(lines, id, qty);
  }

  /** `[{price 65, quantity 2}, {price null, quantity 3}]` has subtotal 130 and item count 5. */
  lemma SubtotalExample(a: Product, b: Product)
    requires a.price == Some(65) && b.price == None
    ensures Subtotal([CartLine(a, 2), CartLine(b, 3)]) == 130
    ensures CartCount([CartLine(a, 2), CartLine(b, 3)]) == 5
  {
    var lines := [CartLine(a, 2), CartLine(b, 3)];
    assert lines[..1] == [CartLine(a, 2)];
    SumSingle(CartLine(a, 2), LineAmount);
    SumSingle(CartLine(a, 2), LineCount);
  }

  /** In a well-formed cart the item count is at least the number of lines, and the subtotal is not negative. */
  lemma CountAtLeastLines(lines: seq<CartLine>)
    requires WellFormed(lines)
    ensures CartCount(lines) >= |lines|
    ensures Subtotal(lines) >= 0
  {
    SumLowerBound(lines, LineCount, 1);
    SumLowerBound(lines, LineAmount, 0);
  }

  /** In a well-formed cart the subtotal is 0 exactly when no line has a price above 0. */
  lemma {:induction false} SubtotalZero(lines: seq<CartLine>)
    requires WellFormed(lines)
    ensures Subtotal(lines) == 0 <==> forall k :: 0 <= k < |lines| ==> PriceKey(lines[k].product) == 0
  {
    if lines != [] {
      var init := lines[..|lines| - 1];
      assert WellFormed(init);
      SubtotalZero(init);
      CountAtLeastLines(init);
      var last := lines[|lines| - 1];
      assert LineAmount(last) == PriceKey(last.product) * last.quantity;
      if PriceKey(last.product) > 0 {
        assert PriceKey(last.product) * last.quantity >= 1;
      }
    }
  }

  /** The cart the page keeps as state; each operation replaces the list of lines. */
  class Cart {
    var lines: seq<CartLine>

    ghost predicate Valid()
      reads this
    {
      WellFormed(lines)
    }

    constructor()
      ensures lines == [] && Valid()
    {
      lines := [];
    }

    /** `addToCart`: the line is found with `findIndex`, then copied with its quantity raised, or a new line is appended. */
    method AddToCart(product: Product)
      modifies this
      ensures lines == AddLine(old(lines), product)
      ensures old(Valid()) ==> Valid()
    {
      var prev := lines;
      var idx := FirstIndex(prev, product.id);
      if idx >= 0 {
        var copy := prev;
        copy := copy[idx := copy[idx].(quantity := copy[idx].quantity + 1)];
        lines := copy;
      } else {
        lines := prev + [CartLine(product, 1)];
      }
      if WellFormed(prev) {
        AddWellFormed(prev, product);
      }
    }

    /** `removeFromCart`. */
    method RemoveFromCart(id: string)
      modifies this
      ensures lines == RemoveLine(old(lines), id)
      ensures old(Valid()) ==> Valid()
    {
      var prev := lines;
      lines := Filter(prev, Keeps(id));
      if WellFormed(prev) {
        RemoveWellFormed(prev, id);
      }
    }

    /** `updateQty`. */
    method UpdateQty(id: string, qty: int)
      modifies this
      ensures lines == UpdateQuantity(old(lines), id, qty)
      ensures old(Valid()) ==> Valid()
    {
      var prev := lines;
      lines := UpdateQuantity(prev, id, qty);
      if WellFormed(prev) {
        UpdateWellFormed(prev, id, qty);
      }
    }
  }
}
