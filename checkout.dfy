/**
 * The order and inquiry messages of the storefront page (src/App.tsx, `checkoutText` and the
 * product card's `message`), as text before it is URL-encoded for the messaging link.
 */
module Checkout {
  import opened Seqs
  import opened Text
  import opened Catalog
  import opened Ledger

  const Header := "Hi DripVault Plug, I'd like to order:"

  /** One line per cart line: `"<quantity> x <name>"`, then `" @ €<price>"` when the price is shown. */
  function LineText(l: CartLine): string
  {
    IntToString(l.quantity) + " x " + l.product.name
    + (if HasShownPrice(l.product) then " @ €" + NatToString(l.product.price.value) else "")
  }

  /** `subtotal > 0 ? "Total: €" + subtotal.toFixed(2) : ""`, for a subtotal in whole euros. */
  function TotalLine(subtotal: int): string
  {
    if subtotal > 0 then "Total: €" + IntToString(subtotal) + ".00" else ""
  }

  function LineTexts(lines: seq<CartLine>): seq<string>
  {
    seq(|lines|, k requires 0 <= k < |lines| => LineText(lines[k]))
  }

  /** The header, the cart lines and the total line, before empty entries are dropped. */
  function Parts(lines: seq<CartLine>): seq<string>
  {
    [Header] + LineTexts(lines) + [TotalLine(Subtotal(lines))]
  }

  /** The test `filter(Boolean)` applies to a string: it is kept when it is not empty. */
  const NonEmpty: string -> bool := (s: string) => s != ""

  /** `checkoutText` before encoding: the parts with empty ones dropped (`filter(Boolean)`), joined by newlines. */
  function CheckoutText(lines: seq<CartLine>): string
  {
    Join(Filter(Parts(lines), NonEmpty), '\n')
  }

  const InquiryTail := "). Is it still available?"

  /** The product card's inquiry message. */
  function InquiryText(p: Product): string
  {
    "Hi DripVault Plug, I'm interested in: " + p.name + " (ID: " + p.id + InquiryTail
  }

  /** The pieces of the order text a line break could come from, when no product name has one. */
  predicate NoBreakInNames(lines: seq<CartLine>)
  {
    forall k :: 0 <= k < |lines| ==> '\n' !in lines[k].product.name
  }

  lemma DigitsHaveNoBreak(s: string)
    requires forall k :: 0 <= k < |s| ==> IsDigit(s[k])
    ensures '\n' !in s
  {
    forall k | 0 <= k < |s| ensures s[k] != '\n' {
      assert IsDigit(s[k]);
    }
  }

  lemma LineTextShape(l: CartLine)
    requires '\n' !in l.product.name
    ensures LineText(l) != "" && '\n' !in LineText(l)
  {
    if HasShownPrice(l.product) {
      DigitsHaveNoBreak(NatToString(l.product.price.value));
    }
  }

  lemma TotalLineShape(subtotal: int)
    ensures '\n' !in TotalLine(subtotal)
    ensures TotalLine(subtotal) == "" <==> subtotal <= 0
  {
    if subtotal > 0 {
      DigitsHaveNoBreak(NatToString(subtotal));
    }
  }

  /** The text a line break cannot come from. */
  lemma HeaderHasNoBreak()
    ensures Header != "" && '\n' !in Header
  {
    assert forall k :: 0 <= k < |Header| ==> Header[k] != '\n';
  }

  /** The lines of the order text, before joining: the header, one line per cart line, and the total when it is above 0. */
  function OrderLines(lines: seq<CartLine>): seq<string>
  {
    [Header] + LineTexts(lines) + (if Subtotal(lines) > 0 then [TotalLine(Subtotal(lines))] else [])
  }

  /** Every cart line's text holds at least `" x "`, so `filter(Boolean)` never drops one. */
  lemma FilterParts(lines: seq<CartLine>)
    ensures Filter(Parts(lines), NonEmpty) == OrderLines(lines)
  {
    var texts := LineTexts(lines);
    var total := TotalLine(Subtotal(lines));
    HeaderHasNoBreak();
    TotalLineShape(Subtotal(lines));
    forall k | 0 <= k < |texts| ensures NonEmpty(texts[k]) {
      assert |LineText(lines[k])| >= 3;
    }
    FilterAppend([Header] + texts, [total], NonEmpty);
    FilterAppend([Header], texts, NonEmpty);
    FilterKeepsAll(texts, NonEmpty);
    assert Filter([Header], NonEmpty) == [Header];
    assert Filter([total], NonEmpty) == if Subtotal(lines) > 0 then [total] else [];
  }

  /**
   * Splitting the order text at its line breaks gives back the header, one line per cart line in
   * cart order, and a total line exactly when the subtotal is above 0.
   */
  lemma SplitCheckout(lines: seq<CartLine>)
    requires NoBreakInNames(lines)
    ensures Split(CheckoutText(lines), '\n') == OrderLines(lines)
  {
    FilterParts(lines);
    var parts := OrderLines(lines);
    HeaderHasNoBreak();
    TotalLineShape(Subtotal(lines));
    forall k | 0 <= k < |parts| ensures '\n' !in parts[k] {
      if 1 <= k <= |lines| {
        LineTextShape(lines[k - 1]);
      }
    }
    SplitJoin(parts, '\n');
  }

  /** For every cart, the order text is its order lines joined by line breaks. */
  lemma CheckoutIsJoin(lines: seq<CartLine>)
    ensures CheckoutText(lines) == Join(OrderLines(lines), '\n')
  {
    FilterParts(lines);
  }

  /**
   * For every well-formed cart, the order lines are the header, then one line per cart line in
   * cart order, then a total line exactly when some line's price is above 0.
   */
  lemma OrderLinesShape(lines: seq<CartLine>)
    requires WellFormed(lines)
    ensures OrderLines(lines)[0] == Header
    ensures forall k :: 0 <= k < |lines| ==> OrderLines(lines)[k + 1] == LineText(lines[k])
    ensures |OrderLines(lines)| == |lines| + 2 <==> exists k :: 0 <= k < |lines| && PriceKey(lines[k].product) > 0
    ensures |OrderLines(lines)| == |lines| + 1 <==> forall k :: 0 <= k < |lines| ==> PriceKey(lines[k].product) == 0
  {
    SubtotalZero(lines);
    CountAtLeastLines(lines);
  }

  /** A total line is written exactly when some line in a well-formed cart has a price above 0. */
  lemma TotalIffPriced(lines: seq<CartLine>)
    requires WellFormed(lines) && NoBreakInNames(lines)
    ensures |Split(CheckoutText(lines), '\n')| == |lines| + 2 <==>
      exists k :: 0 <= k < |lines| && PriceKey(lines[k].product) > 0
    ensures |Split(CheckoutText(lines), '\n')| == |lines| + 1 <==>
      forall k :: 0 <= k < |lines| ==> PriceKey(lines[k].product) == 0
  {
    SplitCheckout(lines);
    SubtotalZero(lines);
    CountAtLeastLines(lines);
  }

  /** An empty cart orders with the header alone. */
  lemma EmptyCartText()
    ensures CheckoutText([]) == Header
  {
    FilterParts([]);
    assert OrderLines([]) == [Header];
  }

  /** One product "X" at 65 euros: the header, `1 x X @ €65` and `Total: €65.00`. */
  lemma CheckoutExample(p: Product)
    requires p.name == "X" && p.price == Some(65)
    ensures CheckoutText([CartLine(p, 1)]) == Header + "\n" + "1 x X @ €65" + "\n" + "Total: €65.00"
  {
    var lines := [CartLine(p, 1)];
    assert Subtotal(lines) == 65 by {
      SumSingle(CartLine(p, 1), LineAmount);
    }
    assert NatToString(65) == "65";
    assert IntToString(1) == "1";
    assert LineText(lines[0]) == "1 x X @ €65";
    assert TotalLine(65) == "Total: €65.00";
    FilterParts(lines);
    assert LineTexts(lines) == ["1 x X @ €65"];
    var xs := [Header, "1 x X @ €65", "Total: €65.00"];
    assert OrderLines(lines) == xs;
    assert xs[1..] == ["1 x X @ €65", "Total: €65.00"] && xs[1..][1..] == ["Total: €65.00"];
    assert Join(xs[1..][1..], '\n') == "Total: €65.00";
    assert Join(xs[1..], '\n') == "1 x X @ €65" + "\n" + "Total: €65.00";
  }

  /** The total line carries the subtotal: the digits between `"Total: €"` and `".00"` read back as the subtotal. */
  lemma TotalReadsBack(subtotal: int)
    requires subtotal > 0
    ensures var t := TotalLine(subtotal);
      |t| >= 12 && t[..8] == "Total: €" && t[|t| - 3..] == ".00" &&
      (forall k :: 8 <= k < |t| - 3 ==> IsDigit(t[k])) && ParseNat(t[8..|t| - 3]) == subtotal
  {
    var digits := NatToString(subtotal);
    var t := TotalLine(subtotal);
    assert t == "Total: €" + digits + ".00";
    assert t[8..|t| - 3] == digits;
    ParseNatToString(subtotal);
  }

  /** The inquiry message ends with the product id and the closing question. */
  lemma InquiryEndsWithId(p: Product)
    ensures |InquiryText(p)| >= |p.id| + |InquiryTail|
    ensures InquiryText(p)[|InquiryText(p)| - |InquiryTail| - |p.id|..] == p.id + InquiryTail
  {
  }

  /** Two products whose ids differ but have the same length get different inquiries. */
  lemma InquiryTellsIdsApart(p: Product, q: Product)
    requires |p.id| == |q.id| && p.id != q.id
    ensures InquiryText(p) != InquiryText(q)
  {
    InquiryEndsWithId(p);
    InquiryEndsWithId(q);
    assert (p.id + InquiryTail)[..|p.id|] == p.id;
    assert (q.id + InquiryTail)[..|q.id|] == q.id;
  }

  /** Every product of the catalog gets its own inquiry message. */
  lemma CatalogInquiriesDistinct()
    ensures forall i, j :: 0 <= i < j < |PRODUCTS| ==> InquiryText(PRODUCTS[i]) != InquiryText(PRODUCTS[j])
  {
    CatalogIdsUnique();
    CatalogIdLengths();
    forall i, j | 0 <= i < j < |PRODUCTS| ensures InquiryText(PRODUCTS[i]) != InquiryText(PRODUCTS[j]) {
      InquiryTellsIdsApart(PRODUCTS[i], PRODUCTS[j]);
    }
  }
}
