# Dripvault storefront: a verified model of the shop logic

Dripvault is a single-page storefront. Its page component (`src/App.tsx`) holds three pieces of
logic. This project models each one in Dafny and proves what it promises:

- **The catalog query.** The shopper picks a category, a size, a search text and a sort order.
  The page shows the products of the fixed catalog that match all three filters, optionally
  ordered by price. A "Clear Filters" button puts every choice back to its default.
- **The cart ledger.** The cart is an ordered list of lines, each a product with a quantity, and
  no two lines share a product id. The page can add a product, remove a line and set a quantity
  (never below 1). It also shows the subtotal and the number of items.
- **The messages.** The order message lists the cart and its total. The inquiry message asks
  about one product. Both are built as plain text before they are URL-encoded into a messaging
  link.

Modules:

- `Seqs` (`seqs.dfy`): the `Array.prototype.filter` model `Filter` and the subsequence relation.
- `Text` (`text.dfy`): the string operations the page uses. These are ECMAScript white space and
  `trim`, ASCII `toLowerCase`, `includes`, `join` and the decimal text of a number. It also has a
  `Split` that inverts `Join`, so facts about the messages can be stated.
- `Catalog` (`catalog.dfy`): the `Product` record, the eight-item `PRODUCTS` constant, the filter
  choices, and the card's primary-image choice.
- `KeySort` (`keysort.dfy`): a stable insertion sort by an integer key. `SortByKey` is the
  functional definition. `SortInPlace` sorts an array in place, as `data.sort` does, and is proved
  to give the same result. Any sorted arrangement that keeps the order of equal keys equals
  `SortByKey` (`IsStableSort`). So the model agrees with every stable sort, including the one
  ECMAScript has required of `Array.prototype.sort` since its 2019 edition.
- `Query` (`query.dfy`):
  - the `filtered` pipeline, both as a function (`Select`) and as a method (`Filtered`) that
    reassigns `data` stage by stage and sorts an array in place;
  - `isFiltered`;
  - the `FilterBar` state with `handleClearFilters`.
- `Ledger` (`ledger.dfy`): the cart operations as functions on `seq<CartLine>`, and a `Cart` class
  whose methods update its `lines` field. The methods keep the invariant that ids are unique and
  every quantity is at least 1.
- `Checkout` (`checkout.dfy`): the order text and the inquiry text.

Prices are `Option<nat>` whole euros, with `None` standing for JavaScript's `null`. The
expression `price || 0` becomes `PriceKey`. The truthiness test `price ? … : …` becomes
`HasShownPrice`, which treats a price of 0 like a missing one.

## Model

| member | source | states |
|---|---|---|
| Catalog.Product | src/App.tsx:4-13 | the product record; a price is whole euros or `None` for `null`, the gallery is optional |
| Catalog.PriceKey | src/App.tsx:191-192 | `price \|\| 0`, the sort key and the subtotal price; related to the shown price by `ShownPriceIsKey` |
| Catalog.HasShownPrice | src/App.tsx:228 | the truthiness test on the price; it holds exactly when `PriceKey` is above 0 (`ShownPriceIsKey`) |
| Catalog.PRODUCTS | src/App.tsx:15-24 | the eight catalog items; `CatalogIdsUnique`, `CatalogGalleries`, `CatalogPricesPositive`, `CatalogFilterChoices` and `CatalogIdLengths` state their properties |
| Catalog.ShownPriceIsKey | src/App.tsx:224-228 | a price is printed exactly when `price \|\| 0` is above 0, and the printed value is that key |
| Catalog.PrimaryImage | src/App.tsx:86 | with a non-empty gallery the shown image is in the gallery or is the legacy image; position 0 of a gallery that starts with the legacy image shows it |
| Catalog.CatalogIdsUnique | src/App.tsx:15-24 | no two catalog products share an id |
| Catalog.CatalogGalleries | src/App.tsx:15-24 | every catalog product has a non-empty gallery whose first image is its legacy image |
| Catalog.CatalogPricesPositive | src/App.tsx:15-24 | every price present in the catalog is above 0 |
| Catalog.CatalogFilterChoices | src/App.tsx:15-27 | every product's category and size are among the filter bar's choices |
| Catalog.CatalogIdLengths | src/App.tsx:15-24 | every catalog id has six characters |
| Seqs.Filter | src/App.tsx:185 | `filter` never lengthens the list |
| Seqs.FilterMembers | src/App.tsx:185-189 | an element is in the filtered list iff it is in the input and passes the test |
| Seqs.FilterIsSubsequence | src/App.tsx:185-189 | the filtered list is a subsequence of its input |
| Text.Lower | src/App.tsx:188-189 | `toLowerCase` on ASCII letters; `LowerIgnoresCase` states it is idempotent and forgets an uppercasing |
| Text.Join | src/App.tsx:230 | `join` with a one-character separator; `SplitJoin` and `JoinSplit` pair it with `Split` both ways |
| Text.TrimStart | src/App.tsx:181 | the result is a suffix of the input, only white space was dropped, and it does not start with white space |
| Text.TrimEnd | src/App.tsx:181 | the result is a prefix of the input, only white space was dropped, and it does not end with white space |
| Text.Trim | src/App.tsx:181 | `trim()` is empty exactly when the text is all white space; otherwise it neither starts nor ends with white space |
| Text.LowerIgnoresCase | src/App.tsx:188-189 | lowercasing is idempotent and ignores an earlier uppercasing |
| Text.Contains | src/App.tsx:189 | `includes(q)` holds iff `q` occurs at some position |
| Text.Split | src/App.tsx:230 | splitting gives at least one piece, and no piece holds the separator |
| Text.SplitJoin | src/App.tsx:230 | splitting joined pieces that hold no separator gives the pieces back |
| Text.JoinSplit | src/App.tsx:230 | joining split pieces gives back the text |
| Text.NatToString | src/App.tsx:228 | a number's decimal text is one or more digits |
| Text.ParseNatToString | src/App.tsx:228-229 | the decimal text reads back as the same number |
| Text.IntToString | src/App.tsx:228 | a quantity's text is non-empty, starts with a digit or '-', and holds no line break |
| KeySort.InsertPermutes | src/App.tsx:191-192 | one insertion step adds exactly the inserted element |
| KeySort.InsertSorted | src/App.tsx:191-192 | inserting into a sorted list keeps it sorted |
| KeySort.SortByKeySortsAndPermutes | src/App.tsx:191-192 | the sort is a permutation and is ordered by the key |
| KeySort.SortStable | src/App.tsx:191-192 | for every key value, the elements with that key keep their relative order |
| KeySort.StableSortUnique | src/App.tsx:191-192 | two sorted lists whose elements of each key appear in the same order are equal |
| KeySort.IsStableSort | src/App.tsx:191-192 | any sorted, order-keeping arrangement of a list is `SortByKey` of it |
| KeySort.InsertInPlace | src/App.tsx:191-192 | shifting element `i` left into the sorted prefix gives the functional insertion |
| KeySort.SortInPlace | src/App.tsx:191-192 | the in-place array sort leaves the array equal to `SortByKey` of its old contents |
| Query.IsFiltered | src/App.tsx:181 | `isFiltered`; `IsFilteredIffChanged`, `DefaultsNotFiltered` and `UnfilteredShowsCatalog` state what it means |
| Query.ByCategory | src/App.tsx:185 | the category stage; `ByCategoryIsTest` and `SelectMembers` state which products it keeps |
| Query.BySize | src/App.tsx:186 | the size stage; `BySizeIsTest` and `SelectMembers` state which products it keeps |
| Query.ByText | src/App.tsx:187-190 | the search stage; `ByTextIsTest`, `BlankQueryIgnored`, `EachFieldSuffices` and `SearchIgnoresCase` state which products it keeps |
| Query.Compare | src/App.tsx:191-192 | the two comparators `(a.price \|\| 0) - (b.price \|\| 0)` and its reverse; `CompareIsRank` ties them to the sort key |
| Query.Arrange | src/App.tsx:191-192 | the sort stage; `ArrangePermutes`, `AscendingByPrice`, `DescendingByPrice`, `UnpricedFirst`, `UnpricedLast`, `PriceSortIsStable` and `AscendingIsDetermined` state its properties |
| Query.Select | src/App.tsx:183-194 | the whole `filtered` list; `SelectMembers`, `FilterKeepsOrder`, `DefaultsShowCatalog` and `FeaturedKeepsOrder` state its properties, and `Filtered` computes it |
| Query.CompareIsRank | src/App.tsx:191-192 | the comparator `(a.price \|\| 0) - (b.price \|\| 0)` (or its reverse) is positive exactly when the sort key ranks `a` after `b`, and 0 exactly at equal prices |
| Query.Filtered | src/App.tsx:183-194 | the pipeline method computes `Select`: the category, size and text stages in turn, then the price sort on an array |
| Query.ByCategoryIsTest | src/App.tsx:185 | the category stage keeps exactly the products passing `category == "All" \|\| p.category == category` |
| Query.BySizeIsTest | src/App.tsx:186 | the size stage keeps exactly the products passing `size == "All" \|\| p.size == size` |
| Query.ByTextIsTest | src/App.tsx:187-190 | the text stage keeps exactly the products whose lowercased fields mention the lowercased query, or all of them for a blank query |
| Query.StagedIsOneFilter | src/App.tsx:184-190 | the three stages in a row equal one filter by all three tests |
| Query.SelectMembers | src/App.tsx:183-194 | a product is shown iff it is in the catalog and passes all three tests (sound and complete) |
| Query.FilterKeepsOrder | src/App.tsx:184-190 | before sorting, the result is a subsequence of the catalog |
| Query.ArrangePermutes | src/App.tsx:191-192 | sorting never adds, drops or duplicates a product |
| Query.DefaultsShowCatalog | src/App.tsx:174-177 | with the default choices the whole catalog is shown in catalog order |
| Query.UnfilteredShowsCatalog | src/App.tsx:181-194 | whenever `isFiltered` is false the whole catalog is shown in catalog order |
| Query.IsFilteredIffChanged | src/App.tsx:181 | `isFiltered` iff a choice differs from its default, a query counting only when it is not all white space |
| Query.BlankQueryIgnored | src/App.tsx:187 | a white-space-only query leaves the list unchanged |
| Query.EachFieldSuffices | src/App.tsx:188-189 | for a non-blank query, a product passes iff its name, category or condition, lowercased, contains the lowercased query |
| Query.SearchIgnoresCase | src/App.tsx:188-189 | uppercasing the query does not change what is shown |
| Query.SearchFindsLowercased | src/App.tsx:188-189 | "new" finds a product whose condition is "New with tags" |
| Query.SearchIsNotTrimmed | src/App.tsx:187-189 | the query is matched untrimmed: "Tee" finds "Trapstar Tee" but "Tee " does not |
| Query.AscendingByPrice | src/App.tsx:191 | "price_asc" orders by `price \|\| 0` from low to high |
| Query.DescendingByPrice | src/App.tsx:192 | "price_desc" orders by `price \|\| 0` from high to low |
| Query.UnpricedFirst | src/App.tsx:191 | from low to high, a product without a price comes before every product with a price above 0 |
| Query.UnpricedLast | src/App.tsx:192 | from high to low, a product without a price comes after every product with a price above 0 |
| Query.PriceSortIsStable | src/App.tsx:191-192 | for every price, the products at that price keep their relative order under any sort choice |
| Query.AscendingIsDetermined | src/App.tsx:191 | any arrangement sorted by price that keeps equal-price order is the model's "price_asc" result |
| Query.FeaturedKeepsOrder | src/App.tsx:191-192 | any sort choice other than the two price sorts leaves the filtered order as it is |
| Query.DefaultsNotFiltered | src/App.tsx:181 | the default choices are not filtered |
| Query.FilterBar.constructor | src/App.tsx:174-177 | the choices start as ("All", "All", "", "featured") |
| Query.FilterBar.ClearFilters | src/App.tsx:196-201 | `handleClearFilters` puts all four choices back to their defaults |
| Ledger.CartLine | src/App.tsx:167 | a cart line: a product and a quantity |
| Ledger.AddLine | src/App.tsx:203-212 | the cart after `addToCart`; `AddExisting`, `AddNew`, `AddTwice`, `AddWellFormed`, `AddCount` and `AddSubtotal` state its effect |
| Ledger.RemoveLine | src/App.tsx:217 | the cart after `removeFromCart`; `RemoveDropsOnlyId`, `RemoveKeepsOrder`, `RemoveAbsent`, `RemoveAt`, `RemoveWellFormed` and `RemoveCount` state its effect |
| Ledger.UpdateQuantity | src/App.tsx:221 | the cart after `updateQty`; `UpdateEffect`, `UpdateClamps`, `UpdateAbsent` and `UpdateWellFormed` state its effect |
| Ledger.Subtotal | src/App.tsx:224 | `subtotal`; `SubtotalExample`, `CountAtLeastLines`, `SubtotalZero` and `AddSubtotal` state its properties |
| Ledger.CartCount | src/App.tsx:225 | `cartCount`; `SubtotalExample`, `CountAtLeastLines`, `AddCount` and `RemoveCount` state its properties |
| Ledger.FirstIndex | src/App.tsx:205 | `findIndex`: -1 when no line has the id, otherwise the first line with it |
| Ledger.AddExisting | src/App.tsx:205-209 | adding a product already in the cart keeps the length, raises that line's quantity by 1 and leaves the other lines alone |
| Ledger.AddNew | src/App.tsx:211 | adding a product not in the cart appends it with quantity 1 |
| Ledger.AddTwice | src/App.tsx:203-212 | adding a new product twice gives one line with quantity 2 |
| Ledger.AddWellFormed | src/App.tsx:203-212 | adding keeps ids unique and every quantity at least 1 |
| Ledger.AddCount | src/App.tsx:203-225 | adding raises the item count by 1 |
| Ledger.AddSubtotal | src/App.tsx:203-224 | when every line with that id holds that product (always the case for catalog products, whose ids are unique), adding raises the subtotal by its `price \|\| 0` |
| Ledger.RemoveDropsOnlyId | src/App.tsx:216-218 | after removal no line has the id, and exactly the lines with other ids are kept |
| Ledger.RemoveKeepsOrder | src/App.tsx:217 | removal keeps the remaining lines in their order |
| Ledger.RemoveAbsent | src/App.tsx:217 | removing an id no line has leaves the cart identical |
| Ledger.RemoveAt | src/App.tsx:217 | in a cart with unique ids, removing line `i`'s id deletes exactly line `i` |
| Ledger.RemoveWellFormed | src/App.tsx:216-218 | removal keeps the cart invariant |
| Ledger.RemoveCount | src/App.tsx:216-225 | removing a line lowers the item count by its quantity |
| Ledger.UpdateEffect | src/App.tsx:220-222 | setting a quantity keeps length, order and products; matching lines get `max(1, qty)`, other lines are untouched |
| Ledger.UpdateClamps | src/App.tsx:221 | quantities 0 and -5 both act as 1 |
| Ledger.UpdateAbsent | src/App.tsx:221 | setting the quantity of an id no line has leaves the cart identical |
| Ledger.UpdateWellFormed | src/App.tsx:220-222 | setting a quantity keeps the cart invariant |
| Ledger.SubtotalExample | src/App.tsx:224-225 | a line at 65 with quantity 2 and an unpriced line with quantity 3 give subtotal 130 and count 5 |
| Ledger.CountAtLeastLines | src/App.tsx:224-225 | in a well-formed cart the item count is at least the number of lines, and the subtotal is not negative |
| Ledger.SubtotalZero | src/App.tsx:224 | in a well-formed cart the subtotal is 0 exactly when every line's `price \|\| 0` is 0 |
| Ledger.Cart.constructor | src/App.tsx:179 | the cart starts empty and well formed |
| Ledger.Cart.AddToCart | src/App.tsx:203-212 | the cart becomes `AddLine` of the old one (existing line +1, else appended with 1), and the invariant is kept |
| Ledger.Cart.RemoveFromCart | src/App.tsx:216-218 | the cart becomes `RemoveLine` of the old one, and the invariant is kept |
| Ledger.Cart.UpdateQty | src/App.tsx:220-222 | the cart becomes `UpdateQuantity` of the old one, and the invariant is kept |
| Checkout.LineText | src/App.tsx:228 | one cart line of the order; `OrderLinesShape`, `CheckoutExample` and `FilterParts` state its place and form |
| Checkout.TotalLine | src/App.tsx:229 | the total line; `TotalReadsBack` states its form and that it carries the subtotal |
| Checkout.CheckoutText | src/App.tsx:227-231 | the order text before encoding; `CheckoutIsJoin`, `OrderLinesShape`, `SplitCheckout`, `EmptyCartText` and `CheckoutExample` state its structure |
| Checkout.InquiryText | src/App.tsx:83 | the inquiry message before encoding; `InquiryEndsWithId`, `InquiryTellsIdsApart` and `CatalogInquiriesDistinct` state its properties |
| Checkout.FilterParts | src/App.tsx:230 | for every cart, `filter(Boolean)` drops only the total line, and only when the subtotal is not above 0 |
| Checkout.CheckoutIsJoin | src/App.tsx:227-230 | for every cart, the order text is the header, the cart lines in order and the total line when the subtotal is above 0, joined by line breaks |
| Checkout.OrderLinesShape | src/App.tsx:228-230 | for every well-formed cart, those lines are the header, then each cart line's text in cart order, then a total line exactly when some line's price is above 0 |
| Checkout.SplitCheckout | src/App.tsx:227-230 | when no product name holds a line break, the order text's lines are the header, then one line per cart line in cart order, then the total line exactly when the subtotal is above 0 |
| Checkout.TotalIffPriced | src/App.tsx:229-230 | for a well-formed cart whose product names hold no line break, splitting the text gives a total line iff some line's price is above 0 |
| Checkout.EmptyCartText | src/App.tsx:227-230 | an empty cart's order text is the header alone, with no total line |
| Checkout.CheckoutExample | src/App.tsx:227-230 | one product "X" at 65 gives the header, `1 x X @ €65` and `Total: €65.00` |
| Checkout.TotalReadsBack | src/App.tsx:229 | a total line starts with `Total: €`, ends with `.00`, and has between them the digits of the subtotal |
| Checkout.InquiryEndsWithId | src/App.tsx:83 | the inquiry message ends with the product id and the closing question |
| Checkout.InquiryTellsIdsApart | src/App.tsx:83 | two products whose different ids have the same length get different inquiries |
| Checkout.CatalogInquiriesDistinct | src/App.tsx:83 | every catalog product gets its own inquiry message |

## Left out

- Rendering, animation, the drawer and the Instagram/WhatsApp links are not modelled. Neither is
  `setCartOpen(true)` after an add (`src/App.tsx:213`). These are presentation.
- The `useState`/`useMemo` plumbing is left out. The filter choices are fields of
  `Query.FilterBar`, and the cart is the `lines` field of `Ledger.Cart`. The individual setters the
  filter bar calls (`setCategory`, `setQuery`, …) are plain assignments and are not modelled.
- `encodeURIComponent` is a library call. Both messages are modelled as the text before encoding.
- The `formatCurrency` display helper (`src/App.tsx:169-171`) is not modelled.
- `toFixed(2)` formats a floating-point number. `TotalLine` renders `toFixed(2)` of a whole-euro
  subtotal as its decimal digits followed by ".00". Floating-point precision and exponent notation
  for very large numbers are not modelled.
- `toLowerCase` is modelled on ASCII letters only. Other characters are left unchanged.
- Quantities are integers. A `NaN` or fractional `qty` passed to `updateQty` is not modelled.
- The gallery position `activeIdx` and its buttons are per-card view state and are left out. Only
  the image choice for a given position is modelled (`Catalog.PrimaryImage`).
- The sort comparator is modelled through its key. `Query.Arrange` sorts by `Rank`, and
  `Query.CompareIsRank` relates the key to the source's comparator.
- `vite.config.ts` is build configuration and is not part of this model.
- Checkout.SplitCheckout: requires that no product name holds a line break. A name holding one
  would split into more lines. No lemma states that the catalog's names are free of line breaks.
  `Checkout.CheckoutIsJoin` and `Checkout.OrderLinesShape` state the structure for every cart.
- Checkout.TotalIffPriced: requires, like `SplitCheckout`, that no product name holds a line
  break, because it counts the lines of the split text. `Checkout.OrderLinesShape` states the
  same fact for every well-formed cart, on the lines before they are joined.
