/** The product record and the storefront's fixed catalog (src/App.tsx, `Product` and `PRODUCTS`). */
module Catalog {

  datatype Option<+T> = None | Some(value: T)

  /**
   * A catalog item. `price` is a whole number of euros, or `None` for "DM for Price".
   * `image` is the legacy single image; `images` the optional gallery, primary first.
   */
  datatype Product = Product(
    id: string,
    name: string,
    price: Option<nat>,
    size: string,
    category: string,
    condition: string,
    image: string,
    images: Option<seq<string>>)

  /** `p.price || 0`: a missing price and a price of 0 both count as 0. */
  function PriceKey(p: Product): nat
  {
    match p.price
    case None => 0
    case Some(n) => n
  }

  /** The truthiness test `p.price ? … : …`: a price is shown only when it is present and not 0. */
  predicate HasShownPrice(p: Product)
  {
    p.price.Some? && p.price.value != 0
  }

  lemma ShownPriceIsKey(p: Product)
    ensures HasShownPrice(p) <==> PriceKey(p) > 0
    ensures HasShownPrice(p) ==> p.price.value == PriceKey(p)
  {
  }

  const PRODUCTS: seq<Product> := [
    Product("dv-001", "Barcelona 25/26 Home Shirt", Some(65), "M", "Football Shirts", "New with tags",
      "/images/barcelona_jersey.jpg", Some(["/images/barcelona_jersey.jpg", "/images/barcelona_jersey_2.jpg"])),
    Product("dv-002", "Milan 24/25 Home Shirt", Some(65), "M", "Football Shirts", "New with tags",
      "/images/milan_jersey.jpg", Some(["/images/milan_jersey.jpg", "/images/milan_jersey_2.jpg"])),
    Product("dv-003", "Corteiz France Tee Black", Some(75), "S", "Designer Clothing", "New with tags",
      "/images/corteiz_france_tee.jpg", Some(["/images/corteiz_france_tee.jpg", "/images/corteiz_france_tee_2.jpg"])),
    Product("dv-004", "Corteiz OG Island Tee Black", None, "M", "Designer Clothing", "Brand New",
      "/images/corteiz_og_tee.jpg", Some(["/images/corteiz_og_tee.jpg", "/images/corteiz_og_tee_2.jpg"])),
    Product("dv-005", "Trapstar Tee", None, "M", "Designer Clothing", "Used, Like New",
      "/images/trapstar_tee.jpg", Some(["/images/trapstar_tee.jpg", "/images/trapstar_tee_2.jpg"])),
    Product("dv-006", "Black Yeezy Slides", None, "44", "Footwear", "Brand New",
      "/images/yeezy_slides.jpg", Some(["/images/yeezy_slides.jpg", "/images/yeezy_slides_2.jpg"])),
    Product("dv-007", "New Product 1", Some(80), "L", "Designer Clothing", "New with tags",
      "/images/new_product_1.jpg", Some(["/images/new_product_1.jpg", "/images/new_product_1_2.jpg"])),
    Product("dv-008", "New Product 2", Some(90), "XL", "Football Shirts", "Used, Like New",
      "/images/new_product_2.jpg", Some(["/images/new_product_2.jpg", "/images/new_product_2_2.jpg"]))
  ]

  /** The category choices of the filter bar, "All" first. */
  const CATEGORIES: seq<string> := ["All", "Football Shirts", "Designer Clothing", "Footwear"]

  /** The size choices of the filter bar; the bar offers "All" before them. */
  const SIZES: seq<string> := ["S", "M", "L", "XL", "44"]

  predicate UniqueIds(s: seq<Product>)
  {
    forall i, j :: 0 <= i < j < |s| ==> s[i].id != s[j].id
  }

  /** A gallery is present, not empty, and starts with the legacy image. */
  predicate GalleryAgrees(p: Product)
  {
    p.images.Some? && |p.images.value| > 0 && p.images.value[0] == p.image
  }

  /** The image a card shows for gallery position `activeIdx`: the position clamped to the gallery, else the legacy image. */
  function PrimaryImage(p: Product, activeIdx: nat): (r: string)
    ensures p.images.Some? && |p.images.value| > 0 && r != p.image ==>
      r in p.images.value && r != ""
    ensures GalleryAgrees(p) && activeIdx == 0 ==> r == p.image
  {
    var chosen :=
      if p.images.Some? && |p.images.value| > 0
      then p.images.value[if activeIdx < |p.images.value| - 1 then activeIdx else |p.images.value| - 1]
      else p.image;
    if chosen == "" then p.image else chosen
  }

  /** The only ids in the catalog are these eight, so no two products share one. */
  lemma CatalogIdsUnique()
    ensures UniqueIds(PRODUCTS)
  {
    var ids := seq(|PRODUCTS|, k requires 0 <= k < |PRODUCTS| => PRODUCTS[k].id);
    assert ids == ["dv-001", "dv-002", "dv-003", "dv-004", "dv-005", "dv-006", "dv-007", "dv-008"];
    forall i, j | 0 <= i < j < |PRODUCTS| ensures PRODUCTS[i].id != PRODUCTS[j].id {
      assert ids[i][5] != ids[j][5];
    }
  }

  /** Every product has a non-empty gallery whose first entry is its legacy image, so both resolve to the same picture. */
  lemma CatalogGalleries()
    ensures forall k :: 0 <= k < |PRODUCTS| ==> GalleryAgrees(PRODUCTS[k])
  {
  }

  /** Every price present in the catalog is above 0. */
  lemma CatalogPricesPositive()
    ensures forall k :: 0 <= k < |PRODUCTS| ==> PRODUCTS[k].price.Some? ==> PRODUCTS[k].price.value > 0
  {
  }

  /** Every product's category and size are among the filter bar's choices. */
  lemma CatalogFilterChoices()
    ensures forall k :: 0 <= k < |PRODUCTS| ==> PRODUCTS[k].category in CATEGORIES[1..]
    ensures forall k :: 0 <= k < |PRODUCTS| ==> PRODUCTS[k].size in SIZES
  {
  }

  /** Every id in the catalog is six characters long ("dv-" and three digits). */
  lemma CatalogIdLengths()
    ensures forall k :: 0 <= k < |PRODUCTS| ==> |PRODUCTS[k].id| == 6
  {
  }
}
