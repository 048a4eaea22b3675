/**
 * The static product catalog and its lookup helpers. A product is reduced to
 * the two fields the helpers look at, its id and its category; the helpers take
 * the catalog as a parameter, and the storefront always passes `Catalog`.
 */
module Products {
  import opened Wrappers
  import opened JsArray

  datatype Product = Product(id: string, category: string)

  /** The `limit` used when a caller gives none. */
  const DefaultRelatedLimit: int := 4

  // The shipped products, named as the storefront names them.
  const MerylLoungeChair := Product("1", "Armchair")
  const ModernChair := Product("2", "Armchair")
  const OsmondArmchair := Product("3", "Armchair")
  const LarkinWoodBed := Product("4", "Bed")
  const SkogsalmNightstand := Product("5", "Nightstand")
  const RickarumWoodenVase := Product("6", "Decoration")
  const ClassicHeater := Product("7", "Furniture")
  const ModernLamp := Product("8", "Lamp")
  const RusticLantern := Product("9", "Decoration")
  const WoodenTable := Product("10", "Tables")
  const OakWardrobe := Product("11", "Wardrobe")
  const SmallNightstand := Product("12", "Nightstand")

  /** The shipped catalog, in its declared order. */
  const Catalog: seq<Product> := [
    MerylLoungeChair, ModernChair, OsmondArmchair, LarkinWoodBed,
    SkogsalmNightstand, RickarumWoodenVase, ClassicHeater, ModernLamp,
    RusticLantern, WoodenTable, OakWardrobe, SmallNightstand
  ]

  // The tests handed to `find` and `filter`, built in one place so that the
  // helpers and the lemmas about them speak of the same functions.

  function WithId(id: string): Product -> bool { (p: Product) => p.id == id }

  function InCategory(category: string): Product -> bool { (p: Product) => p.category == category }

  function NotInCategory(category: string): Product -> bool { (p: Product) => p.category != category }

  function NotWithId(id: string): Product -> bool { (p: Product) => p.id != id }

  function SameCategoryExcept(category: string, id: string): Product -> bool
  {
    (p: Product) => p.category == category && p.id != id
  }

  function OtherCategoryExcept(category: string, id: string): Product -> bool
  {
    (p: Product) => p.category != category && p.id != id
  }

  ghost predicate DistinctIds(catalog: seq<Product>)
  {
    forall i, j :: 0 <= i < j < |catalog| ==> catalog[i].id != catalog[j].id
  }

  /** `getAllProducts`: the shipped catalog, twelve products with pairwise distinct ids. */
  function GetAllProducts(): (r: seq<Product>)
    ensures |r| == 12 && DistinctIds(r)
  {
    Catalog
  }

  /** `getProductById`: the first product with that id, or nothing when none has it. */
  function GetProductById(catalog: seq<Product>, id: string): (r: Option<Product>)
    ensures r.None? <==> forall j :: 0 <= j < |catalog| ==> catalog[j].id != id
    ensures r.Some? ==> r.value.id == id
    ensures r.Some? ==> exists k :: 0 <= k < |catalog| && catalog[k] == r.value &&
                                    forall j :: 0 <= j < k ==> catalog[j].id != id
  {
    Find(catalog, WithId(id))
  }

  /** `getProductsByCategory`: exactly the catalog products of that category. */
  function GetProductsByCategory(catalog: seq<Product>, category: string): (r: seq<Product>)
    ensures forall i :: 0 <= i < |r| ==> r[i] in catalog && r[i].category == category
    ensures forall i :: 0 <= i < |catalog| && catalog[i].category == category ==> catalog[i] in r
  {
    FilterMembers(catalog, InCategory(category));
    Filter(catalog, InCategory(category))
  }

  /** The products of a category come out in catalog order. */
  lemma ProductsByCategoryInCatalogOrder(catalog: seq<Product>, category: string)
    ensures IsSubsequence(GetProductsByCategory(catalog, category), catalog)
  {
    FilterIsSubsequence(catalog, InCategory(category));
  }

  /** The products of `category` other than `productId`, in catalog order. */
  function SameCategoryOthers(catalog: seq<Product>, category: string, productId: string): (r: seq<Product>)
    ensures |r| <= |catalog|
    ensures forall i :: 0 <= i < |r| ==> r[i].category == category && r[i].id != productId
  {
    var r := Filter(catalog, SameCategoryExcept(category, productId));
    assert forall i :: 0 <= i < |r| ==> SameCategoryExcept(category, productId)(r[i]);
    r
  }

  /** The products outside `category` other than `productId`, in catalog order. */
  function OtherCategoryOthers(catalog: seq<Product>, category: string, productId: string): (r: seq<Product>)
    ensures |r| <= |catalog|
    ensures forall i :: 0 <= i < |r| ==> r[i].category != category && r[i].id != productId
  {
    var r := Filter(catalog, OtherCategoryExcept(category, productId));
    assert forall i :: 0 <= i < |r| ==> OtherCategoryExcept(category, productId)(r[i]);
    r
  }

  /**
   * `getRelatedProducts`: the other products of the same category, padded
   * with products of other categories when there are fewer than `limit` of
   * them, cut to `limit` with JavaScript's `slice(0, limit)`.
   */
  function GetRelatedProducts(catalog: seq<Product>, productId: string, limit: int := DefaultRelatedLimit): (r: seq<Product>)
    ensures GetProductById(catalog, productId).None? ==> r == []
    ensures forall i :: 0 <= i < |r| ==> r[i].id != productId
    ensures limit >= 0 ==> |r| <= limit
  {
    match GetProductById(catalog, productId)
    case None => []
    case Some(product) =>
      var related := SameCategoryOthers(catalog, product.category, productId);
      var padded :=
        if |related| < limit then
          related + SliceTo(OtherCategoryOthers(catalog, product.category, productId), limit - |related|)
        else related;
      SliceTo(padded, limit)
  }

  /** Topping `first` up from `second` and cutting at `limit`: the value `getRelatedProducts` returns. */
  function PaddedTo<T>(first: seq<T>, second: seq<T>, limit: int): seq<T>
  {
    SliceTo(if |first| < limit then first + SliceTo(second, limit - |first|) else first, limit)
  }

  /** The two branches of `getRelatedProducts` for a product that exists. */
  lemma RelatedUnfold(catalog: seq<Product>, productId: string, limit: int, product: Product)
    requires GetProductById(catalog, productId) == Some(product)
    ensures GetRelatedProducts(catalog, productId, limit) ==
            PaddedTo(SameCategoryOthers(catalog, product.category, productId),
                     OtherCategoryOthers(catalog, product.category, productId), limit)
  {
  }

  /** Padding keeps a prefix of each list, as long as the limit and the two lists allow. */
  lemma PaddedToShape<T>(first: seq<T>, second: seq<T>, limit: int)
    requires limit >= 0
    ensures |PaddedTo(first, second, limit)| == Min(limit, |first| + |second|)
    ensures PaddedTo(first, second, limit) ==
            first[..Min(limit, |first|)] + second[..Min(limit, |first| + |second|) - Min(limit, |first|)]
  {
    if |first| < limit {
      var padded := first + second[..Min(limit - |first|, |second|)];
      assert padded[..|padded|] == padded;
      assert first[..|first|] == first;
    } else {
      assert second[..0] == [];
      assert first[..limit] + [] == first[..limit];
    }
  }

  /**
   * For a known product and a non-negative limit, the result is a prefix of
   * the same-category products followed by a prefix of the other-category
   * products, and it is as long as the limit and the two lists allow.
   */
  lemma RelatedShape(catalog: seq<Product>, productId: string, limit: int, product: Product)
    requires GetProductById(catalog, productId) == Some(product)
    requires limit >= 0
    ensures |GetRelatedProducts(catalog, productId, limit)| ==
            Min(limit, |SameCategoryOthers(catalog, product.category, productId)| +
                       |OtherCategoryOthers(catalog, product.category, productId)|)
    ensures GetRelatedProducts(catalog, productId, limit) ==
            SameCategoryOthers(catalog, product.category, productId)[..Min(limit, |SameCategoryOthers(catalog, product.category, productId)|)] +
            OtherCategoryOthers(catalog, product.category, productId)[..|GetRelatedProducts(catalog, productId, limit)| - Min(limit, |SameCategoryOthers(catalog, product.category, productId)|)]
  {
    RelatedUnfold(catalog, productId, limit, product);
    PaddedToShape(SameCategoryOthers(catalog, product.category, productId),
                  OtherCategoryOthers(catalog, product.category, productId), limit);
  }

  /** The result holds same-category products exactly up to the number of them taken. */
  lemma RelatedCategoryBoundary(catalog: seq<Product>, productId: string, limit: int, product: Product)
    requires GetProductById(catalog, productId) == Some(product)
    requires limit >= 0
    ensures forall i :: 0 <= i < |GetRelatedProducts(catalog, productId, limit)| ==>
              (GetRelatedProducts(catalog, productId, limit)[i].category == product.category <==>
               i < Min(limit, |SameCategoryOthers(catalog, product.category, productId)|))
  {
    var same := SameCategoryOthers(catalog, product.category, productId);
    var other := OtherCategoryOthers(catalog, product.category, productId);
    var r := GetRelatedProducts(catalog, productId, limit);
    RelatedShape(catalog, productId, limit, product);
    var k := Min(limit, |same|);
    forall i | 0 <= i < |r| ensures (r[i].category == product.category <==> i < k) {
      if i < k {
        assert r[i] == same[i] && SameCategoryExcept(product.category, productId)(same[i]);
      } else {
        assert r[i] == other[i - k] && OtherCategoryExcept(product.category, productId)(other[i - k]);
      }
    }
  }

  /** Every same-category product in the result comes before every other-category one. */
  lemma {:induction false} RelatedSameCategoryFirst(catalog: seq<Product>, productId: string, limit: int, product: Product)
    requires GetProductById(catalog, productId) == Some(product)
    requires limit >= 0
    ensures forall i, j :: 0 <= i < j < |GetRelatedProducts(catalog, productId, limit)| &&
                           GetRelatedProducts(catalog, productId, limit)[j].category == product.category
                           ==> GetRelatedProducts(catalog, productId, limit)[i].category == product.category
  {
    RelatedCategoryBoundary(catalog, productId, limit, product);
  }

  /**
   * The same-category products of the result are the first ones of the
   * catalog, in catalog order, and so are its other-category products; the
   * same-category ones fill the result up to the limit before any other is taken.
   */
  lemma {:induction false} RelatedKeepsCatalogOrder(catalog: seq<Product>, productId: string, limit: int, product: Product)
    requires GetProductById(catalog, productId) == Some(product)
    requires limit >= 0
    ensures Filter(GetRelatedProducts(catalog, productId, limit), InCategory(product.category)) <=
            SameCategoryOthers(catalog, product.category, productId)
    ensures Filter(GetRelatedProducts(catalog, productId, limit), NotInCategory(product.category)) <=
            OtherCategoryOthers(catalog, product.category, productId)
    ensures |Filter(GetRelatedProducts(catalog, productId, limit), InCategory(product.category))| ==
            Min(limit, |SameCategoryOthers(catalog, product.category, productId)|)
  {
    var c := product.category;
    var same := SameCategoryOthers(catalog, c, productId);
    var other := OtherCategoryOthers(catalog, c, productId);
    var r := GetRelatedProducts(catalog, productId, limit);
    RelatedShape(catalog, productId, limit, product);
    var k := Min(limit, |same|);
    var head, tail := same[..k], other[..|r| - k];
    assert r == head + tail;
    forall i | 0 <= i < |head| ensures InCategory(c)(head[i]) && !NotInCategory(c)(head[i]) {
      assert head[i] == same[i] && SameCategoryExcept(c, productId)(same[i]);
    }
    forall i | 0 <= i < |tail| ensures !InCategory(c)(tail[i]) && NotInCategory(c)(tail[i]) {
      assert tail[i] == other[i] && OtherCategoryExcept(c, productId)(other[i]);
    }
    FilterConcat(head, tail, InCategory(c));
    FilterKeepsAll(head, InCategory(c));
    FilterKeepsNone(tail, InCategory(c));
    FilterConcat(head, tail, NotInCategory(c));
    FilterKeepsNone(head, NotInCategory(c));
    FilterKeepsAll(tail, NotInCategory(c));
  }

  /** Other categories are drawn on only when the product's own category runs short. */
  lemma RelatedPadsOnlyWhenShort(catalog: seq<Product>, productId: string, limit: int, product: Product)
    requires GetProductById(catalog, productId) == Some(product)
    requires limit >= 0
    requires |SameCategoryOthers(catalog, product.category, productId)| >= limit
    ensures |GetRelatedProducts(catalog, productId, limit)| == limit
    ensures forall i :: 0 <= i < |GetRelatedProducts(catalog, productId, limit)| ==>
                        GetRelatedProducts(catalog, productId, limit)[i].category == product.category
  {
    var same := SameCategoryOthers(catalog, product.category, productId);
    var r := GetRelatedProducts(catalog, productId, limit);
    RelatedUnfold(catalog, productId, limit, product);
    assert r == same[..limit];
    forall i | 0 <= i < |r| ensures r[i].category == product.category {
      assert r[i] == same[i] && SameCategoryExcept(product.category, productId)(same[i]);
    }
  }

  /** With distinct ids, the result holds `limit` products or every other product of the catalog. */
  lemma {:induction false} RelatedLength(catalog: seq<Product>, productId: string, limit: int)
    requires DistinctIds(catalog)
    requires GetProductById(catalog, productId).Some?
    requires limit >= 0
    ensures |GetRelatedProducts(catalog, productId, limit)| == Min(limit, |catalog| - 1)
  {
    var product := GetProductById(catalog, productId).value;
    var c := product.category;
    RelatedShape(catalog, productId, limit, product);
    var k :| 0 <= k < |catalog| && catalog[k] == product;
    FilterPartition(catalog, SameCategoryExcept(c, productId), OtherCategoryExcept(c, productId), NotWithId(productId));
    forall i | 0 <= i < |catalog| && i != k ensures NotWithId(productId)(catalog[i]) {
      if i < k {
        assert catalog[i].id != catalog[k].id;
      } else {
        assert catalog[k].id != catalog[i].id;
      }
    }
    FilterDropsOne(catalog, NotWithId(productId), k);
  }

  /** With a negative limit JavaScript's slice drops that many same-category products from the end. */
  lemma RelatedNegativeLimit(catalog: seq<Product>, productId: string, limit: int, product: Product)
    requires GetProductById(catalog, productId) == Some(product)
    requires limit < 0
    ensures GetRelatedProducts(catalog, productId, limit) ==
            SameCategoryOthers(catalog, product.category, productId)[..Max(0, |SameCategoryOthers(catalog, product.category, productId)| + limit)]
  {
    RelatedUnfold(catalog, productId, limit, product);
  }

  /** The shipped catalog has distinct ids. */
  lemma CatalogIdsDistinct()
    ensures DistinctIds(Catalog)
  {
  }

  /**
   * The bed (product "4") is alone in its category, so its related products
   * with the default limit are the first four other products: 1, 2, 3 and 5.
   */
  lemma ShippedRelatedOfBed()
    ensures GetRelatedProducts(Catalog, "4") == [MerylLoungeChair, ModernChair, OsmondArmchair, SkogsalmNightstand]
  {
    ShippedBedLookup();
    ShippedBedAlone();
    ShippedOthersOfBed();
    RelatedUnfold(Catalog, "4", 4, LarkinWoodBed);
    var other := OtherCategoryOthers(Catalog, "Bed", "4");
    assert PaddedTo([], other, 4) == other[..4];
  }

  lemma ShippedBedLookup()
    ensures GetProductById(Catalog, "4") == Some(LarkinWoodBed)
  {
    var f := WithId("4");
    assert !f(Catalog[0]) && !f(Catalog[1]) && !f(Catalog[2]) && f(Catalog[3]);
    assert FindIndex(Catalog, f) == 3;
  }

  lemma ShippedBedAlone()
    ensures SameCategoryOthers(Catalog, "Bed", "4") == []
  {
    FilterKeepsNone(Catalog, SameCategoryExcept("Bed", "4"));
  }

  lemma ShippedOthersOfBed()
    ensures |OtherCategoryOthers(Catalog, "Bed", "4")| >= 4
    ensures OtherCategoryOthers(Catalog, "Bed", "4")[..4] == [MerylLoungeChair, ModernChair, OsmondArmchair, SkogsalmNightstand]
  {
    var g := OtherCategoryExcept("Bed", "4");
    assert g(Catalog[0]) && g(Catalog[1]) && g(Catalog[2]) && !g(Catalog[3]) && g(Catalog[4]);
    FilterSkipsFourth(Catalog, g);
  }

  /** Filtering a sequence whose fourth element alone fails among its first five. */
  lemma FilterSkipsFourth<T>(s: seq<T>, keep: T -> bool)
    requires |s| >= 5
    requires keep(s[0]) && keep(s[1]) && keep(s[2]) && !keep(s[3]) && keep(s[4])
    ensures |Filter(s, keep)| >= 4 && Filter(s, keep)[..4] == [s[0], s[1], s[2], s[4]]
  {
    var tail := Filter(s[5..], keep);
    FilterStep(s, 4, keep);
    FilterStep(s, 3, keep);
    FilterStep(s, 2, keep);
    FilterStep(s, 1, keep);
    FilterStep(s, 0, keep);
    assert s[0..] == s;
    assert Filter(s, keep) == [s[0], s[1], s[2], s[4]] + tail;
  }
}
