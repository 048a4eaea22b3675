# Cozy storefront: catalog helpers and browser store, in Dafny

This project models the two pieces of sequential logic under a furniture
storefront's user interface:

- **The catalog helpers** (`src/lib/products.ts`). The shipped catalog has
  twelve products; the model keeps only their `id` and `category`. The helpers
  are lookup by id, filtering by category, and the "related products" rule:
  - take the other products of the same category first;
  - pad with products of other categories while fewer than `limit` are found;
  - never include the product itself;
  - cut the result to `limit` with JavaScript's `slice(0, limit)`.
- **The client-side persistence layer** (`src/lib/localStorage.ts`). It keeps a
  cart, a wishlist, addresses, payment methods and orders, each as one list
  under one key of the browser's key-value store:
  - the cart behaves like a multiset keyed by the pair (product id, selected
    colour);
  - the wishlist behaves like a set;
  - placing an order appends it to the orders and empties the cart.

Files:

- `wrappers.dfy`: the `Option` type, standing for `T | undefined` and for
  optional record fields.
- `jsarray.dfy`: the JavaScript array built-ins the source is written with
  (`filter`, `findIndex`, `find`, `slice(0, end)`, including the negative `end`
  that counts from the back), with the general facts about them: membership,
  order preservation, concatenation and pairwise relations.
- `products.dfy`: the catalog and its helpers.
  - The helpers take the catalog as a parameter, so their lemmas hold for
    every catalog.
  - `Catalog` is the shipped one.
- `localstorage.dfy`: the stored records, and each list update as a function
  on values with its properties as lemmas.
  - `BrowserStore` is a class with one sequence field per key and a constant
    `inBrowser` flag.
  - Outside a browser, every getter returns the empty list and every setter
    does nothing, as the `typeof window === 'undefined'` guards do.
  - Each read-modify-write operation is a method. Its postcondition ties the
    new field value to the function on values, applied to the old one.

Modelling choices:

- An unset key reads as the empty list, as every getter's `: []` fallback does
  for a missing item. `clearCart`, which removes the key, therefore empties the
  `cart` field.
- JavaScript numbers used as quantities and limits are `int`. An order's
  `total` is a `real`; nothing computes with it.
- `selectedColor === color` with both sides possibly `undefined` is equality of
  `Option<string>`, so an absent colour matches only an absent colour.

## Model

| member | source | states |
|---|---|---|
| JsArray.Filter | src/lib/products.ts:253 | the result is no longer than the input, and each of its elements passes the test |
| JsArray.FilterMembers | src/lib/products.ts:253 | an element is in the filtered result exactly when it is in the input and passes the test (both directions) |
| JsArray.FilterIsSubsequence | src/lib/products.ts:253 | filtering only deletes elements, so the survivors keep their input order |
| JsArray.FilterComplement | src/lib/localStorage.ts:80-82 | the elements a test keeps and the elements its negation keeps together number exactly the input's length |
| JsArray.FindIndex | src/lib/localStorage.ts:65-67 | `findIndex` returns the first index whose element passes, or -1 exactly when no element passes |
| JsArray.Find | src/lib/products.ts:248 | `find` returns nothing exactly when no element passes, and otherwise the first element that does |
| JsArray.SliceTo | src/lib/products.ts:279 | `slice(0, end)` gives a prefix of length `min(end, n)`, or `max(0, n + end)` for a negative end |
| Products.GetAllProducts | src/lib/products.ts:257-259 | the shipped catalog has twelve products with pairwise distinct ids |
| Products.CatalogIdsDistinct | src/lib/products.ts:51-244 | no two products of the shipped catalog share an id |
| Products.GetProductById | src/lib/products.ts:247-249 | the result is nothing exactly when no product has the id; otherwise it is the first catalog product with that id |
| Products.GetProductsByCategory | src/lib/products.ts:252-254 | the result holds exactly the catalog products of that category |
| Products.ProductsByCategoryInCatalogOrder | src/lib/products.ts:252-254 | the products of a category come out in catalog order |
| Products.SameCategoryOthers | src/lib/products.ts:267-269 | every product it yields has the requested product's category and a different id (order and exact shape: `RelatedShape`, `RelatedKeepsCatalogOrder`) |
| Products.OtherCategoryOthers | src/lib/products.ts:273-275 | every product it yields has another category and a different id (order and exact shape: `RelatedShape`, `RelatedKeepsCatalogOrder`) |
| Products.GetRelatedProducts | src/lib/products.ts:262-280 | for an unknown id the result is empty; the requested product is never in it; for a limit of at least zero it has at most `limit` entries |
| Products.PaddedToShape | src/lib/products.ts:272-279 | topping up and cutting yields a prefix of the first list followed by a prefix of the second, as long as the limit and the two lists allow |
| Products.RelatedShape | src/lib/products.ts:267-279 | the related products are a prefix of the same-category products followed by a prefix of the other-category products; the length is `min(limit, same + other)` |
| Products.RelatedCategoryBoundary | src/lib/products.ts:267-277 | position `i` of the result holds a same-category product exactly when `i` is below the number of same-category products taken |
| Products.RelatedSameCategoryFirst | src/lib/products.ts:267-277 | every same-category product in the result comes before every other-category one |
| Products.RelatedKeepsCatalogOrder | src/lib/products.ts:267-277 | the result's same-category products are the first ones in catalog order, and its other-category products are too; the same-category ones fill up to the limit first |
| Products.RelatedPadsOnlyWhenShort | src/lib/products.ts:272-279 | when the category has at least `limit` other products, the result is `limit` products all of that category |
| Products.RelatedLength | src/lib/products.ts:262-279 | with pairwise distinct ids and a known product, the result length is `min(limit, catalog size - 1)` |
| Products.RelatedNegativeLimit | src/lib/products.ts:272-279 | with a negative limit no padding happens, and `slice` drops `-limit` same-category products from the end |
| Products.ShippedRelatedOfBed | src/lib/products.ts:114-127 | on the shipped catalog with the default limit 4, the bed "4" is alone in its category, so its related products are 1, 2, 3 and 5 |
| Products.ShippedBedLookup | src/lib/products.ts:114-127 | product "4" of the shipped catalog is the Larkin Wood Bed |
| Products.ShippedBedAlone | src/lib/products.ts:114-127 | no other shipped product has the category "Bed" |
| Products.ShippedOthersOfBed | src/lib/products.ts:51-141 | the first four shipped products outside "Bed" are 1, 2, 3 and 5 |
| LocalStorage.CartAdd | src/lib/localStorage.ts:63-76 | a row is appended exactly when no row holds the pair, otherwise the length is kept; every existing row keeps its (product, colour) pair (exact effect and count: `CartAddMerges`, `CartAddAppends`, `CartAddCount`) |
| LocalStorage.CartRemove | src/lib/localStorage.ts:78-84 | the result is no longer than the cart and no row of it matches the pair (exact survivors: `CartRemoveSpec`, `CartRemoveAbsent`) |
| LocalStorage.CartUpdate | src/lib/localStorage.ts:86-105 | with quantity at most zero no row of the pair remains; with a positive quantity the length and every row's pair are kept, and a changed row holds the new quantity (exact effect: `CartUpdateSets`, `CartUpdateAbsent`) |
| LocalStorage.CartCount | src/lib/localStorage.ts:112-115 | the `reduce` sum is non-negative when every quantity is (additivity: `CartCountAppend`, `CartCountConcat`, `CartCountUpdate`) |
| LocalStorage.CartCountAppend | src/lib/localStorage.ts:112-115 | appending a row raises the cart count by that row's quantity |
| LocalStorage.CartCountConcat | src/lib/localStorage.ts:112-115 | the count of two carts joined is the sum of their counts |
| LocalStorage.CartCountUpdate | src/lib/localStorage.ts:112-115 | replacing one row changes the count by the difference of the quantities |
| LocalStorage.CartCountSplit | src/lib/localStorage.ts:78-84 | the rows that removal keeps and the rows it drops share the count between them |
| LocalStorage.CartAddMerges | src/lib/localStorage.ts:63-70 | adding a pair already in the cart raises the first matching row by `quantity` and leaves the length and every other row unchanged |
| LocalStorage.CartAddAppends | src/lib/localStorage.ts:71-73 | adding a pair not in the cart appends exactly the row `{productId, quantity, color}` at the end |
| LocalStorage.CartAddCount | src/lib/localStorage.ts:63-76 | adding `quantity` raises the cart count by exactly `quantity` |
| LocalStorage.CartAddKeepsDistinct | src/lib/localStorage.ts:65-73 | if no two rows share a (product, colour) pair before adding, none do after |
| LocalStorage.CartRemoveSpec | src/lib/localStorage.ts:78-84 | after removal no row matches the pair, every non-matching row is still there, the rows keep their order, and exactly the matching rows are gone (the length drops by their number), so no surviving row loses a copy |
| LocalStorage.CartRemoveAbsent | src/lib/localStorage.ts:78-84 | removing a pair the cart does not hold changes nothing |
| LocalStorage.CartRemoveCount | src/lib/localStorage.ts:78-84 | removal lowers the count by the quantities of the removed rows |
| LocalStorage.CartRemoveKeepsDistinct | src/lib/localStorage.ts:80-82 | removal keeps the (product, colour) pairs distinct |
| LocalStorage.CartAddRemoveRoundTrip | src/lib/localStorage.ts:63-84 | adding a pair the cart does not hold, then removing it, gives back the original cart |
| LocalStorage.CartUpdateSets | src/lib/localStorage.ts:95-103 | a positive update sets the first matching row's quantity to the new value, and the count moves by the difference |
| LocalStorage.CartUpdateAbsent | src/lib/localStorage.ts:86-105 | an update of a pair the cart does not hold leaves the cart unchanged, whatever the quantity |
| LocalStorage.CartUpdateKeepsDistinct | src/lib/localStorage.ts:86-105 | an update keeps the (product, colour) pairs distinct |
| LocalStorage.InWishlist | src/lib/localStorage.ts:144-147 | `some` entry has the id exactly when the entry `{productId}` is in the wishlist |
| LocalStorage.WishlistAdd | src/lib/localStorage.ts:130-136 | the product is in the result, which extends the old wishlist by at most one entry (idempotence and distinctness: `WishlistAddIdempotent`, `WishlistAddKeepsDistinct`) |
| LocalStorage.WishlistRemove | src/lib/localStorage.ts:138-142 | the result is no longer than the wishlist and does not hold the product (exact survivors: `WishlistRemoveSpec`) |
| LocalStorage.WishlistAddContains | src/lib/localStorage.ts:130-136 | after adding, the product is in the wishlist; a new product is appended at the end; an existing one leaves the wishlist unchanged |
| LocalStorage.WishlistAddIdempotent | src/lib/localStorage.ts:130-136 | adding the same product twice is the same as adding it once |
| LocalStorage.WishlistAddKeepsDistinct | src/lib/localStorage.ts:130-136 | adding never creates a duplicate product id |
| LocalStorage.WishlistRemoveSpec | src/lib/localStorage.ts:138-147 | after removal the product is not in the wishlist, every other entry is still there, the entries keep their order, and the length drops by exactly the number of entries with the id |
| LocalStorage.WishlistRemoveKeepsDistinct | src/lib/localStorage.ts:138-142 | removal keeps product ids distinct |
| LocalStorage.WishlistAddRemoveRoundTrip | src/lib/localStorage.ts:130-142 | adding a product that was not wished for, then removing it, restores the wishlist |
| LocalStorage.AddressRemove | src/lib/localStorage.ts:168-172 | the result is no longer than the list and holds no address with the id (exact survivors: `AddressRemoveSpec`) |
| LocalStorage.PaymentMethodRemove | src/lib/localStorage.ts:193-197 | the result is no longer than the list and holds no payment method with the id (exact survivors: `PaymentMethodRemoveSpec`) |
| LocalStorage.AddressRemoveSpec | src/lib/localStorage.ts:168-172 | removing an address id drops every address with it and keeps the others in order, the length dropping by exactly the number of addresses with the id |
| LocalStorage.AddressAddRemoveRoundTrip | src/lib/localStorage.ts:162-172 | adding an address with a fresh id, then removing that id, restores the list |
| LocalStorage.PaymentMethodRemoveSpec | src/lib/localStorage.ts:193-197 | removing a payment-method id drops every method with it and keeps the others in order, the length dropping by exactly the number of methods with the id |
| LocalStorage.PaymentMethodAddRemoveRoundTrip | src/lib/localStorage.ts:187-197 | adding a payment method with a fresh id, then removing that id, restores the list |
| LocalStorage.BrowserStore.constructor | src/lib/localStorage.ts:46-50 | the store starts with the lists already held under the five keys |
| LocalStorage.BrowserStore.GetCart | src/lib/localStorage.ts:52-56 | outside a browser the cart reads as empty; inside, it is the stored cart |
| LocalStorage.BrowserStore.SetCart | src/lib/localStorage.ts:58-61 | inside a browser the stored cart becomes the argument; outside, nothing changes |
| LocalStorage.BrowserStore.AddToCart | src/lib/localStorage.ts:63-76 | the new cart is `CartAdd` of the old one; the count grows by `quantity` (default 1); distinct pairs stay distinct |
| LocalStorage.BrowserStore.RemoveFromCart | src/lib/localStorage.ts:78-84 | the new cart is `CartRemove` of the old one; distinct pairs stay distinct |
| LocalStorage.BrowserStore.UpdateCartQuantity | src/lib/localStorage.ts:86-105 | a quantity of at most zero acts as removal; otherwise the new cart is `CartUpdate` of the old one; distinct pairs stay distinct |
| LocalStorage.BrowserStore.ClearCart | src/lib/localStorage.ts:107-110 | afterwards the cart reads as empty |
| LocalStorage.BrowserStore.GetCartCount | src/lib/localStorage.ts:112-115 | the count is the sum of the stored rows' quantities, and zero outside a browser |
| LocalStorage.BrowserStore.GetWishlist | src/lib/localStorage.ts:119-123 | outside a browser the wishlist reads as empty; inside, it is the stored wishlist |
| LocalStorage.BrowserStore.SetWishlist | src/lib/localStorage.ts:125-128 | inside a browser the stored wishlist becomes the argument; outside, nothing changes |
| LocalStorage.BrowserStore.AddToWishlist | src/lib/localStorage.ts:130-136 | the new wishlist is `WishlistAdd` of the old one; inside a browser the product is then wished for; ids stay distinct |
| LocalStorage.BrowserStore.RemoveFromWishlist | src/lib/localStorage.ts:138-142 | the new wishlist is `WishlistRemove` of the old one, and the product is no longer wished for |
| LocalStorage.BrowserStore.IsInWishlist | src/lib/localStorage.ts:144-147 | true exactly when inside a browser some stored entry has the product id |
| LocalStorage.BrowserStore.GetAddresses | src/lib/localStorage.ts:151-155 | outside a browser the addresses read as empty; inside, they are the stored ones |
| LocalStorage.BrowserStore.SetAddresses | src/lib/localStorage.ts:157-160 | inside a browser the stored addresses become the argument; outside, nothing changes |
| LocalStorage.BrowserStore.AddAddress | src/lib/localStorage.ts:162-166 | the address is appended at the end |
| LocalStorage.BrowserStore.RemoveAddress | src/lib/localStorage.ts:168-172 | the new addresses are `AddressRemove` of the old ones |
| LocalStorage.BrowserStore.GetPaymentMethods | src/lib/localStorage.ts:176-180 | outside a browser the payment methods read as empty; inside, they are the stored ones |
| LocalStorage.BrowserStore.SetPaymentMethods | src/lib/localStorage.ts:182-185 | inside a browser the stored payment methods become the argument; outside, nothing changes |
| LocalStorage.BrowserStore.AddPaymentMethod | src/lib/localStorage.ts:187-191 | the payment method is appended at the end |
| LocalStorage.BrowserStore.RemovePaymentMethod | src/lib/localStorage.ts:193-197 | the new payment methods are `PaymentMethodRemove` of the old ones |
| LocalStorage.BrowserStore.GetOrders | src/lib/localStorage.ts:201-205 | outside a browser the orders read as empty; inside, they are the stored ones |
| LocalStorage.BrowserStore.SetOrders | src/lib/localStorage.ts:207-210 | inside a browser the stored orders become the argument; outside, nothing changes |
| LocalStorage.BrowserStore.AddOrder | src/lib/localStorage.ts:212-217 | the order is appended at the end of the orders, and afterwards the cart reads as empty |
| LocalStorage.BrowserStore.InitializeDemoData | src/lib/localStorage.ts:220-274 | inside a browser, an empty address list becomes the two demo addresses and an empty payment-method list the two demo cards; non-empty lists are kept; afterwards neither list is empty |

## Left out

- Browser storage and serialisation. `localStorage.getItem`/`setItem`/`removeItem`,
  `JSON.parse` and `JSON.stringify` are replaced by the five sequence fields. The
  exception `JSON.parse` throws on a malformed stored value is not modelled.
- Concurrent updates from several tabs: the source has no logic for them, and the
  model runs one operation at a time.
- The difference between an unset key and a key holding `[]`: every getter reads
  both as the empty list.
- Every product field other than `id` and `category`: the prices and rating are
  floating point, the descriptions and colours are display data, and the images
  are static asset imports. None of them takes part in the helpers' logic.
- Quantities and limits are `int`. Fractional or non-finite JavaScript numbers
  passed as a quantity or a limit are not modelled.
- The React components and the cart and wishlist contexts are not part of this
  model. The contexts only call the storage functions and re-read them.
- The date helpers, the structured-data builders and the sitemap are not part of
  this model. They rely on `Date`, `Intl` and environment variables.
