/**
 * The client-side persistence layer of the storefront: a cart, a wishlist,
 * addresses, payment methods and orders, each kept as one list under one key
 * of the browser's key-value store. The list operations are functions on
 * values, with their properties proved as lemmas; `BrowserStore` holds the
 * five stored lists and runs the read-modify-write operations on them.
 */
module LocalStorage {
  import opened Wrappers
  import opened JsArray

  // ---------- Stored records ----------

  /** A cart row; `selectedColor` is absent when no colour was chosen. */
  datatype CartItem = CartItem(productId: string, quantity: int, selectedColor: Option<string>)

  datatype WishlistItem = WishlistItem(productId: string)

  datatype AddressType = Home | Office | Other

  datatype Address = Address(
    id: string,
    name: string,
    kind: AddressType,
    street: string,
    contact: string,
    city: string,
    state: string,
    zipCode: string,
    country: string)

  datatype PaymentMethod = PaymentMethod(
    id: string,
    cardNumber: string,
    cardHolder: string,
    expiryMonth: string,
    expiryYear: string,
    cvv: string)

  datatype OrderStatus = Pending | Processing | Shipped | Delivered | Cancelled

  datatype Order = Order(
    id: string,
    orderDate: string,
    items: seq<CartItem>,
    total: real,
    shippingAddress: Address,
    paymentMethod: PaymentMethod,
    status: OrderStatus)

  // ---------- Cart ----------

  /** A row matches a (product, colour) pair when both are strictly equal; an absent colour matches only an absent colour. */
  predicate Matches(item: CartItem, productId: string, color: Option<string>)
  {
    item.productId == productId && item.selectedColor == color
  }

  function SamePair(productId: string, color: Option<string>): CartItem -> bool
  {
    (item: CartItem) => Matches(item, productId, color)
  }

  function OtherPair(productId: string, color: Option<string>): CartItem -> bool
  {
    (item: CartItem) => !Matches(item, productId, color)
  }

  /** Two rows are for different (product, colour) pairs. */
  function DifferentPairs(): (CartItem, CartItem) -> bool
  {
    (a: CartItem, b: CartItem) => !Matches(b, a.productId, a.selectedColor)
  }

  /** No two rows of the cart share a (product, colour) pair. */
  ghost predicate DistinctPairs(cart: seq<CartItem>)
  {
    Pairwise(cart, DifferentPairs())
  }

  /** The cart after `addToCart`: the first matching row absorbs the quantity, or a new row is appended. */
  function CartAdd(cart: seq<CartItem>, productId: string, quantity: int, color: Option<string>): (r: seq<CartItem>)
    ensures |r| == |cart| + 1 <==> forall j :: 0 <= j < |cart| ==> !Matches(cart[j], productId, color)
    ensures |r| == |cart| || |r| == |cart| + 1
    ensures forall j :: 0 <= j < |cart| ==>
              r[j].productId == cart[j].productId && r[j].selectedColor == cart[j].selectedColor
  {
    var i := FindIndex(cart, SamePair(productId, color));
    if i >= 0 then cart[i := cart[i].(quantity := cart[i].quantity + quantity)]
    else cart + [CartItem(productId, quantity, color)]
  }

  /** The cart after `removeFromCart`: every row of the pair is dropped. */
  function CartRemove(cart: seq<CartItem>, productId: string, color: Option<string>): (r: seq<CartItem>)
    ensures |r| <= |cart|
    ensures forall i :: 0 <= i < |r| ==> !Matches(r[i], productId, color)
  {
    var r := Filter(cart, OtherPair(productId, color));
    assert forall i :: 0 <= i < |r| ==> OtherPair(productId, color)(r[i]);
    r
  }

  /** The cart after `updateCartQuantity`. */
  function CartUpdate(cart: seq<CartItem>, productId: string, quantity: int, color: Option<string>): (r: seq<CartItem>)
    ensures quantity <= 0 ==> forall i :: 0 <= i < |r| ==> !Matches(r[i], productId, color)
    ensures quantity > 0 ==> |r| == |cart|
    ensures quantity > 0 ==> forall j :: 0 <= j < |cart| ==>
              r[j].productId == cart[j].productId && r[j].selectedColor == cart[j].selectedColor
    ensures quantity > 0 ==> forall j :: 0 <= j < |cart| && r[j] != cart[j] ==> r[j].quantity == quantity
  {
    if quantity <= 0 then CartRemove(cart, productId, color)
    else
      var i := FindIndex(cart, SamePair(productId, color));
      if i >= 0 then cart[i := cart[i].(quantity := quantity)] else cart
  }

  /** `getCartCount`'s `reduce`: the quantities summed from the first row to the last. */
  function CartCount(cart: seq<CartItem>): (n: int)
    ensures (forall i :: 0 <= i < |cart| ==> cart[i].quantity >= 0) ==> n >= 0
  {
    if cart == [] then 0 else CartCount(cart[..|cart| - 1]) + cart[|cart| - 1].quantity
  }

  lemma CartCountAppend(cart: seq<CartItem>, item: CartItem)
    ensures CartCount(cart + [item]) == CartCount(cart) + item.quantity
  {
    assert (cart + [item])[..|cart|] == cart;
  }

  lemma {:induction false} CartCountConcat(a: seq<CartItem>, b: seq<CartItem>)
    ensures CartCount(a + b) == CartCount(a) + CartCount(b)
  {
    if b == [] {
      assert a + b == a;
    } else {
      var n := |b| - 1;
      assert (a + b)[..|a + b| - 1] == a + b[..n];
      CartCountConcat(a, b[..n]);
    }
  }

  /** Replacing one row changes the count by the change in that row's quantity. */
  lemma {:induction false} CartCountUpdate(cart: seq<CartItem>, i: nat, item: CartItem)
    requires i < |cart|
    ensures CartCount(cart[i := item]) == CartCount(cart) - cart[i].quantity + item.quantity
  {
    var n := |cart| - 1;
    if i == n {
      assert cart[i := item][..n] == cart[..n];
    } else {
      assert cart[i := item][..n] == cart[..n][i := item];
      CartCountUpdate(cart[..n], i, item);
    }
  }

  /** The rows a filter keeps and the rows it drops share the count between them. */
  lemma {:induction false} CartCountSplit(cart: seq<CartItem>, productId: string, color: Option<string>)
    ensures CartCount(Filter(cart, OtherPair(productId, color))) + CartCount(Filter(cart, SamePair(productId, color)))
            == CartCount(cart)
  {
    if cart != [] {
      var rest := cart[1..];
      CartCountSplit(rest, productId, color);
      CartCountConcat([cart[0]], rest);
      CartCountConcat([cart[0]], Filter(rest, OtherPair(productId, color)));
      CartCountConcat([cart[0]], Filter(rest, SamePair(productId, color)));
      assert [cart[0]] + rest == cart;
      assert [cart[0]][..0] == [];
    }
  }

  /** Adding to a pair already in the cart raises the first matching row by `quantity` and touches nothing else. */
  lemma CartAddMerges(cart: seq<CartItem>, productId: string, quantity: int, color: Option<string>, i: nat)
    requires i < |cart| && Matches(cart[i], productId, color)
    requires forall j :: 0 <= j < i ==> !Matches(cart[j], productId, color)
    ensures |CartAdd(cart, productId, quantity, color)| == |cart|
    ensures CartAdd(cart, productId, quantity, color)[i] == cart[i].(quantity := cart[i].quantity + quantity)
    ensures forall j :: 0 <= j < |cart| && j != i ==> CartAdd(cart, productId, quantity, color)[j] == cart[j]
  {
    var k := FindIndex(cart, SamePair(productId, color));
    assert SamePair(productId, color)(cart[i]);
  }

  /** Adding a pair the cart does not hold appends exactly one row at the end. */
  lemma CartAddAppends(cart: seq<CartItem>, productId: string, quantity: int, color: Option<string>)
    requires forall j :: 0 <= j < |cart| ==> !Matches(cart[j], productId, color)
    ensures CartAdd(cart, productId, quantity, color) == cart + [CartItem(productId, quantity, color)]
  {
    assert forall j :: 0 <= j < |cart| ==> !SamePair(productId, color)(cart[j]);
  }

  /** Adding `quantity` of a pair raises the cart count by exactly `quantity`. */
  lemma CartAddCount(cart: seq<CartItem>, productId: string, quantity: int, color: Option<string>)
    ensures CartCount(CartAdd(cart, productId, quantity, color)) == CartCount(cart) + quantity
  {
    var i := FindIndex(cart, SamePair(productId, color));
    if i >= 0 {
      var row := cart[i].(quantity := cart[i].quantity + quantity);
      assert CartAdd(cart, productId, quantity, color) == cart[i := row];
      CartCountUpdate(cart, i, row);
    } else {
      var row := CartItem(productId, quantity, color);
      assert CartAdd(cart, productId, quantity, color) == cart + [row];
      CartCountAppend(cart, row);
    }
  }

  /** Adding keeps the pairs of the cart distinct. */
  lemma CartAddKeepsDistinct(cart: seq<CartItem>, productId: string, quantity: int, color: Option<string>)
    requires DistinctPairs(cart)
    ensures DistinctPairs(CartAdd(cart, productId, quantity, color))
  {
    var r := CartAdd(cart, productId, quantity, color);
    var i := FindIndex(cart, SamePair(productId, color));
    forall j, k | 0 <= j < k < |r| ensures DifferentPairs()(r[j], r[k]) {
      if k < |cart| {
        assert DifferentPairs()(cart[j], cart[k]);
      } else {
        assert !SamePair(productId, color)(cart[j]);
      }
    }
  }

  /** Removing drops exactly the rows of the pair and keeps the others in their order. */
  lemma CartRemoveSpec(cart: seq<CartItem>, productId: string, color: Option<string>)
    ensures forall i :: 0 <= i < |CartRemove(cart, productId, color)| ==>
                        !Matches(CartRemove(cart, productId, color)[i], productId, color)
    ensures forall i :: 0 <= i < |cart| && !Matches(cart[i], productId, color) ==>
                        cart[i] in CartRemove(cart, productId, color)
    ensures IsSubsequence(CartRemove(cart, productId, color), cart)
    ensures |CartRemove(cart, productId, color)| == |cart| - |Filter(cart, SamePair(productId, color))|
  {
    var r := CartRemove(cart, productId, color);
    forall i | 0 <= i < |r| ensures !Matches(r[i], productId, color) {
      assert OtherPair(productId, color)(r[i]);
    }
    FilterMembers(cart, OtherPair(productId, color));
    FilterIsSubsequence(cart, OtherPair(productId, color));
    FilterComplement(cart, OtherPair(productId, color), SamePair(productId, color));
  }

  /** Removing a pair the cart does not hold changes nothing. */
  lemma CartRemoveAbsent(cart: seq<CartItem>, productId: string, color: Option<string>)
    requires forall i :: 0 <= i < |cart| ==> !Matches(cart[i], productId, color)
    ensures CartRemove(cart, productId, color) == cart
  {
    FilterKeepsAll(cart, OtherPair(productId, color));
  }

  /** Removing lowers the count by the quantities of the removed rows. */
  lemma CartRemoveCount(cart: seq<CartItem>, productId: string, color: Option<string>)
    ensures CartCount(CartRemove(cart, productId, color)) ==
            CartCount(cart) - CartCount(Filter(cart, SamePair(productId, color)))
  {
    CartCountSplit(cart, productId, color);
  }

  lemma CartRemoveKeepsDistinct(cart: seq<CartItem>, productId: string, color: Option<string>)
    requires DistinctPairs(cart)
    ensures DistinctPairs(CartRemove(cart, productId, color))
  {
    FilterKeepsPairwise(cart, OtherPair(productId, color), DifferentPairs());
  }

  /** Adding a new pair and then removing it gives the original cart back. */
  lemma CartAddRemoveRoundTrip(cart: seq<CartItem>, productId: string, quantity: int, color: Option<string>)
    requires forall i :: 0 <= i < |cart| ==> !Matches(cart[i], productId, color)
    ensures CartRemove(CartAdd(cart, productId, quantity, color), productId, color) == cart
  {
    CartAddAppends(cart, productId, quantity, color);
    FilterDropsAppended(cart, CartItem(productId, quantity, color), OtherPair(productId, color));
  }

  /** A positive update sets the first matching row's quantity, and the count moves by the difference. */
  lemma CartUpdateSets(cart: seq<CartItem>, productId: string, quantity: int, color: Option<string>, i: nat)
    requires quantity > 0
    requires i < |cart| && Matches(cart[i], productId, color)
    requires forall j :: 0 <= j < i ==> !Matches(cart[j], productId, color)
    ensures CartUpdate(cart, productId, quantity, color) == cart[i := cart[i].(quantity := quantity)]
    ensures CartCount(CartUpdate(cart, productId, quantity, color)) == CartCount(cart) - cart[i].quantity + quantity
  {
    var k := FindIndex(cart, SamePair(productId, color));
    assert SamePair(productId, color)(cart[i]);
    CartCountUpdate(cart, i, cart[i].(quantity := quantity));
  }

  /** An update of a pair the cart does not hold leaves the cart unchanged, whatever the quantity. */
  lemma CartUpdateAbsent(cart: seq<CartItem>, productId: string, quantity: int, color: Option<string>)
    requires forall i :: 0 <= i < |cart| ==> !Matches(cart[i], productId, color)
    ensures CartUpdate(cart, productId, quantity, color) == cart
  {
    if quantity <= 0 {
      CartRemoveAbsent(cart, productId, color);
    } else {
      assert forall j :: 0 <= j < |cart| ==> !SamePair(productId, color)(cart[j]);
    }
  }

  lemma CartUpdateKeepsDistinct(cart: seq<CartItem>, productId: string, quantity: int, color: Option<string>)
    requires DistinctPairs(cart)
    ensures DistinctPairs(CartUpdate(cart, productId, quantity, color))
  {
    if quantity <= 0 {
      CartRemoveKeepsDistinct(cart, productId, color);
    } else {
      var r := CartUpdate(cart, productId, quantity, color);
      forall j, k | 0 <= j < k < |r| ensures DifferentPairs()(r[j], r[k]) {
        assert DifferentPairs()(cart[j], cart[k]);
      }
    }
  }

  // ---------- Wishlist ----------

  function HasProduct(productId: string): WishlistItem -> bool
  {
    (item: WishlistItem) => item.productId == productId
  }

  function LacksProduct(productId: string): WishlistItem -> bool
  {
    (item: WishlistItem) => item.productId != productId
  }

  function DifferentProducts(): (WishlistItem, WishlistItem) -> bool
  {
    (a: WishlistItem, b: WishlistItem) => a.productId != b.productId
  }

  ghost predicate DistinctProducts(wishlist: seq<WishlistItem>)
  {
    Pairwise(wishlist, DifferentProducts())
  }

  /** `isInWishlist`'s `some`: some entry has the product id. */
  function InWishlist(wishlist: seq<WishlistItem>, productId: string): (b: bool)
    ensures b <==> WishlistItem(productId) in wishlist
  {
    exists i :: 0 <= i < |wishlist| && wishlist[i].productId == productId
  }

  /** The wishlist after `addToWishlist`: the product is appended unless it is already there. */
  function WishlistAdd(wishlist: seq<WishlistItem>, productId: string): (r: seq<WishlistItem>)
    ensures WishlistItem(productId) in r
    ensures wishlist <= r && |r| <= |wishlist| + 1
  {
    if InWishlist(wishlist, productId) then wishlist else wishlist + [WishlistItem(productId)]
  }

  /** The wishlist after `removeFromWishlist`. */
  function WishlistRemove(wishlist: seq<WishlistItem>, productId: string): (r: seq<WishlistItem>)
    ensures |r| <= |wishlist|
    ensures WishlistItem(productId) !in r
  {
    var r := Filter(wishlist, LacksProduct(productId));
    assert forall i :: 0 <= i < |r| ==> LacksProduct(productId)(r[i]);
    r
  }

  /** After adding, the product is in the wishlist, at the end when it was not there before. */
  lemma WishlistAddContains(wishlist: seq<WishlistItem>, productId: string)
    ensures InWishlist(WishlistAdd(wishlist, productId), productId)
    ensures !InWishlist(wishlist, productId) ==>
            WishlistAdd(wishlist, productId) == wishlist + [WishlistItem(productId)]
    ensures InWishlist(wishlist, productId) ==> WishlistAdd(wishlist, productId) == wishlist
  {
    var r := WishlistAdd(wishlist, productId);
    if !InWishlist(wishlist, productId) {
      assert r[|wishlist|].productId == productId;
    }
  }

  /** Adding the same product twice is the same as adding it once. */
  lemma WishlistAddIdempotent(wishlist: seq<WishlistItem>, productId: string)
    ensures WishlistAdd(WishlistAdd(wishlist, productId), productId) == WishlistAdd(wishlist, productId)
  {
    WishlistAddContains(wishlist, productId);
  }

  /** Adding never creates a duplicate product id. */
  lemma WishlistAddKeepsDistinct(wishlist: seq<WishlistItem>, productId: string)
    requires DistinctProducts(wishlist)
    ensures DistinctProducts(WishlistAdd(wishlist, productId))
  {
    var r := WishlistAdd(wishlist, productId);
    if !InWishlist(wishlist, productId) {
      forall j, k | 0 <= j < k < |r| ensures DifferentProducts()(r[j], r[k]) {
        if k == |wishlist| {
          assert r[j] == wishlist[j];
        } else {
          assert DifferentProducts()(wishlist[j], wishlist[k]);
        }
      }
    }
  }

  /** After removing, the product is gone and every other entry stays, in its order. */
  lemma WishlistRemoveSpec(wishlist: seq<WishlistItem>, productId: string)
    ensures !InWishlist(WishlistRemove(wishlist, productId), productId)
    ensures forall i :: 0 <= i < |wishlist| && wishlist[i].productId != productId ==>
                        wishlist[i] in WishlistRemove(wishlist, productId)
    ensures IsSubsequence(WishlistRemove(wishlist, productId), wishlist)
    ensures |WishlistRemove(wishlist, productId)| == |wishlist| - |Filter(wishlist, HasProduct(productId))|
  {
    var r := WishlistRemove(wishlist, productId);
    forall i | 0 <= i < |r| ensures r[i].productId != productId {
      assert LacksProduct(productId)(r[i]);
    }
    FilterMembers(wishlist, LacksProduct(productId));
    FilterIsSubsequence(wishlist, LacksProduct(productId));
    FilterComplement(wishlist, LacksProduct(productId), HasProduct(productId));
  }

  lemma WishlistRemoveKeepsDistinct(wishlist: seq<WishlistItem>, productId: string)
    requires DistinctProducts(wishlist)
    ensures DistinctProducts(WishlistRemove(wishlist, productId))
  {
    FilterKeepsPairwise(wishlist, LacksProduct(productId), DifferentProducts());
  }

  /** Adding a product that was not wished for and removing it again restores the wishlist. */
  lemma WishlistAddRemoveRoundTrip(wishlist: seq<WishlistItem>, productId: string)
    requires !InWishlist(wishlist, productId)
    ensures WishlistRemove(WishlistAdd(wishlist, productId), productId) == wishlist
  {
    assert forall i :: 0 <= i < |wishlist| ==> LacksProduct(productId)(wishlist[i]);
    FilterDropsAppended(wishlist, WishlistItem(productId), LacksProduct(productId));
  }

  // ---------- Addresses and payment methods ----------

  function AddressIdNot(id: string): Address -> bool
  {
    (a: Address) => a.id != id
  }

  function PaymentMethodIdNot(id: string): PaymentMethod -> bool
  {
    (m: PaymentMethod) => m.id != id
  }

  function AddressIdIs(id: string): Address -> bool
  {
    (a: Address) => a.id == id
  }

  function PaymentMethodIdIs(id: string): PaymentMethod -> bool
  {
    (m: PaymentMethod) => m.id == id
  }

  /** The addresses after `removeAddress`. */
  function AddressRemove(addresses: seq<Address>, id: string): (r: seq<Address>)
    ensures |r| <= |addresses|
    ensures forall i :: 0 <= i < |r| ==> r[i].id != id
  {
    var r := Filter(addresses, AddressIdNot(id));
    assert forall i :: 0 <= i < |r| ==> AddressIdNot(id)(r[i]);
    r
  }

  /** The payment methods after `removePaymentMethod`. */
  function PaymentMethodRemove(methods: seq<PaymentMethod>, id: string): (r: seq<PaymentMethod>)
    ensures |r| <= |methods|
    ensures forall i :: 0 <= i < |r| ==> r[i].id != id
  {
    var r := Filter(methods, PaymentMethodIdNot(id));
    assert forall i :: 0 <= i < |r| ==> PaymentMethodIdNot(id)(r[i]);
    r
  }

  /** Removing an address id drops every address with it and keeps the rest in order. */
  lemma AddressRemoveSpec(addresses: seq<Address>, id: string)
    ensures forall i :: 0 <= i < |AddressRemove(addresses, id)| ==> AddressRemove(addresses, id)[i].id != id
    ensures forall i :: 0 <= i < |addresses| && addresses[i].id != id ==> addresses[i] in AddressRemove(addresses, id)
    ensures IsSubsequence(AddressRemove(addresses, id), addresses)
    ensures |AddressRemove(addresses, id)| == |addresses| - |Filter(addresses, AddressIdIs(id))|
  {
    var r := AddressRemove(addresses, id);
    forall i | 0 <= i < |r| ensures r[i].id != id {
      assert AddressIdNot(id)(r[i]);
    }
    FilterMembers(addresses, AddressIdNot(id));
    FilterIsSubsequence(addresses, AddressIdNot(id));
    FilterComplement(addresses, AddressIdNot(id), AddressIdIs(id));
  }

  /** Adding an address with a fresh id and removing that id restores the list. */
  lemma AddressAddRemoveRoundTrip(addresses: seq<Address>, address: Address)
    requires forall i :: 0 <= i < |addresses| ==> addresses[i].id != address.id
    ensures AddressRemove(addresses + [address], address.id) == addresses
  {
    assert forall i :: 0 <= i < |addresses| ==> AddressIdNot(address.id)(addresses[i]);
    FilterDropsAppended(addresses, address, AddressIdNot(address.id));
  }

  /** Removing a payment-method id drops every method with it and keeps the rest in order. */
  lemma PaymentMethodRemoveSpec(methods: seq<PaymentMethod>, id: string)
    ensures forall i :: 0 <= i < |PaymentMethodRemove(methods, id)| ==> PaymentMethodRemove(methods, id)[i].id != id
    ensures forall i :: 0 <= i < |methods| && methods[i].id != id ==> methods[i] in PaymentMethodRemove(methods, id)
    ensures IsSubsequence(PaymentMethodRemove(methods, id), methods)
    ensures |PaymentMethodRemove(methods, id)| == |methods| - |Filter(methods, PaymentMethodIdIs(id))|
  {
    var r := PaymentMethodRemove(methods, id);
    forall i | 0 <= i < |r| ensures r[i].id != id {
      assert PaymentMethodIdNot(id)(r[i]);
    }
    FilterMembers(methods, PaymentMethodIdNot(id));
    FilterIsSubsequence(methods, PaymentMethodIdNot(id));
    FilterComplement(methods, PaymentMethodIdNot(id), PaymentMethodIdIs(id));
  }

  /** Adding a payment method with a fresh id and removing that id restores the list. */
  lemma PaymentMethodAddRemoveRoundTrip(methods: seq<PaymentMethod>, card: PaymentMethod)
    requires forall i :: 0 <= i < |methods| ==> methods[i].id != card.id
    ensures PaymentMethodRemove(methods + [card], card.id) == methods
  {
    assert forall i :: 0 <= i < |methods| ==> PaymentMethodIdNot(card.id)(methods[i]);
    FilterDropsAppended(methods, card, PaymentMethodIdNot(card.id));
  }

  // ---------- Demo data ----------

  const DemoAddresses: seq<Address> := [
    Address("1", "Huzefa Bagwala", Home, "1131 Dusty Townline, Jacksonville", "(936) 361-0310",
            "Jacksonville", "TX", "40322", "United States"),
    Address("2", "IndiaTech", Office, "1219 Harvest Path, Jacksonville", "(936) 361-0310",
            "Jacksonville", "TX", "40326", "United States")
  ]

  const DemoPaymentMethods: seq<PaymentMethod> := [
    PaymentMethod("1", "6754", "John Doe", "06", "2021", "123"),
    PaymentMethod("2", "5643", "Jane Smith", "11", "2025", "456")
  ]

  // ---------- The browser store ----------

  /**
   * The five stored lists, one per key (`cozy_cart`, `cozy_wishlist`,
   * `cozy_addresses`, `cozy_payment_methods`, `cozy_orders`). An unset key
   * reads as the empty list. Outside a browser (`inBrowser` false) every
   * getter returns the empty list and every setter does nothing.
   */
  class BrowserStore {
    const inBrowser: bool
    var cart: seq<CartItem>
    var wishlist: seq<WishlistItem>
    var addresses: seq<Address>
    var paymentMethods: seq<PaymentMethod>
    var orders: seq<Order>

    /** A store holding what earlier sessions left under the five keys. */
    constructor (inBrowser: bool, cart: seq<CartItem>, wishlist: seq<WishlistItem>,
                 addresses: seq<Address>, paymentMethods: seq<PaymentMethod>, orders: seq<Order>)
      ensures this.inBrowser == inBrowser && this.cart == cart && this.wishlist == wishlist
      ensures this.addresses == addresses && this.paymentMethods == paymentMethods && this.orders == orders
    {
      this.inBrowser := inBrowser;
      this.cart := cart;
      this.wishlist := wishlist;
      this.addresses := addresses;
      this.paymentMethods := paymentMethods;
      this.orders := orders;
    }

    // ----- cart -----

    function GetCart(): (r: seq<CartItem>)
      reads this
      ensures !inBrowser ==> r == []
      ensures inBrowser ==> r == cart
    {
      if inBrowser then cart else []
    }

    method SetCart(newCart: seq<CartItem>)
      modifies this`cart
      ensures cart == if inBrowser then newCart else old(cart)
    {
      if !inBrowser { return; }
      cart := newCart;
    }

    method AddToCart(productId: string, quantity: int := 1, color: Option<string> := None)
      modifies this`cart
      ensures cart == if inBrowser then CartAdd(old(cart), productId, quantity, color) else old(cart)
      ensures GetCartCount() == old(GetCartCount()) + (if inBrowser then quantity else 0)
      ensures DistinctPairs(old(cart)) ==> DistinctPairs(cart)
    {
      var current := GetCart();
      var i := FindIndex(current, SamePair(productId, color));
      if i >= 0 {
        current := current[i := current[i].(quantity := current[i].quantity + quantity)];
      } else {
        current := current + [CartItem(productId, quantity, color)];
      }
      assert inBrowser ==> current == CartAdd(old(cart), productId, quantity, color);
      SetCart(current);
      if inBrowser {
        CartAddCount(old(cart), productId, quantity, color);
        if DistinctPairs(old(cart)) {
          CartAddKeepsDistinct(old(cart), productId, quantity, color);
        }
      }
    }

    method RemoveFromCart(productId: string, color: Option<string> := None)
      modifies this`cart
      ensures cart == if inBrowser then CartRemove(old(cart), productId, color) else old(cart)
      ensures DistinctPairs(old(cart)) ==> DistinctPairs(cart)
    {
      var current := GetCart();
      SetCart(Filter(current, OtherPair(productId, color)));
      if inBrowser && DistinctPairs(old(cart)) {
        CartRemoveKeepsDistinct(old(cart), productId, color);
      }
    }

    method UpdateCartQuantity(productId: string, quantity: int, color: Option<string> := None)
      modifies this`cart
      ensures quantity <= 0 ==> cart == if inBrowser then CartRemove(old(cart), productId, color) else old(cart)
      ensures cart == if inBrowser then CartUpdate(old(cart), productId, quantity, color) else old(cart)
      ensures DistinctPairs(old(cart)) ==> DistinctPairs(cart)
    {
      if quantity <= 0 {
        RemoveFromCart(productId, color);
        return;
      }
      var current := GetCart();
      var i := FindIndex(current, SamePair(productId, color));
      if i >= 0 {
        current := current[i := current[i].(quantity := quantity)];
        SetCart(current);
      }
      if inBrowser && DistinctPairs(old(cart)) {
        CartUpdateKeepsDistinct(old(cart), productId, quantity, color);
      }
    }

    /** Removes the cart key, so the cart reads as empty afterwards. */
    method ClearCart()
      modifies this`cart
      ensures cart == if inBrowser then [] else old(cart)
      ensures GetCart() == []
    {
      if !inBrowser { return; }
      cart := [];
    }

    function GetCartCount(): (n: int)
      reads this
      ensures !inBrowser ==> n == 0
      ensures inBrowser ==> n == CartCount(cart)
    {
      CartCount(GetCart())
    }

    // ----- wishlist -----

    function GetWishlist(): (r: seq<WishlistItem>)
      reads this
      ensures !inBrowser ==> r == []
      ensures inBrowser ==> r == wishlist
    {
      if inBrowser then wishlist else []
    }

    method SetWishlist(newWishlist: seq<WishlistItem>)
      modifies this`wishlist
      ensures wishlist == if inBrowser then newWishlist else old(wishlist)
    {
      if !inBrowser { return; }
      wishlist := newWishlist;
    }

    method AddToWishlist(productId: string)
      modifies this`wishlist
      ensures wishlist == if inBrowser then WishlistAdd(old(wishlist), productId) else old(wishlist)
      ensures inBrowser ==> IsInWishlist(productId)
      ensures DistinctProducts(old(wishlist)) ==> DistinctProducts(wishlist)
    {
      var current := GetWishlist();
      if !InWishlist(current, productId) {
        current := current + [WishlistItem(productId)];
        SetWishlist(current);
      }
      if inBrowser {
        WishlistAddContains(old(wishlist), productId);
        if DistinctProducts(old(wishlist)) {
          WishlistAddKeepsDistinct(old(wishlist), productId);
        }
      }
    }

    method RemoveFromWishlist(productId: string)
      modifies this`wishlist
      ensures wishlist == if inBrowser then WishlistRemove(old(wishlist), productId) else old(wishlist)
      ensures !IsInWishlist(productId)
    {
      var current := GetWishlist();
      SetWishlist(Filter(current, LacksProduct(productId)));
      if inBrowser {
        WishlistRemoveSpec(old(wishlist), productId);
      }
    }

    predicate IsInWishlist(productId: string)
      reads this
      ensures IsInWishlist(productId) <==> inBrowser && InWishlist(wishlist, productId)
    {
      InWishlist(GetWishlist(), productId)
    }

    // ----- addresses -----

    function GetAddresses(): (r: seq<Address>)
      reads this
      ensures !inBrowser ==> r == []
      ensures inBrowser ==> r == addresses
    {
      if inBrowser then addresses else []
    }

    method SetAddresses(newAddresses: seq<Address>)
      modifies this`addresses
      ensures addresses == if inBrowser then newAddresses else old(addresses)
    {
      if !inBrowser { return; }
      addresses := newAddresses;
    }

    method AddAddress(address: Address)
      modifies this`addresses
      ensures addresses == if inBrowser then old(addresses) + [address] else old(addresses)
    {
      var current := GetAddresses();
      current := current + [address];
      SetAddresses(current);
    }

    method RemoveAddress(addressId: string)
      modifies this`addresses
      ensures addresses == if inBrowser then AddressRemove(old(addresses), addressId) else old(addresses)
    {
      var current := GetAddresses();
      SetAddresses(Filter(current, AddressIdNot(addressId)));
    }

    // ----- payment methods -----

    function GetPaymentMethods(): (r: seq<PaymentMethod>)
      reads this
      ensures !inBrowser ==> r == []
      ensures inBrowser ==> r == paymentMethods
    {
      if inBrowser then paymentMethods else []
    }

    method SetPaymentMethods(newMethods: seq<PaymentMethod>)
      modifies this`paymentMethods
      ensures paymentMethods == if inBrowser then newMethods else old(paymentMethods)
    {
      if !inBrowser { return; }
      paymentMethods := newMethods;
    }

    method AddPaymentMethod(card: PaymentMethod)
      modifies this`paymentMethods
      ensures paymentMethods == if inBrowser then old(paymentMethods) + [card] else old(paymentMethods)
    {
      var current := GetPaymentMethods();
      current := current + [card];
      SetPaymentMethods(current);
    }

    method RemovePaymentMethod(methodId: string)
      modifies this`paymentMethods
      ensures paymentMethods == if inBrowser then PaymentMethodRemove(old(paymentMethods), methodId) else old(paymentMethods)
    {
      var current := GetPaymentMethods();
      SetPaymentMethods(Filter(current, PaymentMethodIdNot(methodId)));
    }

    // ----- orders -----

    function GetOrders(): (r: seq<Order>)
      reads this
      ensures !inBrowser ==> r == []
      ensures inBrowser ==> r == orders
    {
      if inBrowser then orders else []
    }

    method SetOrders(newOrders: seq<Order>)
      modifies this`orders
      ensures orders == if inBrowser then newOrders else old(orders)
    {
      if !inBrowser { return; }
      orders := newOrders;
    }

    /** Appends the order and clears the cart. */
    method AddOrder(order: Order)
      modifies this`orders, this`cart
      ensures orders == if inBrowser then old(orders) + [order] else old(orders)
      ensures cart == if inBrowser then [] else old(cart)
      ensures GetCart() == []
    {
      var current := GetOrders();
      current := current + [order];
      SetOrders(current);
      ClearCart();
    }

    /** Seeds the two demo addresses and the two demo cards into lists that are empty. */
    method InitializeDemoData()
      modifies this`addresses, this`paymentMethods
      ensures addresses == if inBrowser && old(addresses) == [] then DemoAddresses else old(addresses)
      ensures paymentMethods == if inBrowser && old(paymentMethods) == [] then DemoPaymentMethods else old(paymentMethods)
      ensures inBrowser ==> |GetAddresses()| > 0 && |GetPaymentMethods()| > 0
    {
      if !inBrowser { return; }
      var current := GetAddresses();
      if |current| == 0 {
        SetAddresses(DemoAddresses);
      }
      var methods := GetPaymentMethods();
      if |methods| == 0 {
        SetPaymentMethods(DemoPaymentMethods);
      }
    }
  }
}
