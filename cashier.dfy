/** The cashier screen of src/app/page.tsx: the cart held in component state and the
    operations that replace it (add or increment, set quantity, remove), opening the
    checkout, clearing the cart after a sale, and the product search.

    Each new cart value is computed purely (find, map, filter, spread); the page's
    `setCart` is a method that reassigns the `cart` field with it. */
module Cashier {
  import opened Domain
  import opened Text

  /** The product ids in a cart are pairwise distinct: the cart is keyed by product. */
  predicate Distinct(cart: seq<CartItem>)
  {
    forall i, j :: 0 <= i < j < |cart| ==> cart[i].product.id != cart[j].product.id
  }

  /** Every line holds at least one unit and no more than its product's stock. */
  predicate WithinStock(cart: seq<CartItem>)
  {
    forall i :: 0 <= i < |cart| ==> 1 <= cart[i].quantity <= cart[i].product.stock
  }

  /** `cart.find(item => item.product.id === id)`, as the index of the first match. */
  function FindLine(cart: seq<CartItem>, id: Id): (r: Option<nat>)
    ensures r.Some? ==> r.value < |cart| && cart[r.value].product.id == id
                        && forall j :: 0 <= j < r.value ==> cart[j].product.id != id
    ensures r.None? ==> forall j :: 0 <= j < |cart| ==> cart[j].product.id != id
  {
    if cart == [] then None
    else if cart[0].product.id == id then Some(0)
    else match FindLine(cart[1..], id)
      case None => None
      case Some(k) => Some(k + 1)
  }

  /** `cart.map(item => item.product.id === id ? { ...item, quantity: q(item) } : item)`. */
  function MapMatching(cart: seq<CartItem>, id: Id, increment: bool, q: int): (r: seq<CartItem>)
    ensures |r| == |cart|
    ensures forall i :: 0 <= i < |cart| ==>
              if cart[i].product.id == id
              then r[i] == cart[i].(quantity := if increment then cart[i].quantity + 1 else q)
              else r[i] == cart[i]
  {
    if cart == [] then []
    else
      var head := if cart[0].product.id == id
                  then cart[0].(quantity := if increment then cart[0].quantity + 1 else q)
                  else cart[0];
      [head] + MapMatching(cart[1..], id, increment, q)
  }

  /** The cart after `addToCart(product)`. */
  function Added(cart: seq<CartItem>, product: Product): seq<CartItem>
  {
    match FindLine(cart, product.id)
    case Some(i) =>
      if cart[i].quantity >= product.stock then cart   // 'Stok tidak mencukupi!'
      else MapMatching(cart, product.id, true, 0)
    case None => cart + [CartItem(product, 1)]
  }

  /** The cart after `removeFromCart(id)`: `cart.filter(item => item.product.id !== id)`. */
  function Removed(cart: seq<CartItem>, id: Id): (r: seq<CartItem>)
    ensures forall x :: x in r <==> x in cart && x.product.id != id
    ensures IsSubsequence(r, cart)
  {
    if cart == [] then []
    else if cart[0].product.id == id then Removed(cart[1..], id)
    else
      var rest := Removed(cart[1..], id);
      assert ([cart[0]] + rest)[1..] == rest;
      [cart[0]] + rest
  }

  /** Each kept line appears as often as in the cart, and a removed one not at all. */
  lemma {:induction false} RemovedKeepsMultiplicity(cart: seq<CartItem>, id: Id, x: CartItem)
    ensures multiset(Removed(cart, id))[x] == if x.product.id != id then multiset(cart)[x] else 0
  {
    if cart != [] {
      assert cart == [cart[0]] + cart[1..];
      RemovedKeepsMultiplicity(cart[1..], id, x);
    }
  }

  /** The cart after `updateQuantity(id, newQuantity)`. */
  function Updated(cart: seq<CartItem>, id: Id, newQuantity: int): seq<CartItem>
  {
    if newQuantity <= 0 then Removed(cart, id)
    else MapMatching(cart, id, false, newQuantity)
  }

  /** A subsequence of a cart with distinct ids has distinct ids. */
  lemma {:induction false} SubsequenceKeepsDistinct(a: seq<CartItem>, b: seq<CartItem>)
    requires IsSubsequence(a, b) && Distinct(b)
    ensures Distinct(a)
    decreases |b|
  {
    if a != [] && b != [] {
      if a[0] == b[0] {
        SubsequenceKeepsDistinct(a[1..], b[1..]);
        SubsequenceMembers(a[1..], b[1..]);
        forall j | 0 < j < |a| ensures a[0].product.id != a[j].product.id {
          assert a[1..][j - 1] in b[1..];
        }
      } else {
        SubsequenceKeepsDistinct(a, b[1..]);
      }
    }
  }

  /** Every element of a subsequence is an element of the sequence. */
  lemma {:induction false} SubsequenceMembers<T>(a: seq<T>, b: seq<T>)
    requires IsSubsequence(a, b)
    ensures forall x :: x in a ==> x in b
    decreases |b|
  {
    if a != [] && b != [] {
      if a[0] == b[0] {
        SubsequenceMembers(a[1..], b[1..]);
        assert a == [a[0]] + a[1..];
      } else {
        SubsequenceMembers(a, b[1..]);
      }
    }
  }

  /** A product already in the cart whose line has reached the product's stock:
      the cart stays as it is. */
  lemma AddAtStockKeepsCart(cart: seq<CartItem>, product: Product, i: nat)
    requires Distinct(cart)
    requires i < |cart| && cart[i].product.id == product.id && cart[i].quantity >= product.stock
    ensures Added(cart, product) == cart
  {
  }

  /** A product already in the cart below its stock: that one line goes up by one;
      every other line, and the order, stay the same. */
  lemma AddExistingIncrementsOnlyItsLine(cart: seq<CartItem>, product: Product, i: nat)
    requires Distinct(cart)
    requires i < |cart| && cart[i].product.id == product.id && cart[i].quantity < product.stock
    ensures var r := Added(cart, product);
            && |r| == |cart|
            && r[i] == cart[i].(quantity := cart[i].quantity + 1)
            && forall j :: 0 <= j < |cart| && j != i ==> r[j] == cart[j]
  {
  }

  /** A product not in the cart is appended at the end with quantity 1. */
  lemma AddNewAppends(cart: seq<CartItem>, product: Product)
    requires forall j :: 0 <= j < |cart| ==> cart[j].product.id != product.id
    ensures Added(cart, product) == cart + [CartItem(product, 1)]
  {
  }

  /** Adding keeps product ids distinct. */
  lemma AddKeepsDistinct(cart: seq<CartItem>, product: Product)
    requires Distinct(cart)
    ensures Distinct(Added(cart, product))
  {
  }

  /** Adding keeps every line within stock, given what the screen guarantees: the
      product card disables its button when stock is 0 or less
      (src/components/product-card.tsx:15, 36), and the lines of the cart hold the
      same product record that is being added (the product list is reloaded only
      together with clearing the cart). */
  lemma AddKeepsWithinStock(cart: seq<CartItem>, product: Product)
    requires WithinStock(cart) && Distinct(cart)
    requires product.stock >= 1
    requires forall j :: 0 <= j < |cart| && cart[j].product.id == product.id ==> cart[j].product == product
    ensures WithinStock(Added(cart, product))
  {
  }

  /** A quantity of zero or less removes the line, exactly like `removeFromCart`. */
  lemma UpdateToNothingRemoves(cart: seq<CartItem>, id: Id, newQuantity: int)
    requires newQuantity <= 0
    ensures Updated(cart, id, newQuantity) == Removed(cart, id)
  {
  }

  /** A positive quantity is written into the matching line as given, without
      looking at stock; nothing else changes. */
  lemma UpdateSetsOnlyThatLine(cart: seq<CartItem>, id: Id, newQuantity: int)
    requires newQuantity > 0
    ensures var r := Updated(cart, id, newQuantity);
            && |r| == |cart|
            && forall j :: 0 <= j < |cart| ==>
                 r[j] == if cart[j].product.id == id then cart[j].(quantity := newQuantity) else cart[j]
  {
  }

  /** Updating keeps product ids distinct. */
  lemma UpdateKeepsDistinct(cart: seq<CartItem>, id: Id, newQuantity: int)
    requires Distinct(cart)
    ensures Distinct(Updated(cart, id, newQuantity))
  {
    if newQuantity <= 0 {
      SubsequenceKeepsDistinct(Removed(cart, id), cart);
    }
  }

  /** Removing takes away exactly the lines with that id, and in a keyed cart that
      is one line when the product is there. */
  lemma RemoveDropsOneLine(cart: seq<CartItem>, id: Id, i: nat)
    requires Distinct(cart)
    requires i < |cart| && cart[i].product.id == id
    ensures Removed(cart, id) == cart[..i] + cart[i + 1..]
  {
    RemovedSplit(cart, id, i);
  }

  lemma {:induction false} RemovedSplit(cart: seq<CartItem>, id: Id, i: nat)
    requires i < |cart| && cart[i].product.id == id
    requires forall j :: 0 <= j < |cart| && j != i ==> cart[j].product.id != id
    ensures Removed(cart, id) == cart[..i] + cart[i + 1..]
  {
    var front, back := cart[..i], cart[i + 1..];
    assert cart == front + ([cart[i]] + back);
    RemovedAppend(front, [cart[i]] + back, id);
    RemovedAppend([cart[i]], back, id);
    assert forall j :: 0 <= j < |front| ==> front[j] == cart[j];
    assert forall j :: 0 <= j < |back| ==> back[j] == cart[i + 1 + j];
    KeepsAllWithoutId(front, id);
    KeepsAllWithoutId(back, id);
  }

  /** Filtering distributes over concatenation. */
  lemma {:induction false} RemovedAppend(a: seq<CartItem>, b: seq<CartItem>, id: Id)
    ensures Removed(a + b, id) == Removed(a, id) + Removed(b, id)
  {
    if a == [] {
      assert a + b == b;
    } else {
      assert (a + b)[1..] == a[1..] + b;
      RemovedAppend(a[1..], b, id);
    }
  }

  lemma {:induction false} KeepsAllWithoutId(cart: seq<CartItem>, id: Id)
    requires forall j :: 0 <= j < |cart| ==> cart[j].product.id != id
    ensures Removed(cart, id) == cart
  {
    if cart != [] {
      KeepsAllWithoutId(cart[1..], id);
      assert [cart[0]] + cart[1..] == cart;
    }
  }

  /** `filteredProducts`: the product's name or its category's name (empty when it
      has none) contains the search text, ignoring case. */
  predicate MatchesSearch(product: Product, query: string)
  {
    var q := ToLower(query);
    Includes(ToLower(product.name), q)
    || Includes(ToLower(if product.categories.Some? then product.categories.value.name else ""), q)
  }

  function FilteredProducts(products: seq<Product>, query: string): (r: seq<Product>)
    ensures forall p :: p in r <==> p in products && MatchesSearch(p, query)
    ensures IsSubsequence(r, products)
  {
    if products == [] then []
    else
      var rest := FilteredProducts(products[1..], query);
      if MatchesSearch(products[0], query) then
        assert ([products[0]] + rest)[1..] == rest;
        [products[0]] + rest
      else rest
  }

  /** Each shown product appears as often as in the list, and a hidden one not at
      all. */
  lemma {:induction false} FilteredKeepsMultiplicity(products: seq<Product>, query: string, p: Product)
    ensures multiset(FilteredProducts(products, query))[p]
            == if MatchesSearch(p, query) then multiset(products)[p] else 0
  {
    if products != [] {
      assert products == [products[0]] + products[1..];
      FilteredKeepsMultiplicity(products[1..], query, p);
    }
  }

  /** An empty search box shows every product, in order. */
  lemma {:induction false} EmptySearchShowsAll(products: seq<Product>)
    ensures FilteredProducts(products, "") == products
  {
    if products != [] {
      IncludesEmpty(ToLower(products[0].name));
      EmptySearchShowsAll(products[1..]);
      assert [products[0]] + products[1..] == products;
    }
  }

  class CashierPage {
    var products: seq<Product>
    var cart: seq<CartItem>
    var showCheckout: bool

    /** The cart is keyed by product id. */
    ghost predicate Valid()
      reads this
    {
      Distinct(cart)
    }

    constructor ()
      ensures Valid() && products == [] && cart == [] && !showCheckout
    {
      products, cart, showCheckout := [], [], false;
    }

    method AddToCart(product: Product)
      requires Valid()
      modifies this`cart
      ensures Valid()
      ensures cart == Added(old(cart), product)
    {
      var existing := FindLine(cart, product.id);
      if existing.Some? {
        if cart[existing.value].quantity >= product.stock {
          return;
        }
        cart := MapMatching(cart, product.id, true, 0);
      } else {
        cart := cart + [CartItem(product, 1)];
      }
      AddKeepsDistinct(old(cart), product);
    }

    method UpdateQuantity(productId: Id, newQuantity: int)
      requires Valid()
      modifies this`cart
      ensures Valid()
      ensures cart == Updated(old(cart), productId, newQuantity)
    {
      UpdateKeepsDistinct(cart, productId, newQuantity);
      if newQuantity <= 0 {
        RemoveFromCart(productId);
        return;
      }
      cart := MapMatching(cart, productId, false, newQuantity);
    }

    method RemoveFromCart(productId: Id)
      requires Valid()
      modifies this`cart
      ensures Valid()
      ensures cart == Removed(old(cart), productId)
    {
      SubsequenceKeepsDistinct(Removed(cart, productId), cart);
      cart := Removed(cart, productId);
    }

    /** Opens the checkout dialog, unless the cart is empty ('Keranjang masih
        kosong!'); `refused` is whether that warning was shown. */
    method HandleCheckout() returns (refused: bool)
      modifies this`showCheckout
      ensures refused <==> cart == []
      ensures showCheckout == (old(showCheckout) || cart != [])
    {
      if |cart| == 0 {
        return true;
      }
      showCheckout := true;
      return false;
    }

    /** `setShowCheckout`, which the checkout dialog receives as `onOpenChange`. */
    method SetShowCheckout(open: bool)
      modifies this`showCheckout
      ensures showCheckout == open
    {
      showCheckout := open;
    }

    /** After a sale: the cart is emptied and the product list is reloaded (the
        reloaded list is what the store returns). */
    method HandleCheckoutSuccess(reloaded: seq<Product>)
      modifies this`cart, this`products
      ensures Valid()
      ensures cart == [] && products == reloaded
    {
      cart := [];
      products := reloaded;
    }
  }
}
