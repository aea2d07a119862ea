/** The records of src/interface/index.ts, and the one formula every screen shares:
    the value of a cart, Σ price × quantity. Money is IDR and has no fractional part,
    so it is an `int`; timestamps are integers (milliseconds). */
module Domain {

  datatype Option<T> = None | Some(value: T)

  type Id = string

  datatype Category = Category(id: Id, name: string)

  /** A product row. `categories` is the joined category row, absent when the join
      found none. */
  datatype Product = Product(
    id: Id,
    name: string,
    price: int,
    purchasePrice: int,
    stock: int,
    categoriesId: Id,
    categories: Option<Category>)

  datatype PaymentMethod = Cash | Card | Qris

  /** The lower-case tag the store keeps in `payment_method`. */
  function MethodName(m: PaymentMethod): string
  {
    match m
    case Cash => "cash"
    case Card => "card"
    case Qris => "qris"
  }

  /** A transaction row. `totalPurchasePrice` and `postage` are columns that may hold
      null; the checkout never writes either of them. */
  datatype Transaction = Transaction(
    id: Id,
    total: int,
    totalPurchasePrice: Option<int>,
    paymentMethod: PaymentMethod,
    postage: Option<int>,
    createdAt: int)

  /** A transaction_items row as the checkout writes it: no purchase price. */
  datatype TransactionItem = TransactionItem(transactionId: Id, productId: Id, quantity: int, price: int)

  /** A line of the cashier's cart: a snapshot of the product and a quantity. */
  datatype CartItem = CartItem(product: Product, quantity: int)

  /** What a store insert reports: the message of its error, or the generated key
      (and creation time) of the new row. */
  datatype InsertOutcome = InsertFailed(message: string) | Inserted(id: Id, createdAt: int)

  /** The extended price of one cart line. */
  function LineTotal(item: CartItem): int
  {
    item.product.price * item.quantity
  }

  /** `items.reduce((sum, item) => sum + item.product.price * item.quantity, 0)`:
      a fold from the left, written over the prefix. */
  function CartTotal(items: seq<CartItem>): int
  {
    if items == [] then 0 else CartTotal(items[..|items| - 1]) + LineTotal(items[|items| - 1])
  }

  /** The value of two carts side by side is the sum of their values. */
  lemma {:induction false} CartTotalAppend(a: seq<CartItem>, b: seq<CartItem>)
    ensures CartTotal(a + b) == CartTotal(a) + CartTotal(b)
    decreases |b|
  {
    if b != [] {
      var ab := a + b;
      assert ab[..|ab| - 1] == a + b[..|b| - 1];
      assert ab[|ab| - 1] == b[|b| - 1];
      CartTotalAppend(a, b[..|b| - 1]);
    } else {
      assert a + b == a;
    }
  }

  /** The value of a cart, taken from its first line. */
  lemma {:induction false} CartTotalFront(cart: seq<CartItem>)
    requires cart != []
    ensures CartTotal(cart) == LineTotal(cart[0]) + CartTotal(cart[1..])
  {
    CartTotalAppend([cart[0]], cart[1..]);
    assert [cart[0]] + cart[1..] == cart;
    assert CartTotal([cart[0]]) == CartTotal([]) + LineTotal(cart[0]);
  }

  /** The value of a one-line cart. */
  lemma CartTotalSingle(x: CartItem)
    ensures CartTotal([x]) == LineTotal(x)
  {
    assert [x][..0] == [];
  }

  /** Taking one line out of a cart lowers its value by that line's value. */
  lemma CartTotalRemove(b: seq<CartItem>, i: nat)
    requires i < |b|
    ensures CartTotal(b) == CartTotal(b[..i] + b[i + 1..]) + LineTotal(b[i])
  {
    var left, x, right := b[..i], b[i], b[i + 1..];
    assert left + [x] == b[..i + 1];
    assert b[..i + 1] + right == b;
    CartTotalAppend(left + [x], right);
    CartTotalAppend(left, [x]);
    CartTotalAppend(left, right);
    CartTotalSingle(x);
  }

  /** Taking one element out of a sequence takes it out of its multiset. */
  lemma MultisetRemove<T>(b: seq<T>, i: nat)
    requires i < |b|
    ensures multiset(b[..i] + b[i + 1..]) == multiset(b) - multiset{b[i]}
  {
    assert b == b[..i] + [b[i]] + b[i + 1..];
  }

  /** The value of a cart does not depend on the order of its lines. */
  lemma {:induction false} CartTotalPermutation(a: seq<CartItem>, b: seq<CartItem>)
    requires multiset(a) == multiset(b)
    ensures CartTotal(a) == CartTotal(b)
    decreases |a|
  {
    if a == [] {
      assert |b| == |multiset(b)| == 0;
    } else {
      var x := a[|a| - 1];
      var a' := a[..|a| - 1];
      assert a == a' + [x];
      assert x in multiset(b);
      var i :| 0 <= i < |b| && b[i] == x;
      CartTotalRemove(b, i);
      MultisetRemove(b, i);
      assert multiset(a') == multiset(a) - multiset{x};
      CartTotalPermutation(a', b[..i] + b[i + 1..]);
      CartTotalAppend(a', [x]);
      CartTotalSingle(x);
    }
  }

  /** `a` is what remains of `b` after dropping some of its elements, the order kept:
      what `Array.prototype.filter` produces. */
  predicate IsSubsequence<T(==)>(a: seq<T>, b: seq<T>)
    decreases |b|
  {
    if a == [] then true
    else if b == [] then false
    else if a[0] == b[0] then IsSubsequence(a[1..], b[1..])
    else IsSubsequence(a, b[1..])
  }
}
