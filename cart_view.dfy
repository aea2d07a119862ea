/** The cart panel of src/components/carts.tsx: its total, whether it offers the
    checkout button, and the −/+ buttons of each line, which ask the page for a new
    quantity and are disabled at the bounds. */
module CartView {
  import opened Domain
  import opened Cashier

  /** The panel shows the checkout button only for a non-empty cart. */
  predicate ShowsCheckoutButton(items: seq<CartItem>)
  {
    |items| != 0
  }

  datatype Control = Decrease | Increase

  /** The quantity a button passes to `onUpdateQuantity`. */
  function Requested(item: CartItem, control: Control): int
  {
    match control
    case Decrease => item.quantity - 1
    case Increase => item.quantity + 1
  }

  /** `disabled={item.quantity <= 1}` and `disabled={item.quantity >= item.product.stock}`. */
  predicate Enabled(item: CartItem, control: Control)
  {
    match control
    case Decrease => !(item.quantity <= 1)
    case Increase => !(item.quantity >= item.product.stock)
  }

  /** An enabled button asks for a quantity between 1 and the line's stock: the
      decrease button never reaches 0 and the increase button never passes stock. */
  lemma EnabledRequestWithinBounds(item: CartItem, control: Control)
    requires Enabled(item, control)
    requires 1 <= item.quantity <= item.product.stock
    ensures 1 <= Requested(item, control) <= item.product.stock
  {
  }

  /** The panel's total is the cart's value, whatever the order of the lines, and an
      empty cart has no checkout button and a total of 0. */
  lemma PanelTotal(items: seq<CartItem>, shuffled: seq<CartItem>)
    requires multiset(items) == multiset(shuffled)
    ensures CartTotal(items) == CartTotal(shuffled)
    ensures !ShowsCheckoutButton(items) <==> items == []
    ensures items == [] ==> CartTotal(items) == 0
  {
    CartTotalPermutation(items, shuffled);
  }

  /** Pressing an enabled button on line `i` of a keyed cart whose lines are all
      within stock leaves every line within stock: the page's `updateQuantity` does
      not check stock, the buttons do. */
  lemma ButtonsKeepCartWithinStock(cart: seq<CartItem>, i: nat, control: Control)
    requires Distinct(cart) && WithinStock(cart)
    requires i < |cart| && Enabled(cart[i], control)
    ensures WithinStock(Updated(cart, cart[i].product.id, Requested(cart[i], control)))
  {
    EnabledRequestWithinBounds(cart[i], control);
  }
}
