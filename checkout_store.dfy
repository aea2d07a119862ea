/** `createTransaction` of src/actions/transaction.ts: the checkout's three dependent
    writes against the hosted store, with no rollback.

    The store is a class with the three things the procedure touches: the transactions
    table, the transaction_items table, and the stored procedure `decrease_stock`.
    What `decrease_stock` does to a product's stock (whether it clamps at zero, whether
    it is atomic) lives outside the repository, so the model does not keep a stock
    figure: it keeps the log of decrement calls that succeeded, in the order they were
    made. Every answer of the store (an insert error, the generated id, an RPC error)
    is a parameter of the call.

    Two things the procedure does not write, as the source has it:
    - postage: the caller passes a third argument (src/components/checkout.tsx:62), but
      `createTransaction` takes two parameters, so postage is never persisted;
    - total_purchase_price: the insert writes `total` and `payment_method` only, so the
      column stays null and the dashboard reads it as 0. */
module Checkout {
  import opened Domain

  /** One successful `decrease_stock(product_id, decrease_amount)` call. */
  datatype StockCall = StockCall(productId: Id, amount: int)

  /** `{ error: message }` or `{ success: true, transaction }`. */
  datatype CheckoutResult = Failed(error: string) | Succeeded(transaction: Transaction)

  /** The rows a checkout appends to each part of the store. */
  datatype Effects = Effects(transactions: seq<Transaction>, items: seq<TransactionItem>, decrements: seq<StockCall>)

  /** The row inserted with `{ total, payment_method }`: id and created_at come from
      the store, total_purchase_price and postage stay null. */
  function NewRow(cart: seq<CartItem>, paymentMethod: PaymentMethod, id: Id, createdAt: int): Transaction
  {
    Transaction(id, CartTotal(cart), None, paymentMethod, None, createdAt)
  }

  /** The item row built for one cart line. */
  function ItemRow(txId: Id, line: CartItem): TransactionItem
  {
    TransactionItem(txId, line.product.id, line.quantity, line.product.price)
  }

  /** `cartItems.map(...)`: one item row per cart line, in cart order. */
  function ItemRows(txId: Id, cart: seq<CartItem>): (rows: seq<TransactionItem>)
    ensures |rows| == |cart|
    ensures forall i :: 0 <= i < |cart| ==>
              rows[i].transactionId == txId && rows[i].productId == cart[i].product.id
              && rows[i].quantity == cart[i].quantity && rows[i].price == cart[i].product.price
  {
    if cart == [] then [] else [ItemRow(txId, cart[0])] + ItemRows(txId, cart[1..])
  }

  /** The decrement call made for one cart line. */
  function StockCallFor(line: CartItem): StockCall
  {
    StockCall(line.product.id, line.quantity)
  }

  /** The decrement calls for a run of cart lines, in cart order. */
  function Decrements(lines: seq<CartItem>): (calls: seq<StockCall>)
    ensures |calls| == |lines|
    ensures forall i :: 0 <= i < |lines| ==>
              calls[i].productId == lines[i].product.id && calls[i].amount == lines[i].quantity
  {
    if lines == [] then [] else [StockCallFor(lines[0])] + Decrements(lines[1..])
  }

  /** The answer of the `i`-th `decrease_stock` call; calls beyond the given
      answers succeed. */
  function ErrorAt(stockErrors: seq<Option<string>>, i: nat): Option<string>
  {
    if i < |stockErrors| then stockErrors[i] else None
  }

  /** The index of the first of the calls `from`, ..., `n - 1` that fails, or `n`
      when none does. */
  function FirstFailureFrom(stockErrors: seq<Option<string>>, from: nat, n: nat): (k: nat)
    requires from <= n
    ensures from <= k <= n
    ensures forall i :: from <= i < k ==> ErrorAt(stockErrors, i).None?
    ensures k < n ==> ErrorAt(stockErrors, k).Some?
    decreases n - from
  {
    if from == n then n
    else if ErrorAt(stockErrors, from).Some? then from
    else FirstFailureFrom(stockErrors, from + 1, n)
  }

  /** How many lines of an `n`-line cart have their decrement done before the loop
      stops: all of them, or those before the first failing call. */
  function FirstStockFailure(stockErrors: seq<Option<string>>, n: nat): (k: nat)
    ensures k <= n
    ensures forall i :: 0 <= i < k ==> ErrorAt(stockErrors, i).None?
    ensures k < n ==> ErrorAt(stockErrors, k).Some?
  {
    FirstFailureFrom(stockErrors, 0, n)
  }

  /** What one checkout returns and what it appends to the store, given the store's
      answers: the insert of the transaction row, the insert of the item rows, and
      the answer of each decrement call in turn. */
  function CheckoutSpec(cart: seq<CartItem>, paymentMethod: PaymentMethod, insertTx: InsertOutcome,
                        itemsError: Option<string>, stockErrors: seq<Option<string>>): (CheckoutResult, Effects)
  {
    match insertTx
    case InsertFailed(message) => (Failed(message), Effects([], [], []))
    case Inserted(id, createdAt) =>
      var row := NewRow(cart, paymentMethod, id, createdAt);
      if itemsError.Some? then (Failed(itemsError.value), Effects([row], [], []))
      else
        var k := FirstStockFailure(stockErrors, |cart|);
        var effects := Effects([row], ItemRows(id, cart), Decrements(cart[..k]));
        if k < |cart| then (Failed(ErrorAt(stockErrors, k).value), effects)
        else (Succeeded(row), effects)
  }

  /** One more line adds its call at the end. */
  lemma {:induction false} DecrementsSnoc(lines: seq<CartItem>, line: CartItem)
    ensures Decrements(lines + [line]) == Decrements(lines) + [StockCallFor(line)]
  {
    var l := Decrements(lines + [line]);
    var r := Decrements(lines) + [StockCallFor(line)];
    assert |l| == |r|;
    forall i | 0 <= i < |l| ensures l[i] == r[i] {
      if i < |lines| {
        assert (lines + [line])[i] == lines[i];
      }
    }
  }

  class Store {
    var transactions: seq<Transaction>
    var items: seq<TransactionItem>
    /** The `decrease_stock` calls that succeeded, oldest first. */
    var decrements: seq<StockCall>

    constructor ()
      ensures transactions == [] && items == [] && decrements == []
    {
      transactions, items, decrements := [], [], [];
    }

    /** `createTransaction(cartItems, paymentMethod)`. */
    method CreateTransaction(cart: seq<CartItem>, paymentMethod: PaymentMethod, insertTx: InsertOutcome,
                             itemsError: Option<string>, stockErrors: seq<Option<string>>)
      returns (r: CheckoutResult)
      modifies this
      ensures r == CheckoutSpec(cart, paymentMethod, insertTx, itemsError, stockErrors).0
      ensures transactions == old(transactions) + CheckoutSpec(cart, paymentMethod, insertTx, itemsError, stockErrors).1.transactions
      ensures items == old(items) + CheckoutSpec(cart, paymentMethod, insertTx, itemsError, stockErrors).1.items
      ensures decrements == old(decrements) + CheckoutSpec(cart, paymentMethod, insertTx, itemsError, stockErrors).1.decrements
    {
      ghost var spec := CheckoutSpec(cart, paymentMethod, insertTx, itemsError, stockErrors);
      // Create transaction
      if insertTx.InsertFailed? {
        assert spec == (Failed(insertTx.message), Effects([], [], []));
        return Failed(insertTx.message);
      }
      var row := NewRow(cart, paymentMethod, insertTx.id, insertTx.createdAt);
      transactions := transactions + [row];

      // Create transaction items
      if itemsError.Some? {
        assert spec == (Failed(itemsError.value), Effects([row], [], []));
        return Failed(itemsError.value);
      }
      items := items + ItemRows(insertTx.id, cart);
      ghost var k := FirstStockFailure(stockErrors, |cart|);
      assert spec.1 == Effects([row], ItemRows(insertTx.id, cart), Decrements(cart[..k]));

      // Update stock for each product
      var done := DecreaseStockInOrder(cart, stockErrors);
      if done < |cart| {
        assert spec.0 == Failed(ErrorAt(stockErrors, done).value);
        return Failed(ErrorAt(stockErrors, done).value);
      }
      assert spec.0 == Succeeded(row);
      return Succeeded(row);
    }

    /** The loop `for (const item of cartItems)`: calls `decrease_stock` for each line in
        cart order and stops at the first call that fails. Returns how many lines had
        their decrement done. */
    method DecreaseStockInOrder(cart: seq<CartItem>, stockErrors: seq<Option<string>>) returns (done: nat)
      modifies this`decrements
      ensures done == FirstStockFailure(stockErrors, |cart|)
      ensures decrements == old(decrements) + Decrements(cart[..done])
    {
      var i := 0;
      while i < |cart|
        invariant 0 <= i <= |cart|
        invariant forall j :: 0 <= j < i ==> ErrorAt(stockErrors, j).None?
        invariant decrements == old(decrements) + Decrements(cart[..i])
      {
        var stockError := ErrorAt(stockErrors, i);
        if stockError.Some? {
          return i;
        }
        decrements := decrements + [StockCallFor(cart[i])];
        assert cart[..i + 1] == cart[..i] + [cart[i]];
        DecrementsSnoc(cart[..i], cart[i]);
        i := i + 1;
      }
      return i;
    }
  }

  /** If the transaction insert fails, its error is returned and nothing is written:
      no transaction, no item, no decrement. */
  lemma InsertFailureWritesNothing(cart: seq<CartItem>, paymentMethod: PaymentMethod, message: string,
                                   itemsError: Option<string>, stockErrors: seq<Option<string>>)
    ensures CheckoutSpec(cart, paymentMethod, InsertFailed(message), itemsError, stockErrors)
            == (Failed(message), Effects([], [], []))
  {
  }

  /** If the items insert fails, its error is returned; the transaction row stays
      (an orphan with no items) and no stock is decremented. */
  lemma ItemsFailureLeavesOrphan(cart: seq<CartItem>, paymentMethod: PaymentMethod, id: Id, createdAt: int,
                                 message: string, stockErrors: seq<Option<string>>)
    ensures var (r, e) := CheckoutSpec(cart, paymentMethod, Inserted(id, createdAt), Some(message), stockErrors);
            && r == Failed(message)
            && e.transactions == [NewRow(cart, paymentMethod, id, createdAt)]
            && e.items == [] && e.decrements == []
  {
  }

  /** Once both inserts succeed: one item row per line in cart order, and the
      decrements done are exactly those of the lines before the first failing call,
      each by its line's quantity; the failing call's error is returned. */
  lemma StockFailureLeavesPrefix(cart: seq<CartItem>, paymentMethod: PaymentMethod, id: Id, createdAt: int,
                                 stockErrors: seq<Option<string>>, k: nat)
    requires k < |cart|
    requires forall i :: 0 <= i < k ==> ErrorAt(stockErrors, i).None?
    requires ErrorAt(stockErrors, k).Some?
    ensures var (r, e) := CheckoutSpec(cart, paymentMethod, Inserted(id, createdAt), None, stockErrors);
            && r == Failed(ErrorAt(stockErrors, k).value)
            && |e.items| == |cart|
            && |e.decrements| == k
            && forall i :: 0 <= i < k ==> e.decrements[i] == StockCall(cart[i].product.id, cart[i].quantity)
  {
    var n := FirstStockFailure(stockErrors, |cart|);
    assert n == k;
  }

  /** A checkout succeeds exactly when both inserts succeed and every line's
      decrement call succeeds. */
  lemma SucceedsIffEveryStepSucceeds(cart: seq<CartItem>, paymentMethod: PaymentMethod, insertTx: InsertOutcome,
                                     itemsError: Option<string>, stockErrors: seq<Option<string>>)
    ensures CheckoutSpec(cart, paymentMethod, insertTx, itemsError, stockErrors).0.Succeeded?
            <==> insertTx.Inserted? && itemsError.None?
                 && forall i :: 0 <= i < |cart| ==> ErrorAt(stockErrors, i).None?
  {
    if insertTx.Inserted? && itemsError.None? {
      var k := FirstStockFailure(stockErrors, |cart|);
    }
  }

  /** On success every line has been decremented by its quantity, in cart order, and
      the returned transaction is the inserted row: its total is the cart's value and
      it carries neither postage nor purchase price. */
  lemma SuccessEffects(cart: seq<CartItem>, paymentMethod: PaymentMethod, id: Id, createdAt: int,
                       stockErrors: seq<Option<string>>)
    requires forall i :: 0 <= i < |cart| ==> ErrorAt(stockErrors, i).None?
    ensures var (r, e) := CheckoutSpec(cart, paymentMethod, Inserted(id, createdAt), None, stockErrors);
            && r.Succeeded?
            && r.transaction == Transaction(id, CartTotal(cart), None, paymentMethod, None, createdAt)
            && e.transactions == [r.transaction]
            && e.items == ItemRows(id, cart)
            && e.decrements == Decrements(cart)
  {
    assert cart[..|cart|] == cart;
  }

  /** There is no empty-cart guard: an empty cart whose inserts succeed yields a
      transaction with total 0, no item rows and no decrements. */
  lemma EmptyCartIsAccepted(paymentMethod: PaymentMethod, id: Id, createdAt: int, stockErrors: seq<Option<string>>)
    ensures CheckoutSpec([], paymentMethod, Inserted(id, createdAt), None, stockErrors)
            == (Succeeded(Transaction(id, 0, None, paymentMethod, None, createdAt)), Effects([Transaction(id, 0, None, paymentMethod, None, createdAt)], [], []))
  {
  }
}
