/** The payment dialog of src/components/checkout.tsx: the amounts it derives from
    the cart and from two text fields (postage and cash handed over), the guard that
    refuses a cash payment below the total, and the submit handler that runs the
    checkout against the store and then empties the cashier's cart.

    The two text fields hold what `parseFloat(field || '0')` reads from them: `None`
    for an empty field, which counts as 0, and `Some(n)` for a number. */
module Payment {
  import opened Domain
  import opened Checkout
  import opened Cashier

  /** `parseFloat(field || '0')` for a field that is empty or holds a number. */
  function AmountOf(field: Option<int>): (n: int)
    ensures field == None ==> n == 0
    ensures field.Some? ==> n == field.value
  {
    match field
    case None => 0
    case Some(v) => v
  }

  /** `subtotal + postageAmount`: what the customer is asked to pay. */
  function Total(items: seq<CartItem>, postage: Option<int>): (t: int)
    ensures t - AmountOf(postage) == CartTotal(items)
  {
    CartTotal(items) + AmountOf(postage)
  }

  /** The change handed back: `Math.max(0, cash - total)` for a cash payment, 0 for
      card and QRIS. */
  function Change(pm: PaymentMethod, cash: int, total: int): (c: int)
    ensures c >= 0
    ensures pm != Cash ==> c == 0
    ensures pm == Cash && cash >= total ==> cash == total + c
    ensures cash <= total ==> c == 0
  {
    if pm == Cash then (if cash - total > 0 then cash - total else 0) else 0
  }

  /** The cash guard of `handleSubmit` ('Jumlah uang tidak cukup!'), which is also the
      second half of the submit button's `disabled`. */
  predicate CashShort(pm: PaymentMethod, cash: int, total: int)
  {
    pm == Cash && cash < total
  }

  /** `disabled={loading || (paymentMethod === 'cash' && cashAmountNum < total)}`. */
  predicate SubmitDisabled(loading: bool, pm: PaymentMethod, cash: int, total: int)
  {
    loading || CashShort(pm, cash, total)
  }

  /** Empty postage and cash fields read as 0: the amount due is the cart's value,
      and a cash sale of a cart worth anything is refused until cash is entered. */
  lemma EmptyFieldsReadAsZero(items: seq<CartItem>)
    ensures Total(items, None) == CartTotal(items)
    ensures CashShort(Cash, AmountOf(None), Total(items, None)) <==> CartTotal(items) > 0
  {
  }

  /** When nothing is loading, the submit button is disabled exactly when the
      handler's cash guard would refuse; an enabled button never meets the guard. */
  lemma SubmitButtonMatchesGuard(loading: bool, pm: PaymentMethod, cash: int, total: int)
    ensures !loading ==> (SubmitDisabled(loading, pm, cash, total) <==> CashShort(pm, cash, total))
    ensures !SubmitDisabled(loading, pm, cash, total) ==> !CashShort(pm, cash, total)
    ensures loading ==> SubmitDisabled(loading, pm, cash, total)
  {
  }

  /** The note under the cash field: the change when enough cash was entered, the
      amount still missing when too little was entered, nothing when no cash (or a
      payment other than cash) was entered. */
  datatype CashNote = NoNote | ShowChange(change: int) | ShowShortfall(missing: int)

  function NoteFor(pm: PaymentMethod, cash: int, total: int): CashNote
  {
    if pm != Cash then NoNote
    else if cash > 0 && cash >= total then ShowChange(Change(pm, cash, total))
    else if cash > 0 && cash < total then ShowShortfall(total - cash)
    else NoNote
  }

  /** Once some cash is entered, the note shows a shortfall exactly when the guard
      refuses the payment; the shortfall is positive and the change is what makes the
      cash up to the total. */
  lemma NoteAgreesWithGuard(cash: int, total: int)
    requires cash > 0
    ensures NoteFor(Cash, cash, total).ShowShortfall? <==> CashShort(Cash, cash, total)
    ensures NoteFor(Cash, cash, total).ShowChange? <==> !CashShort(Cash, cash, total)
    ensures NoteFor(Cash, cash, total).ShowShortfall? ==> NoteFor(Cash, cash, total).missing > 0
    ensures NoteFor(Cash, cash, total).ShowChange? ==>
              cash == total + NoteFor(Cash, cash, total).change
  {
  }

  /** Card and QRIS payments are never refused by the guard, and give no change. */
  lemma NonCashAlwaysAccepted(pm: PaymentMethod, cash: int, total: int)
    requires pm != Cash
    ensures !CashShort(pm, cash, total) && Change(pm, cash, total) == 0
    ensures NoteFor(pm, cash, total) == NoNote
  {
  }

  /** What the invoice is opened with after a sale. `total` is the subtotal (without
      postage), `paymentAmount` the cash entered. */
  datatype InvoiceData = InvoiceData(id: Id, items: seq<CartItem>, total: int, postage: int,
                                     paymentAmount: int, change: int)

  /** What the submit handler ended with. */
  datatype SubmitOutcome = NotEnoughCash | Rejected(error: string) | Paid(transaction: Transaction)

  /** The invoice built from a successful checkout. */
  function InvoiceFor(tx: Transaction, items: seq<CartItem>, pm: PaymentMethod,
                      postage: Option<int>, cash: Option<int>): (inv: InvoiceData)
    ensures inv.id == tx.id && inv.items == items
    ensures inv.total == CartTotal(items) && inv.postage == AmountOf(postage)
    ensures inv.paymentAmount == AmountOf(cash)
  {
    InvoiceData(tx.id, items, CartTotal(items), AmountOf(postage), AmountOf(cash),
                Change(pm, AmountOf(cash), Total(items, postage)))
  }

  /** What the invoice and the stored row say about a sale. The invoice's amount is
      the stored total, the row holds no postage however much was charged, and when
      cash was accepted it covers the stored total, the postage and the change. */
  lemma InvoiceMatchesStoredRow(cart: seq<CartItem>, pm: PaymentMethod, id: Id, createdAt: int,
                                postage: Option<int>, cash: Option<int>, stockErrors: seq<Option<string>>)
    requires !CashShort(pm, AmountOf(cash), Total(cart, postage))
    requires forall i :: 0 <= i < |cart| ==> ErrorAt(stockErrors, i).None?
    ensures var r := CheckoutSpec(cart, pm, Inserted(id, createdAt), None, stockErrors).0;
            r.Succeeded?
            && var inv := InvoiceFor(r.transaction, cart, pm, postage, cash);
            inv.total == r.transaction.total
            && r.transaction.postage == None
            && (pm == Cash ==> inv.paymentAmount == r.transaction.total + inv.postage + inv.change)
  {
    SuccessEffects(cart, pm, id, createdAt, stockErrors);
  }

  class CheckoutDialog {
    var paymentMethod: PaymentMethod
    var cashAmount: Option<int>
    var postage: Option<int>
    var loading: bool
    var showInvoice: bool
    var transactionData: Option<InvoiceData>

    constructor ()
      ensures paymentMethod == Cash && cashAmount == None && postage == None
      ensures !loading && !showInvoice && transactionData == None
    {
      paymentMethod, cashAmount, postage := Cash, None, None;
      loading, showInvoice, transactionData := false, false, None;
    }

    /** `handleSubmit`, with the page's cart as the dialog's items. The store's
        answers are parameters, as in `Store.CreateTransaction`; `reloaded` is the
        product list the page loads again after a sale. The invoice opens right away
        rather than 300 ms later. */
    method HandleSubmit(page: CashierPage, store: Store, insertTx: InsertOutcome,
                        itemsError: Option<string>, stockErrors: seq<Option<string>>,
                        reloaded: seq<Product>)
      returns (outcome: SubmitOutcome)
      requires page.Valid()
      modifies this, page, store
      ensures page.Valid()
      ensures CashShort(old(paymentMethod), AmountOf(old(cashAmount)), Total(old(page.cart), old(postage))) ==>
                outcome == NotEnoughCash
                && unchanged(this) && unchanged(page) && unchanged(store)
      ensures !CashShort(old(paymentMethod), AmountOf(old(cashAmount)), Total(old(page.cart), old(postage))) ==>
                var spec := CheckoutSpec(old(page.cart), old(paymentMethod), insertTx, itemsError, stockErrors);
                store.transactions == old(store.transactions) + spec.1.transactions
                && store.items == old(store.items) + spec.1.items
                && store.decrements == old(store.decrements) + spec.1.decrements
                && !loading && paymentMethod == old(paymentMethod)
                && (spec.0.Failed? ==>
                      outcome == Rejected(spec.0.error)
                      && unchanged(page)
                      && cashAmount == old(cashAmount) && postage == old(postage)
                      && showInvoice == old(showInvoice) && transactionData == old(transactionData))
                && (spec.0.Succeeded? ==>
                      outcome == Paid(spec.0.transaction)
                      && transactionData == Some(InvoiceFor(spec.0.transaction, old(page.cart), old(paymentMethod),
                                                            old(postage), old(cashAmount)))
                      && showInvoice && cashAmount == None && postage == None
                      && page.cart == [] && page.products == reloaded && !page.showCheckout)
    {
      var items := page.cart;
      var cash := AmountOf(cashAmount);
      var total := Total(items, postage);
      if paymentMethod == Cash && cash < total {
        return NotEnoughCash;
      }
      loading := true;
      var result := store.CreateTransaction(items, paymentMethod, insertTx, itemsError, stockErrors);
      if result.Failed? {
        loading := false;
        return Rejected(result.error);
      }
      transactionData := Some(InvoiceFor(result.transaction, items, paymentMethod, postage, cashAmount));
      page.SetShowCheckout(false);
      page.HandleCheckoutSuccess(reloaded);
      showInvoice := true;
      cashAmount, postage := None, None;
      loading := false;
      return Paid(result.transaction);
    }

    /** `handleInvoiceClose`. */
    method HandleInvoiceClose()
      modifies this`showInvoice, this`transactionData
      ensures !showInvoice && transactionData == None
    {
      showInvoice, transactionData := false, None;
    }
  }
}
