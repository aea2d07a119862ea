/** The transaction history of src/app/admin/transaction/page.tsx: the search and
    date filter, the pagination arithmetic, the page navigation, and the margin and
    item subtotals it shows.

    Dates are timestamps in milliseconds. A date input holds a calendar day, given
    here as the timestamp of that day's midnight in UTC. The two inputs are read in
    different time zones:
    - `new Date(startDate)` parses the date-only form as UTC, so the start bound is
      UTC midnight of the start day;
    - `new Date(endDate + 'T23:59:59')` parses a date-time form as local time, so
      the end bound is 23:59:59 on the browser's clock.
    `zoneOffset` is how far the browser's clock is ahead of UTC, in milliseconds
    (25_200_000 for UTC+7). */
module History {
  import opened Domain
  import opened Text
  import opened Checkout

  /** 23 hours, 59 minutes and 59 seconds, in milliseconds. */
  const UntilEndOfDay := 86_399_000

  /** The search box: the query, lower-cased, is part of the lower-cased id or of
      the payment method's tag. */
  predicate MatchesSearch(tx: Transaction, query: string)
  {
    var q := ToLower(query);
    Includes(ToLower(tx.id), q) || Includes(ToLower(MethodName(tx.paymentMethod)), q)
  }

  /** The date inputs; an empty input does not filter. */
  predicate MatchesDates(tx: Transaction, startDay: Option<int>, endDay: Option<int>, zoneOffset: int)
  {
    (startDay.None? || tx.createdAt >= startDay.value)
    && (endDay.None? || tx.createdAt <= endDay.value - zoneOffset + UntilEndOfDay)
  }

  predicate Matches(tx: Transaction, query: string, startDay: Option<int>, endDay: Option<int>, zoneOffset: int)
  {
    MatchesSearch(tx, query) && MatchesDates(tx, startDay, endDay, zoneOffset)
  }

  /** `filteredTransactions`: the matching transactions, in the order loaded. */
  function Filtered(txs: seq<Transaction>, query: string, startDay: Option<int>, endDay: Option<int>, zoneOffset: int)
    : (r: seq<Transaction>)
    ensures forall t :: t in r <==> t in txs && Matches(t, query, startDay, endDay, zoneOffset)
    ensures IsSubsequence(r, txs)
    ensures |r| <= |txs|
  {
    if txs == [] then []
    else
      var rest := Filtered(txs[1..], query, startDay, endDay, zoneOffset);
      if Matches(txs[0], query, startDay, endDay, zoneOffset) then
        assert ([txs[0]] + rest)[1..] == rest;
        [txs[0]] + rest
      else rest
  }

  /** Each listed transaction appears as often as in the loaded list, and one the
      filters reject not at all. */
  lemma {:induction false} FilteredKeepsMultiplicity(txs: seq<Transaction>, query: string, startDay: Option<int>,
                                                     endDay: Option<int>, zoneOffset: int, t: Transaction)
    ensures multiset(Filtered(txs, query, startDay, endDay, zoneOffset))[t]
            == if Matches(t, query, startDay, endDay, zoneOffset) then multiset(txs)[t] else 0
  {
    if txs != [] {
      assert txs == [txs[0]] + txs[1..];
      FilteredKeepsMultiplicity(txs[1..], query, startDay, endDay, zoneOffset, t);
    }
  }

  /** No query and no dates: every transaction is listed, in order. */
  lemma {:induction false} NoFilterKeepsAll(txs: seq<Transaction>, zoneOffset: int)
    ensures Filtered(txs, "", None, None, zoneOffset) == txs
  {
    if txs != [] {
      IncludesEmpty(ToLower(txs[0].id));
      NoFilterKeepsAll(txs[1..], zoneOffset);
      assert [txs[0]] + txs[1..] == txs;
    }
  }

  /** Filtering on one day keeps the transactions from UTC midnight of the day
      through 23:59:59.000 of it on the browser's clock; in UTC that is the whole
      day, and a sale later in its last second is left out. */
  lemma OneDayBounds(tx: Transaction, day: int, zoneOffset: int)
    ensures MatchesDates(tx, Some(day), Some(day), zoneOffset)
            <==> day <= tx.createdAt <= day - zoneOffset + UntilEndOfDay
    ensures zoneOffset == 0 && tx.createdAt == day + UntilEndOfDay + 500 ==>
              !MatchesDates(tx, Some(day), Some(day), zoneOffset)
  {
  }

  /** Away from UTC the one-day window is not the local day. In UTC+7 a sale at
      00:30 local time on the chosen day is left out, since that is still the
      previous day in UTC. In UTC-5 a sale at 19:00 local time on the day before is
      kept, since that is already the chosen day in UTC. */
  lemma OneDayWindowFollowsUtcStart(day: int)
    ensures var utcPlus7 := 25_200_000;
            !MatchesDates(Transaction("t1", 0, None, Cash, None, day - utcPlus7 + 1_800_000), Some(day), Some(day), utcPlus7)
    ensures var utcMinus5 := -18_000_000;
            MatchesDates(Transaction("t2", 0, None, Cash, None, day), Some(day), Some(day), utcMinus5)
  {
  }

  /** `a` pages of `c` rows, and one page more. */
  lemma MulSucc(a: int, c: int)
    ensures a * c + c == (a + 1) * c
  {
  }

  /** More pages hold more rows. */
  lemma MulMonotone(a: int, b: int, c: nat)
    requires a <= b
    ensures a * c <= b * c
  {
    assert b * c - a * c == (b - a) * c;
  }

  /** Cancelling a positive factor on both sides of `<`. */
  lemma MulCancelLess(a: int, b: int, c: int)
    requires c > 0 && a * c < b * c
    ensures a < b
  {
    assert (b - a) * c == b * c - a * c > 0;
  }

  /** `Math.ceil(n / itemsPerPage)`. */
  function TotalPages(n: nat, perPage: nat): (t: nat)
    requires perPage > 0
    ensures n <= t * perPage
    ensures t == 0 <==> n == 0
    ensures t > 0 ==> (t - 1) * perPage < n
  {
    var q, rem := n / perPage, n % perPage;
    CeilingBounds(n, perPage, q, rem);
    if rem == 0 then q else q + 1
  }

  /** With `n == q * c + rem`, rounding the quotient up gives the least number of
      pages of `c` rows that hold `n` rows. */
  lemma CeilingBounds(n: nat, c: nat, q: nat, rem: nat)
    requires c > 0 && n == q * c + rem && rem < c
    ensures var t := if rem == 0 then q else q + 1;
            n <= t * c && (t == 0 <==> n == 0) && (t > 0 ==> (t - 1) * c < n)
  {
    MulSucc(q, c);
    MulMonotone(0, q, c);
    if q > 0 {
      MulSucc(q - 1, c);
    }
  }

  /** `filtered.slice((page - 1) * perPage, (page - 1) * perPage + perPage)`, with
      `slice`'s clamping at the end of the list. */
  function PageSlice<T>(list: seq<T>, page: int, perPage: nat): (r: seq<T>)
    requires page >= 1 && perPage > 0
    ensures |r| <= perPage
    ensures forall k :: 0 <= k < |r| ==> (page - 1) * perPage + k < |list| && r[k] == list[(page - 1) * perPage + k]
  {
    var start := (page - 1) * perPage;
    if start >= |list| then []
    else list[start..if start + perPage <= |list| then start + perPage else |list|]
  }

  /** How many rows the page starting at `start` shows. */
  lemma PageLength<T>(list: seq<T>, page: int, perPage: nat, start: int)
    requires page >= 1 && perPage > 0 && start == (page - 1) * perPage
    ensures |PageSlice(list, page, perPage)|
            == if start >= |list| then 0 else if start + perPage <= |list| then perPage else |list| - start
  {
  }

  /** The "first-last dari n" label: `startIndex + 1` and `Math.min(endIndex, n)`. */
  function RangeLabel(n: nat, page: int, perPage: nat): (int, int)
  {
    var start := (page - 1) * perPage;
    (start + 1, if start + perPage <= n then start + perPage else n)
  }

  /** Each page in 1..totalPages shows at least one row and at most `perPage`; every
      page but the last is full; the label counts exactly the rows shown. */
  lemma PagesInRange<T>(list: seq<T>, page: int, perPage: nat)
    requires perPage > 0 && 1 <= page <= TotalPages(|list|, perPage)
    ensures 0 < |PageSlice(list, page, perPage)| <= perPage
    ensures page < TotalPages(|list|, perPage) ==> |PageSlice(list, page, perPage)| == perPage
    ensures var (first, last) := RangeLabel(|list|, page, perPage);
            1 <= first <= last && last - first + 1 == |PageSlice(list, page, perPage)|
  {
    var t := TotalPages(|list|, perPage);
    var start := (page - 1) * perPage;
    MulMonotone(0, page - 1, perPage);
    MulMonotone(page - 1, t - 1, perPage);
    assert 0 <= start < |list|;
    PageLength(list, page, perPage, start);
    if page < t {
      MulMonotone(page, t - 1, perPage);
      MulSucc(page - 1, perPage);
      assert start + perPage <= |list|;
    }
  }

  /** Every row of the filtered list is on exactly the page its index says, at the
      position its index says, and that page is in 1..totalPages. */
  lemma EveryRowOnItsPage<T>(list: seq<T>, perPage: nat, i: nat)
    requires perPage > 0 && i < |list|
    ensures var page := i / perPage + 1;
            page <= TotalPages(|list|, perPage)
            && i % perPage < |PageSlice(list, page, perPage)|
            && PageSlice(list, page, perPage)[i % perPage] == list[i]
  {
    var q, r := i / perPage, i % perPage;
    var t := TotalPages(|list|, perPage);
    assert i == q * perPage + r && 0 <= r < perPage;
    assert q * perPage < t * perPage;
    MulCancelLess(q, t, perPage);
    var page := q + 1;
    var start := (page - 1) * perPage;
    assert start == q * perPage;
    MulMonotone(0, q, perPage);
    PageLength(list, page, perPage, start);
    assert r < |PageSlice(list, page, perPage)|;
  }

  /** The margin shown for a transaction: `total - total_purchase_price`, where a
      null purchase price counts as 0 in JavaScript's subtraction. */
  function ShownMargin(tx: Transaction): (m: int)
    ensures tx.totalPurchasePrice.None? ==> m == tx.total
    ensures tx.totalPurchasePrice.Some? ==> m + tx.totalPurchasePrice.value == tx.total
  {
    tx.total - (if tx.totalPurchasePrice.Some? then tx.totalPurchasePrice.value else 0)
  }

  /** The detail dialog's subtotal of an item: `price * quantity`. */
  function ItemSubtotal(item: TransactionItem): int
  {
    item.price * item.quantity
  }

  function SumOfSubtotals(items: seq<TransactionItem>): int
  {
    if items == [] then 0 else ItemSubtotal(items[0]) + SumOfSubtotals(items[1..])
  }

  /** For a sale made at the checkout, the detail dialog's item subtotals add up to
      the transaction's total, and the margin shown is the whole total, since the
      checkout leaves the purchase price null. */
  lemma {:induction false} DetailsAddUpToTotal(cart: seq<CartItem>, pm: PaymentMethod, id: Id, createdAt: int)
    ensures SumOfSubtotals(ItemRows(id, cart)) == NewRow(cart, pm, id, createdAt).total
    ensures ShownMargin(NewRow(cart, pm, id, createdAt)) == CartTotal(cart)
    decreases |cart|
  {
    if cart != [] {
      DetailsAddUpToTotal(cart[1..], pm, id, createdAt);
      CartTotalFront(cart);
      assert ItemRows(id, cart)[1..] == ItemRows(id, cart[1..]);
    }
  }

  const PageSizes: set<nat> := {5, 10, 20, 50}

  /** The page's filter and pagination state over the loaded transactions. */
  class TransactionHistory {
    var transactions: seq<Transaction>
    var searchQuery: string
    var startDate: Option<int>
    var endDate: Option<int>
    var itemsPerPage: nat
    var currentPage: int
    /** How far the browser's clock is ahead of UTC, in milliseconds. */
    var zoneOffset: int

    /** The rows the filters keep. */
    function Shown(): seq<Transaction>
      reads this
    {
      Filtered(transactions, searchQuery, startDate, endDate, zoneOffset)
    }

    /** The page size is one the selector offers, and the current page is at least
        1 and, while something matches, at most the last page. */
    ghost predicate Valid()
      reads this
    {
      itemsPerPage in PageSizes && currentPage >= 1
      && (|Shown()| > 0 ==> currentPage <= TotalPages(|Shown()|, itemsPerPage))
    }

    /** The rows of the current page (`currentTransactions`); `PageSlice` and
        `PagesInRange` say what they are. */
    function Visible(): seq<Transaction>
      reads this
      requires Valid()
    {
      PageSlice(Shown(), currentPage, itemsPerPage)
    }

    constructor (loaded: seq<Transaction>, zoneOffset: int)
      ensures Valid()
      ensures transactions == loaded && searchQuery == "" && startDate == None && endDate == None
      ensures itemsPerPage == 10 && currentPage == 1 && this.zoneOffset == zoneOffset
      ensures Shown() == loaded
    {
      transactions, searchQuery, startDate, endDate := loaded, "", None, None;
      itemsPerPage, currentPage := 10, 1;
      this.zoneOffset := zoneOffset;
      NoFilterKeepsAll(loaded, zoneOffset);
    }

    /** `setSearchQuery`; the page goes back to 1 when the query changed. */
    method SetSearchQuery(query: string)
      requires Valid()
      modifies this`searchQuery, this`currentPage
      ensures Valid() && searchQuery == query
      ensures currentPage == if query == old(searchQuery) then old(currentPage) else 1
    {
      if query != searchQuery {
        searchQuery, currentPage := query, 1;
      }
    }

    /** `setStartDate`; the page goes back to 1 when the date changed. */
    method SetStartDate(day: Option<int>)
      requires Valid()
      modifies this`startDate, this`currentPage
      ensures Valid() && startDate == day
      ensures currentPage == if day == old(startDate) then old(currentPage) else 1
    {
      if day != startDate {
        startDate, currentPage := day, 1;
      }
    }

    /** `setEndDate`; the page goes back to 1 when the date changed. */
    method SetEndDate(day: Option<int>)
      requires Valid()
      modifies this`endDate, this`currentPage
      ensures Valid() && endDate == day
      ensures currentPage == if day == old(endDate) then old(currentPage) else 1
    {
      if day != endDate {
        endDate, currentPage := day, 1;
      }
    }

    /** `setItemsPerPage` from the selector; the page goes back to 1 when the size
        changed. */
    method SetItemsPerPage(size: nat)
      requires Valid() && size in PageSizes
      modifies this`itemsPerPage, this`currentPage
      ensures Valid() && itemsPerPage == size
      ensures currentPage == if size == old(itemsPerPage) then old(currentPage) else 1
    {
      if size != itemsPerPage {
        itemsPerPage, currentPage := size, 1;
      }
    }

    /** The previous-page button: `Math.max(1, p - 1)`. */
    method PreviousPage()
      requires Valid()
      modifies this`currentPage
      ensures Valid()
      ensures currentPage == if old(currentPage) - 1 >= 1 then old(currentPage) - 1 else 1
    {
      currentPage := if currentPage - 1 >= 1 then currentPage - 1 else 1;
    }

    /** The next-page button, shown only while something matches:
        `Math.min(totalPages, p + 1)`. */
    method NextPage()
      requires Valid() && |Shown()| > 0
      modifies this`currentPage
      ensures Valid()
      ensures var last := TotalPages(|Shown()|, itemsPerPage);
              currentPage == if old(currentPage) + 1 <= last then old(currentPage) + 1 else last
    {
      var last := TotalPages(|Shown()|, itemsPerPage);
      currentPage := if currentPage + 1 <= last then currentPage + 1 else last;
    }
  }
}
