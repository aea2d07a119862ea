# kasir — a verified model of the point-of-sale core

kasir is a small point-of-sale web application: a cashier screen where products are
searched and put into a cart, a payment dialog that records the sale, and an admin
area with a dashboard, a transaction history, category management and user
management. Route protection sends each visitor to the page their role allows.

This project models that core in Dafny and proves what it promises:

- the cart: add, set quantity and remove; the cart stays keyed by product; the
  −/+ buttons keep every line within stock;
- the checkout: three dependent writes to the store with no rollback. The
  transaction row, its item rows and one `decrease_stock` call per line, in cart
  order. The model proves exactly what each failure leaves behind;
- the payment dialog: the cash guard, the change, and the invoice built from the
  stored row;
- the category actions: trimmed, validated names, and deletion guarded by a
  reference check;
- the user actions: the login redirect, the admin gate in front of every
  administration action, and the self-deletion guard;
- the route table of the proxy;
- the transaction history: search and date filter, pagination arithmetic, page
  navigation, margins and item subtotals;
- the dashboard aggregates: the monthly buckets and the latest-six chart, the
  per-category counts, and the summary figures.

The answers of the hosted store and the identity service that an operation uses
are parameters of that operation: an insert error, a generated id, an RPC error,
the session. The one call whose answer is discarded, `getAuthenticatedUser`, is
listed under "## Left out". Screens whose state the source updates in place are classes whose methods
reassign their fields: the cashier page, the payment dialog, the history page, the
store, the category store and the user administration. Pure computations are
functions with lemmas beside them.

Two behaviours of the code that a user of the app might not expect:

- `createTransaction` has no empty-cart guard. Only the cashier page's
  `handleCheckout` refuses to open the dialog for an empty cart.
  `Checkout.EmptyCartIsAccepted` states what the action itself does.
- The checkout records no purchase price and no postage. The insert writes
  `total` and `payment_method` only, and the caller's third argument (postage) is
  dropped, because `createTransaction` takes two parameters. The dashboard's
  margin of checkout sales is therefore the whole revenue, a 100 % margin, as
  `Dashboard.CheckoutSalesShowFullMargin` shows.

Files: `text.dfy`, `domain.dfy`, `ordered_map.dfy`, `checkout_store.dfy`,
`cashier.dfy`, `cart_view.dfy`, `payment.dfy`, `catalog.dfy`, `users.dfy`,
`routing.dfy`, `history.dfy`, `dashboard.dfy`.

## Model

| member | source | states |
|---|---|---|
| Text.ToLower | src/app/page.tsx:50-51 | lower-casing maps each character on its own, folding the ASCII letters A–Z to a–z and keeping the length (ASCII-only; see Left out) |
| Text.ToLowerIdempotent | src/app/admin/transaction/page.tsx:94-97 | lower-casing an already lower-cased query changes nothing |
| Text.Includes | src/app/page.tsx:50-51 | `includes` holds exactly when the needle occurs at some position of the string |
| Text.IncludesEmpty | src/app/page.tsx:49-52 | every string includes the empty query |
| Text.Trim | src/actions/categories.ts:38 | the trimmed name is a contiguous slice of the input, starting after its leading whitespace |
| Text.TrimCutsOnlyWhitespace | src/actions/categories.ts:38 | only whitespace is removed at either end, and the result has no whitespace at either end |
| Text.TrimEmptyIffBlank | src/actions/categories.ts:32 | `name.trim() === ''` holds exactly when the name is all whitespace |
| Text.TrimIdempotent | src/actions/categories.ts:61 | trimming a stored (trimmed) name again changes nothing |
| Domain.CartTotalAppend | src/components/carts.tsx:17 | the value of two carts together is the sum of their values |
| Domain.CartTotalPermutation | src/components/checkout.tsx:43 | the cart's value Σ price × quantity does not depend on the order of the lines |
| OrderedMaps.Set | src/app/admin/page.tsx:77 | `set` keeps the keys in insertion order and appends a new key at the end |
| OrderedMaps.GetAfterSet | src/app/admin/page.tsx:76-81 | after `set`, `get` returns the new value under that key and the old value under every other key |
| OrderedMaps.SetKeepsKeysDistinct | src/app/admin/page.tsx:77 | `set` never creates a second entry for a key |
| OrderedMaps.FirstAppearances | src/app/admin/page.tsx:111 | the reference order of a Map's keys: each element once, and exactly the elements of the input |
| OrderedMaps.FirstAppearancesInOrder | src/app/admin/page.tsx:111 | the keys are listed in the order of their first index in the input |
| Checkout.ItemRows | src/actions/transaction.ts:27-32 | one item row per cart line, in cart order, with the transaction id and the line's product id, quantity and price |
| Checkout.Decrements | src/actions/transaction.ts:44-54 | one `decrease_stock` call per line, in order, by the line's quantity |
| Checkout.FirstStockFailure | src/actions/transaction.ts:44-54 | the loop stops at the first failing call: every earlier call succeeded |
| Checkout.Store.CreateTransaction | src/actions/transaction.ts:7-58 | the result and the rows appended to the transactions, items and decrement log are those of `CheckoutSpec` for the store's answers |
| Checkout.Store.DecreaseStockInOrder | src/actions/transaction.ts:44-54 | the loop performs the decrements of exactly the lines before the first failure, in order, and returns how many |
| Checkout.InsertFailureWritesNothing | src/actions/transaction.ts:15-24 | a failed transaction insert returns its error and writes nothing |
| Checkout.ItemsFailureLeavesOrphan | src/actions/transaction.ts:34-41 | a failed items insert returns its error and leaves the transaction row with no items and no decrement |
| Checkout.StockFailureLeavesPrefix | src/actions/transaction.ts:44-54 | a failing `decrease_stock` returns its error after all item rows are written and only the earlier lines are decremented |
| Checkout.SucceedsIffEveryStepSucceeds | src/actions/transaction.ts:7-58 | the checkout succeeds exactly when both inserts and every decrement call succeed |
| Checkout.SuccessEffects | src/actions/transaction.ts:11-57 | on success the returned row has the cart's total, no postage and no purchase price; every line is itemised and decremented |
| Checkout.EmptyCartIsAccepted | src/actions/transaction.ts:7-58 | an empty cart is recorded as a transaction with total 0 and no items |
| Cashier.FindLine | src/app/page.tsx:55 | `find` returns the first line with the product id, or nothing when no line has it |
| Cashier.MapMatching | src/app/page.tsx:62-66 | the lines with the id get the new quantity; every other line is unchanged and the length is kept |
| Cashier.Removed | src/app/page.tsx:86 | the filtered cart keeps exactly the lines with another id, in order |
| Cashier.RemovedKeepsMultiplicity | src/app/page.tsx:86 | every kept line appears as often as in the cart, a removed one not at all |
| Cashier.FilteredProducts | src/app/page.tsx:49-52 | the product list keeps exactly the products whose name or category name contains the query, ignoring case, in order |
| Cashier.FilteredKeepsMultiplicity | src/app/page.tsx:49-52 | every shown product appears as often as in the list, a hidden one not at all |
| Cashier.EmptySearchShowsAll | src/app/page.tsx:49-52 | an empty search box shows every product |
| Cashier.AddAtStockKeepsCart | src/app/page.tsx:57-61 | adding a product whose line has reached its stock leaves the cart as it is |
| Cashier.AddExistingIncrementsOnlyItsLine | src/app/page.tsx:62-66 | adding a product already in the cart raises only its line by one |
| Cashier.AddNewAppends | src/app/page.tsx:67-69 | adding a new product appends a line with quantity 1 |
| Cashier.AddKeepsDistinct | src/app/page.tsx:54-70 | adding keeps one line per product |
| Cashier.AddKeepsWithinStock | src/app/page.tsx:54-70 | adding an in-stock product keeps every line between 1 and its stock |
| Cashier.UpdateToNothingRemoves | src/app/page.tsx:73-76 | a quantity of zero or less removes the line |
| Cashier.UpdateSetsOnlyThatLine | src/app/page.tsx:78-82 | a positive quantity is written into the matching line unchecked; the other lines stay |
| Cashier.UpdateKeepsDistinct | src/app/page.tsx:72-83 | updating keeps one line per product |
| Cashier.RemoveDropsOneLine | src/app/page.tsx:85-87 | in a keyed cart, removing drops exactly that product's line |
| Cashier.CashierPage.constructor | src/app/page.tsx:20 | the page starts with an empty cart and the dialog closed |
| Cashier.CashierPage.AddToCart | src/app/page.tsx:54-70 | the new cart is `Added` of the old one and stays keyed by product |
| Cashier.CashierPage.UpdateQuantity | src/app/page.tsx:72-83 | the new cart is `Updated` of the old one and stays keyed by product |
| Cashier.CashierPage.RemoveFromCart | src/app/page.tsx:85-87 | the new cart is `Removed` of the old one and stays keyed by product |
| Cashier.CashierPage.HandleCheckout | src/app/page.tsx:89-95 | the warning is shown exactly for an empty cart; otherwise the dialog opens |
| Cashier.CashierPage.SetShowCheckout | src/app/page.tsx:198-199 | the dialog's open flag is what the dialog asks for |
| Cashier.CashierPage.HandleCheckoutSuccess | src/app/page.tsx:97-100 | after a sale the cart is empty and the product list is the reloaded one |
| CartView.EnabledRequestWithinBounds | src/components/carts.tsx:52-62 | an enabled −/+ button asks for a quantity between 1 and the stock |
| CartView.PanelTotal | src/components/carts.tsx:17-32 | the panel total is the cart's value in any order; an empty cart shows no checkout button and total 0 |
| CartView.ButtonsKeepCartWithinStock | src/components/carts.tsx:52-62 | pressing an enabled button keeps every line of a keyed cart within stock |
| Payment.EmptyFieldsReadAsZero | src/components/checkout.tsx:44-57 | empty postage and cash fields read as 0: the amount due is the cart's value, and a cash sale of a cart worth anything is refused until cash is entered |
| Payment.SubmitButtonMatchesGuard | src/components/checkout.tsx:263 | while nothing is loading the submit button is disabled exactly when the handler's cash guard would refuse; an enabled button never meets the guard |
| Payment.Total | src/components/checkout.tsx:45 | the amount due is the cart's value plus postage |
| Payment.Change | src/components/checkout.tsx:47 | change is never negative, 0 except for cash, and makes the cash up to the total |
| Payment.NoteAgreesWithGuard | src/components/checkout.tsx:226-245 | with cash entered, the shortfall note shows exactly when the submit guard refuses, and the change note exactly when it accepts |
| Payment.NonCashAlwaysAccepted | src/components/checkout.tsx:54-57 | card and QRIS are never refused, give no change and show no note |
| Payment.InvoiceFor | src/components/checkout.tsx:72-84 | the invoice carries the row's id, the items, the subtotal, the postage and the cash entered |
| Payment.InvoiceMatchesStoredRow | src/components/checkout.tsx:62-84 | the invoice total equals the stored total, which holds no postage; accepted cash covers total, postage and change |
| Payment.CheckoutDialog.constructor | src/components/checkout.tsx:29-41 | the dialog starts with cash selected, empty fields, no invoice and not loading |
| Payment.CheckoutDialog.HandleSubmit | src/components/checkout.tsx:49-106 | short cash changes nothing; otherwise the store gets the checkout's writes; a failure keeps the cart; a success opens the invoice, clears the fields and empties the cart |
| Payment.CheckoutDialog.HandleInvoiceClose | src/components/checkout.tsx:116-119 | closing the invoice hides it and forgets its data |
| Catalog.CountMatching | src/actions/categories.ts:79-83 | bounded by the number of products, and 0 exactly when no product holds the id in that column: all that `.limit(1)` exposes |
| Catalog.UsageQuery | src/actions/categories.ts:79-88 | a column the products table lacks is an error; otherwise at most one row is found, none exactly when no product matches |
| Catalog.CategoryStore.CreateCategory | src/actions/categories.ts:27-47 | the result and the new table are `CreateSpec` of the old table |
| Catalog.CategoryStore.UpdateCategory | src/actions/categories.ts:49-71 | the result and the new table are `UpdateSpec` of the old table |
| Catalog.CategoryStore.DeleteCategoryBy | src/actions/categories.ts:73-106 | the result and the new table are `DeleteSpec` with the check on the given column |
| Catalog.CategoryStore.DeleteCategoryAsWritten | src/actions/categories.ts:79-83 | the delete with the check on `category_id`, as the source has it |
| Catalog.CategoryStore.DeleteCategory | src/actions/categories.ts:73-106 | the delete with the check on `categories_id` |
| Catalog.CreateRejectsBlank | src/actions/categories.ts:32-34 | a missing or blank name is refused and nothing is inserted |
| Catalog.CreateStoresTrimmed | src/actions/categories.ts:36-46 | a created category holds the trimmed, non-empty name; no other row changes |
| Catalog.CreateStoreErrorSurfaces | src/actions/categories.ts:40-43 | a store error on insert is the action's error |
| Catalog.UpdateValidatesFirst | src/actions/categories.ts:52-54 | a blank rename is refused before the store is asked, and changes nothing |
| Catalog.UpdateWritesOnlyThatRow | src/actions/categories.ts:59-70 | an accepted rename writes the trimmed name to that row only; an unknown id still succeeds |
| Catalog.DeleteRefusesReferenced | src/actions/categories.ts:90-92 | a category some product refers to is refused and kept |
| Catalog.DeleteCheckErrorDeletesNothing | src/actions/categories.ts:85-88 | a failing reference check is the error and nothing is deleted |
| Catalog.DeleteRemovesOnlyUnreferenced | src/actions/categories.ts:94-105 | an unreferenced category is deleted and no other; a delete error deletes nothing |
| Catalog.AsWrittenNeverDeletes | src/actions/categories.ts:79-83 | as written, every delete is refused and the table is unchanged |
| Catalog.AsWrittenRefusesUnusedCategory | src/actions/categories.ts:82 | on an unused category the written check errors while the intended check deletes |
| Users.RowsFor | src/actions/user.ts:100-104 | the profile rows of an account are exactly the rows with that account id, in order |
| Users.RowsForKeepsMultiplicity | src/actions/user.ts:100-104 | every selected row appears as often as in the table, a row of another account not at all |
| Users.ProfileOf | src/actions/user.ts:100-111 | `.single()` yields a profile exactly when one row has the account id |
| Users.AdminGate | src/actions/user.ts:93-111 | no session is 'no user'; admission holds exactly for a single profile row with role 'admin' |
| Users.LoginNeedsBothFields | src/actions/user.ts:29-34 | a missing email or password fails before the identity service is asked |
| Users.LoginRedirectsByRole | src/actions/user.ts:58-76 | a login succeeds exactly with one profile row, and redirects admins to /admin and others to / |
| Users.WithNameAndRole | src/actions/user.ts:265-278 | rows with the id get the new name and role; nothing else changes |
| Users.UserAdmin.GetAllUsers | src/actions/user.ts:87-130 | the reply is `ListSpec`; a listing is the whole table and only an admin gets it |
| Users.UserAdmin.CreateUser | src/actions/user.ts:165-227 | the reply and the new accounts are `CreateSpec` of the old accounts |
| Users.UserAdmin.UpdateUser | src/actions/user.ts:229-286 | the reply and the new table are `UpdateSpec` of the old table |
| Users.UserAdmin.DeleteUser | src/actions/user.ts:289-339 | the reply and the new accounts are `DeleteSpec` of the old accounts |
| Users.NoSessionIsUnauthorized | src/actions/user.ts:93-98 | without a session every administration action answers 'Unauthorized' and changes nothing |
| Users.NonAdminIsRefused | src/actions/user.ts:100-111 | a non-admin gets each action's own refusal and changes nothing, before any field is checked |
| Users.CreateNeedsAllFields | src/actions/user.ts:194-226 | for an admin, creation succeeds exactly with all four fields and a created account, and adds only that account |
| Users.UpdateChangesOnlyNameAndRole | src/actions/user.ts:258-285 | an accepted update changes only name and role of that row; ids, emails and account ids never change |
| Users.DeleteRefusesSelf | src/actions/user.ts:316-321 | an admin cannot delete their own row |
| Users.DeleteSucceedsOnlyWithoutError | src/actions/user.ts:289-339 | a delete succeeds exactly for an admin deleting another row without error, and removes only that account |
| Users.SelfGuardComparesRowIdsOnly | src/actions/user.ts:316-331 | the self guard compares row ids only: another row's id with the admin's own account id deletes the admin's account |
| Routing.PublicPathsAreNotAdmin | src/proxy.ts:39 | / and /login do not start with /admin; /admin does |
| Routing.AdminPagesNeedAdmin | src/proxy.ts:39-54 | admin pages: no session goes to /login, a non-admin to /, an admin passes |
| Routing.HomeNeedsSession | src/proxy.ts:57-61 | the cashier screen needs a session and any signed-in user passes |
| Routing.LoginPageSendsSignedInAway | src/proxy.ts:64-76 | a signed-in user asking for /login goes to /admin or /, by role |
| Routing.PassesExactlyWhenAllowed | src/proxy.ts:39-78 | a request passes exactly when none of the three protected cases applies |
| Routing.RedirectsSettleInOneHop | src/proxy.ts:39-78 | following a redirect with the same session reaches a page that passes |
| History.Filtered | src/app/admin/transaction/page.tsx:93-105 | the list keeps exactly the transactions matching the search and both dates, in order |
| History.FilteredKeepsMultiplicity | src/app/admin/transaction/page.tsx:93-105 | every listed transaction appears as often as loaded, a rejected one not at all |
| History.NoFilterKeepsAll | src/app/admin/transaction/page.tsx:93-105 | with no query and no dates every transaction is listed |
| History.OneDayBounds | src/app/admin/transaction/page.tsx:100-102 | a one-day filter keeps UTC midnight of the day through 23:59:59.000 on the browser's clock; in UTC that is the whole day and the rest of its last second is dropped |
| History.OneDayWindowFollowsUtcStart | src/app/admin/transaction/page.tsx:101-102 | away from UTC the window is not the local day: in UTC+7 a sale at 00:30 that day is dropped, in UTC-5 a sale at 19:00 the day before is kept |
| History.TotalPages | src/app/admin/transaction/page.tsx:108 | the page count is the least number of pages of that size holding every row; 0 exactly for no rows |
| History.PageSlice | src/app/admin/transaction/page.tsx:109-111 | a page holds at most the page size, each row the one at its offset in the filtered list |
| History.PagesInRange | src/app/admin/transaction/page.tsx:108-111 | every page in range is non-empty, all but the last are full, and the label counts the rows shown |
| History.EveryRowOnItsPage | src/app/admin/transaction/page.tsx:108-111 | every filtered row appears on the page and at the position its index gives |
| History.ShownMargin | src/app/admin/transaction/page.tsx:269 | the margin is total minus purchase price, a null purchase price counting as 0 |
| History.DetailsAddUpToTotal | src/app/admin/transaction/page.tsx:470 | for a checkout sale, the item subtotals add up to the total and the margin shown is the whole total |
| History.TransactionHistory.constructor | src/app/admin/transaction/page.tsx:46-60 | the page starts unfiltered at page 1 of 10 rows, showing everything loaded, in the browser's time zone |
| History.TransactionHistory.SetSearchQuery | src/app/admin/transaction/page.tsx:114-116 | a changed query resets the page to 1; the page stays in range |
| History.TransactionHistory.SetStartDate | src/app/admin/transaction/page.tsx:114-116 | a changed start date resets the page to 1; the page stays in range |
| History.TransactionHistory.SetEndDate | src/app/admin/transaction/page.tsx:114-116 | a changed end date resets the page to 1; the page stays in range |
| History.TransactionHistory.SetItemsPerPage | src/app/admin/transaction/page.tsx:352 | a changed page size from the selector resets the page to 1; the page stays in range |
| History.TransactionHistory.PreviousPage | src/app/admin/transaction/page.tsx:374 | the page goes down by one, never below 1 |
| History.TransactionHistory.NextPage | src/app/admin/transaction/page.tsx:382 | the page goes up by one, never past the last page |
| Dashboard.GroupByMonth | src/app/admin/page.tsx:72-82 | the `forEach` builds exactly `MonthlyBuckets` |
| Dashboard.BucketOfMonth | src/app/admin/page.tsx:72-82 | each month's bucket holds that month's count, revenue and purchase sum; a month without sales has none |
| Dashboard.MonthlyKeysDistinct | src/app/admin/page.tsx:72-82 | no month has two buckets |
| Dashboard.BucketSums | src/app/admin/page.tsx:72-82 | the buckets' counts, totals and purchase sums add up to the whole list's |
| Dashboard.Insert | src/app/admin/page.tsx:85 | inserting into an ordered run keeps it ordered and adds exactly that entry |
| Dashboard.SortByKey | src/app/admin/page.tsx:85 | the sorted entries are ordered by month and are a permutation of the input |
| Dashboard.LatestSix | src/app/admin/page.tsx:86 | at most six entries, ordered, taken from the input; every entry left out is older than every entry kept |
| Dashboard.ProcessMonthlyData | src/app/admin/page.tsx:69-100 | at most six rows, months strictly increasing |
| Dashboard.MonthlyRowAddsUp | src/app/admin/page.tsx:84-97 | each row is its month's count, revenue and purchase sum, with margin revenue minus purchase |
| Dashboard.RowsAreLatest | src/app/admin/page.tsx:84-97 | the rows are the latest six buckets, one each, in order |
| Dashboard.MissingMonthsAreOlder | src/app/admin/page.tsx:86 | a month with sales but no row is older than every month shown |
| Dashboard.MonthlyChart | src/app/admin/page.tsx:69-100 | every row adds up and only older months are left out |
| Dashboard.CategoryLabel | src/app/admin/page.tsx:106 | a product's label is its category's name when non-empty, else 'Tanpa Kategori'; never empty |
| Dashboard.ProcessCategoryData | src/app/admin/page.tsx:102-117 | the loop builds exactly `CategoryCounts` |
| Dashboard.CategoryOrder | src/app/admin/page.tsx:104-114 | each label appears once, in order of first appearance among the products |
| Dashboard.CategoryCountsExact | src/app/admin/page.tsx:104-109 | each label's count is the number of products carrying it; an absent label has no slice |
| Dashboard.CategoryCountsSum | src/app/admin/page.tsx:104-114 | the slices add up to the number of products |
| Dashboard.MarginPercentage | src/app/admin/page.tsx:122 | 0 unless revenue is positive, otherwise margin × 100 / revenue |
| Dashboard.RevenueBounds | src/app/admin/page.tsx:119 | when every total lies between two bounds, the revenue lies between the count times each bound |
| Dashboard.AverageWithinTotals | src/app/admin/page.tsx:275 | the average sale lies between the smallest and the largest sale |
| Dashboard.LowStockCount | src/app/admin/page.tsx:126 | at most the number of products; 0 exactly when all have stock ≥ 10, all exactly when all are below 10 |
| Dashboard.LowStockCountIsExact | src/app/admin/page.tsx:126 | the count is the number of positions whose product has stock below 10 |
| Dashboard.Recent | src/app/admin/page.tsx:127 | the first five transactions, or all when fewer, in order |
| Dashboard.MonthlyMarginsAddUp | src/app/admin/page.tsx:89 | the monthly margins add up to the total margin |
| Dashboard.CheckoutSalesShowFullMargin | src/app/admin/page.tsx:119-122 | on checkout sales the purchase total is 0, the margin equals revenue, and the percentage is 100 when revenue is positive |

## Left out

- Network, cookies and rendering: `revalidatePath`, `redirect` and toasts are I/O.
  Their outcomes are parameters or results of the model.
- getAuthenticatedUser: `createTransaction` (src/actions/transaction.ts:12) and
  the category actions (src/actions/categories.ts:29, 55, 75) call it and discard
  its result. Its code (src/lib/supabase-server) is not part of this model, so
  whether it throws or redirects a caller without a session is unknown.
  `Checkout.Store.CreateTransaction` and the `Catalog.CategoryStore` methods are
  modelled as if it returns.
- Dashboard.MarginPercentage and Dashboard.AverageSale: the quotients are exact
  reals. The source divides JavaScript doubles and shows the result through
  `toFixed(1)` or currency formatting, so its figures are rounded.
- Amounts: every amount is an unbounded integer. The source's amounts are
  doubles, exact only below 2^53; larger sums are not modelled.
- Exceptions: the `try`/`catch` blocks turn a thrown exception into an error
  result. Exceptions from the store are not modelled; only the store's error
  answers are.
- `finally` in `handleSubmit`: `setLoading(false)` is modelled on both paths that
  reach the store, but a thrown exception is not.
- Row-level security and concurrency: two checkouts racing on the same stock, and
  the atomicity of `decrease_stock`, are left out.
- `decrease_stock`: the procedure is not part of this model. The store keeps a log
  of the successful calls instead of a stock figure, so whether stock clamps at
  zero is not claimed.
- Text.ToLower: folds only the ASCII letters A–Z. JavaScript's `toLowerCase`
  folds all of Unicode, so the source matches "é" against "ÉCLAIR" and the model
  does not. Some characters, such as "İ", lower-case to two characters in
  JavaScript; the model always keeps the length.
- Dashboard.LowStockCount: `(p.stock || 0)` guards a missing stock. A product
  record always carries a numeric stock (src/interface/index.ts:6), so the
  model's stock is an `int`; a null or NaN stock is not represented.
- Parsing of the amount fields: `parseFloat` of arbitrary text (NaN, fractions) is
  not modelled. A field is empty or holds a whole number of rupiah.
- Time: the month of a timestamp depends on the browser's time zone; it is the
  `monthOf` parameter. The history's date bounds depend on how far the browser's
  clock is ahead of UTC; that is the `zoneOffset` parameter.
- History.OneDayBounds: the source reads the start date as UTC midnight and the
  end date as local 23:59:59, and the model keeps that mismatch. So a one-day
  filter covers the whole local day only in UTC. The model does not promise a
  local-day window; `History.OneDayWindowFollowsUtcStart` shows the shift in
  UTC+7 and UTC-5.
- Month keys are (year, month) pairs, not `YYYY-MM` strings compared with
  `localeCompare`; the two orders agree for four-digit years.
- Display: `Intl` formatting of months and currency is left out.
- The 300 ms delay before the invoice opens: the model opens it at once.
- Users.UserAdmin.GetAllUsers: the listing is the table in the order the store
  returns it; the `created_at` descending order is not modelled.
- Loading data: `getTransactions` (its ordering and limit of 50), `getProducts`,
  `getCategories`, `getCurrentUser` and `logoutAction` only read or end the
  session. Their results are the inputs of the model.
- Users.UserAdmin.CreateUser: the users-table row that the database creates for a
  new account, and the data `createUser` returns, are not modelled. Only the
  identity-service account is.
- Users.UserAdmin.DeleteUser: the cascade that removes the users-table row along
  with the account is not modelled.
- The proxy's route matcher: the proxy runs only on `/`, `/admin/...` and
  `/login`. `Routing.Route` is stated for every path.
- Products: `src/actions/products.ts` is not part of this model, beyond the
  column name `categories_id` that it writes.
- History.TransactionHistory.SetSearchQuery, SetStartDate, SetEndDate and
  SetItemsPerPage: the source resets the page to 1 in a `useEffect`
  (src/app/admin/transaction/page.tsx:114-116), after one render with the old
  page, which may lie past the new last page. The model resets the page in the
  same step, so that intermediate render is not modelled.
- History.TransactionHistory.Visible: it states nothing of its own.
  `History.PageSlice` and `History.PagesInRange` carry its contract.

## Findings

| source | as written | input that shows it | evidently intended | confidence | as-written member | corrected member |
|---|---|---|---|---|---|---|
| src/actions/categories.ts:82 | the reference check filters products on `category_id`, a column the products table does not have (it has `categories_id`), so the query errors and every delete is refused | a category `c1` that no product refers to, no store errors: the action returns the "column does not exist" error and `c1` stays | filter on `categories_id`: unused categories are deleted, referenced ones refused | not executed | Catalog.AsWrittenRefusesUnusedCategory | Catalog.DeleteRemovesOnlyUnreferenced |
