/** The aggregates of the admin dashboard, src/app/admin/page.tsx: transactions
    grouped by month (the latest six months shown), products counted per category,
    and the summary figures (revenue, purchase cost, margin, margin percentage,
    average sale, low-stock count, recent sales).

    The month of a timestamp (`getFullYear`, `getMonth` in the browser's time zone)
    is a parameter `monthOf`. A month key is a (year, month) pair; for four-digit
    years, the order `localeCompare` gives the `YYYY-MM` strings is the order of
    these pairs. */
module Dashboard {
  import opened Domain
  import opened OrderedMaps
  import History

  datatype MonthKey = MonthKey(year: int, month: int)

  /** `a` sorts before `b`. */
  predicate KeyBefore(a: MonthKey, b: MonthKey)
  {
    a.year < b.year || (a.year == b.year && a.month < b.month)
  }

  /** `transaction.total_purchase_price || 0`. */
  function PurchaseOf(tx: Transaction): int
  {
    if tx.totalPurchasePrice.Some? then tx.totalPurchasePrice.value else 0
  }

  /** `transactions.reduce((sum, t) => sum + t.total, 0)`. */
  function Revenue(txs: seq<Transaction>): int
  {
    if txs == [] then 0 else Revenue(txs[..|txs| - 1]) + txs[|txs| - 1].total
  }

  /** `transactions.reduce((sum, t) => sum + (t.total_purchase_price || 0), 0)`. */
  function PurchaseTotal(txs: seq<Transaction>): int
  {
    if txs == [] then 0 else PurchaseTotal(txs[..|txs| - 1]) + PurchaseOf(txs[|txs| - 1])
  }

  // ---------------------------------------------------------- by month

  /** A month's `{ total, count, totalPurchasePrice }`. */
  datatype Bucket = Bucket(total: int, count: int, purchase: int)

  function TotalOf(b: Bucket): int { b.total }
  function CountOf(b: Bucket): int { b.count }
  function PurchaseOfBucket(b: Bucket): int { b.purchase }

  /** `monthlyMap.get(monthKey) || { total: 0, count: 0, totalPurchasePrice: 0 }`. */
  function Current(buckets: seq<Entry<MonthKey, Bucket>>, key: MonthKey): Bucket
  {
    match Get(buckets, key)
    case Some(b) => b
    case None => Bucket(0, 0, 0)
  }

  /** The bucket with one more transaction in it. */
  function WithSale(b: Bucket, tx: Transaction): Bucket
  {
    Bucket(b.total + tx.total, b.count + 1, b.purchase + PurchaseOf(tx))
  }

  /** The map `processMonthlyData` fills, after the `forEach` has seen `txs`. */
  function MonthlyBuckets(txs: seq<Transaction>, monthOf: int -> MonthKey): seq<Entry<MonthKey, Bucket>>
  {
    if txs == [] then []
    else
      var buckets := MonthlyBuckets(txs[..|txs| - 1], monthOf);
      var tx := txs[|txs| - 1];
      var key := monthOf(tx.createdAt);
      Set(buckets, key, WithSale(Current(buckets, key), tx))
  }

  /** The `forEach` of `processMonthlyData`. */
  method GroupByMonth(txs: seq<Transaction>, monthOf: int -> MonthKey) returns (buckets: seq<Entry<MonthKey, Bucket>>)
    ensures buckets == MonthlyBuckets(txs, monthOf)
  {
    buckets := [];
    var i := 0;
    while i < |txs|
      invariant 0 <= i <= |txs|
      invariant buckets == MonthlyBuckets(txs[..i], monthOf)
    {
      var tx := txs[i];
      var key := monthOf(tx.createdAt);
      var existing := Current(buckets, key);
      buckets := Set(buckets, key, WithSale(existing, tx));
      assert txs[..i + 1][..i] == txs[..i];
      i := i + 1;
    }
    assert txs[..i] == txs;
  }

  /** The transactions of one month, in order. */
  function InMonth(txs: seq<Transaction>, monthOf: int -> MonthKey, key: MonthKey): (r: seq<Transaction>)
    ensures |r| <= |txs|
  {
    if txs == [] then []
    else
      var rest := InMonth(txs[..|txs| - 1], monthOf, key);
      if monthOf(txs[|txs| - 1].createdAt) == key then rest + [txs[|txs| - 1]] else rest
  }

  /** Sums over one more transaction. */
  lemma SumsSnoc(txs: seq<Transaction>, tx: Transaction)
    ensures Revenue(txs + [tx]) == Revenue(txs) + tx.total
    ensures PurchaseTotal(txs + [tx]) == PurchaseTotal(txs) + PurchaseOf(tx)
  {
    assert (txs + [tx])[..|txs|] == txs;
  }

  /** What a month's bucket should hold: nothing for a month without sales,
      otherwise the sum of the totals, the number of sales and the sum of the
      purchase prices. */
  function Summary(sales: seq<Transaction>): Option<Bucket>
  {
    if sales == [] then None else Some(Bucket(Revenue(sales), |sales|, PurchaseTotal(sales)))
  }

  /** The summary with one more sale: that sale added to the month's bucket, or to
      an empty one. */
  lemma SummarySnoc(before: seq<Transaction>, tx: Transaction)
    ensures Summary(before + [tx])
            == Some(WithSale(if before == [] then Bucket(0, 0, 0) else Summary(before).value, tx))
  {
    SumsSnoc(before, tx);
    if before == [] {
      assert before + [tx] == [tx];
    }
  }

  /** One step of the `forEach` keeps every bucket equal to its month's summary. */
  lemma BucketStep(buckets: seq<Entry<MonthKey, Bucket>>, before: seq<Transaction>, tx: Transaction, k: MonthKey, key: MonthKey)
    requires Get(buckets, key) == Summary(before)
    ensures Get(Set(buckets, k, WithSale(Current(buckets, k), tx)), key)
            == Summary(if k == key then before + [tx] else before)
  {
    var b := WithSale(Current(buckets, k), tx);
    GetAfterSet(buckets, k, b, key);
    if k == key {
      assert Current(buckets, k) == if before == [] then Bucket(0, 0, 0) else Summary(before).value;
      SummarySnoc(before, tx);
    }
  }

  /** Each month's bucket holds exactly that month's transactions: their number, the
      sum of their totals, the sum of their purchase prices (a missing one counting
      0). A month without transactions has no bucket. */
  lemma {:induction false} BucketOfMonth(txs: seq<Transaction>, monthOf: int -> MonthKey, key: MonthKey)
    ensures Get(MonthlyBuckets(txs, monthOf), key) == Summary(InMonth(txs, monthOf, key))
  {
    if txs != [] {
      var prefix := txs[..|txs| - 1];
      var tx := txs[|txs| - 1];
      BucketOfMonth(prefix, monthOf, key);
      BucketStep(MonthlyBuckets(prefix, monthOf), InMonth(prefix, monthOf, key), tx, monthOf(tx.createdAt), key);
    }
  }

  /** No month has two buckets. */
  lemma {:induction false} MonthlyKeysDistinct(txs: seq<Transaction>, monthOf: int -> MonthKey)
    ensures DistinctKeys(MonthlyBuckets(txs, monthOf))
  {
    if txs != [] {
      var prefix := txs[..|txs| - 1];
      var tx := txs[|txs| - 1];
      var k := monthOf(tx.createdAt);
      var buckets := MonthlyBuckets(prefix, monthOf);
      MonthlyKeysDistinct(prefix, monthOf);
      SetKeepsKeysDistinct(buckets, k, WithSale(Current(buckets, k), tx));
    }
  }

  /** Every transaction is counted in exactly one bucket: the counts add up to the
      number of transactions, the totals to the revenue, the purchase sums to the
      total purchase price. */
  lemma {:induction false} BucketSums(txs: seq<Transaction>, monthOf: int -> MonthKey)
    ensures SumBy(MonthlyBuckets(txs, monthOf), CountOf) == |txs|
    ensures SumBy(MonthlyBuckets(txs, monthOf), TotalOf) == Revenue(txs)
    ensures SumBy(MonthlyBuckets(txs, monthOf), PurchaseOfBucket) == PurchaseTotal(txs)
  {
    if txs != [] {
      var prefix := txs[..|txs| - 1];
      var tx := txs[|txs| - 1];
      var k := monthOf(tx.createdAt);
      var buckets := MonthlyBuckets(prefix, monthOf);
      var b := WithSale(Current(buckets, k), tx);
      BucketSums(prefix, monthOf);
      MonthlyKeysDistinct(prefix, monthOf);
      SumBySet(buckets, k, b, CountOf);
      SumBySet(buckets, k, b, TotalOf);
      SumBySet(buckets, k, b, PurchaseOfBucket);
    }
  }

  /** Entries whose keys increase strictly. */
  predicate StrictlyIncreasing<V>(entries: seq<Entry<MonthKey, V>>)
  {
    forall i, j :: 0 <= i < j < |entries| ==> KeyBefore(entries[i].key, entries[j].key)
  }

  /** Month order is transitive. */
  lemma KeyBeforeTransitive(a: MonthKey, b: MonthKey, c: MonthKey)
    requires KeyBefore(a, b) && KeyBefore(b, c)
    ensures KeyBefore(a, c)
  {
  }

  /** An entry older than every entry of an ordered run may go in front of it. */
  lemma PrependKeepsIncreasing(e: Entry<MonthKey, Bucket>, run: seq<Entry<MonthKey, Bucket>>)
    requires StrictlyIncreasing(run)
    requires forall x :: x in run ==> KeyBefore(e.key, x.key)
    ensures StrictlyIncreasing([e] + run)
  {
    var r := [e] + run;
    forall i, j | 0 <= i < j < |r| ensures KeyBefore(r[i].key, r[j].key) {
      assert r[j] == run[j - 1];
      if i > 0 {
        assert r[i] == run[i - 1];
      }
    }
  }

  /** An entry older than the first of an ordered run goes in front of it. */
  lemma InsertFront(e: Entry<MonthKey, Bucket>, sorted: seq<Entry<MonthKey, Bucket>>)
    requires StrictlyIncreasing(sorted) && sorted != [] && KeyBefore(e.key, sorted[0].key)
    ensures StrictlyIncreasing([e] + sorted)
  {
    forall x | x in sorted ensures KeyBefore(e.key, x.key) {
      if x != sorted[0] {
        KeyBeforeTransitive(e.key, sorted[0].key, x.key);
      }
    }
    PrependKeepsIncreasing(e, sorted);
  }

  /** The first of an ordered run stays in front when an entry newer than it is
      put into the rest. */
  lemma InsertBehind(first: Entry<MonthKey, Bucket>, e: Entry<MonthKey, Bucket>,
                     tail: seq<Entry<MonthKey, Bucket>>, rest: seq<Entry<MonthKey, Bucket>>)
    requires StrictlyIncreasing(rest) && multiset(rest) == multiset(tail) + multiset{e}
    requires KeyBefore(first.key, e.key) && forall x :: x in tail ==> KeyBefore(first.key, x.key)
    ensures StrictlyIncreasing([first] + rest)
  {
    forall x | x in rest ensures KeyBefore(first.key, x.key) {
      assert x in multiset(rest);
    }
    PrependKeepsIncreasing(first, rest);
  }

  /** Puts an entry into place in an ordered run. */
  function Insert(e: Entry<MonthKey, Bucket>, sorted: seq<Entry<MonthKey, Bucket>>): (r: seq<Entry<MonthKey, Bucket>>)
    requires StrictlyIncreasing(sorted)
    requires forall i :: 0 <= i < |sorted| ==> sorted[i].key != e.key
    ensures StrictlyIncreasing(r)
    ensures multiset(r) == multiset(sorted) + multiset{e}
  {
    if sorted == [] then [e]
    else if KeyBefore(e.key, sorted[0].key) then
      InsertFront(e, sorted);
      [e] + sorted
    else
      var first, tail := sorted[0], sorted[1..];
      assert sorted == [first] + tail;
      var rest := Insert(e, tail);
      InsertBehind(first, e, tail, rest);
      [first] + rest
  }

  /** `.sort((a, b) => a[0].localeCompare(b[0]))` on entries whose keys are distinct. */
  function SortByKey(entries: seq<Entry<MonthKey, Bucket>>): (r: seq<Entry<MonthKey, Bucket>>)
    requires DistinctKeys(entries)
    ensures StrictlyIncreasing(r)
    ensures multiset(r) == multiset(entries)
  {
    if entries == [] then []
    else
      assert DistinctKeys(entries[1..]);
      var rest := SortByKey(entries[1..]);
      forall i | 0 <= i < |rest| ensures rest[i].key != entries[0].key {
        assert rest[i] in multiset(entries[1..]);
      }
      assert entries == [entries[0]] + entries[1..];
      Insert(entries[0], rest)
  }

  /** `.slice(-6)` of the sorted entries: the six latest months, oldest first, or all
      of them when there are fewer. Every month left out is older than every month
      kept. */
  function LatestSix(entries: seq<Entry<MonthKey, Bucket>>): (r: seq<Entry<MonthKey, Bucket>>)
    requires DistinctKeys(entries)
    ensures |r| == if |entries| < 6 then |entries| else 6
    ensures StrictlyIncreasing(r)
    ensures forall x :: x in r ==> x in entries
    ensures forall x, y :: x in entries && x !in r && y in r ==> KeyBefore(x.key, y.key)
  {
    var sorted := SortByKey(entries);
    assert |sorted| == |multiset(sorted)| == |entries|;
    assert forall x :: x in sorted <==> x in entries by {
      forall x ensures x in sorted <==> x in entries {
        assert x in sorted <==> x in multiset(sorted);
        assert x in entries <==> x in multiset(entries);
      }
    }
    var from := if |sorted| < 6 then 0 else |sorted| - 6;
    SuffixIsLatest(sorted, from);
    sorted[from..]
  }

  /** In an ordered run, whatever a suffix leaves out sorts before all it keeps. */
  lemma SuffixIsLatest(sorted: seq<Entry<MonthKey, Bucket>>, from: nat)
    requires StrictlyIncreasing(sorted) && from <= |sorted|
    ensures StrictlyIncreasing(sorted[from..])
    ensures forall x, y :: x in sorted && x !in sorted[from..] && y in sorted[from..] ==> KeyBefore(x.key, y.key)
  {
    var r := sorted[from..];
    forall x, y | x in sorted && x !in r && y in r ensures KeyBefore(x.key, y.key) {
      var i :| 0 <= i < |sorted| && sorted[i] == x;
      var j :| 0 <= j < |r| && r[j] == y;
      assert r[j] == sorted[from + j];
      assert i < from;
    }
  }

  /** A row of the monthly chart. */
  datatype MonthlyRow = MonthlyRow(month: MonthKey, total: int, transactions: int, totalPurchasePrice: int, margin: int)

  function RowOf(e: Entry<MonthKey, Bucket>): MonthlyRow
  {
    MonthlyRow(e.key, e.value.total, e.value.count, e.value.purchase, e.value.total - e.value.purchase)
  }

  /** `processMonthlyData(transactions)`: at most six rows, months in increasing
      order. */
  function ProcessMonthlyData(txs: seq<Transaction>, monthOf: int -> MonthKey): (rows: seq<MonthlyRow>)
    ensures |rows| <= 6
    ensures forall i, j :: 0 <= i < j < |rows| ==> KeyBefore(rows[i].month, rows[j].month)
  {
    MonthlyKeysDistinct(txs, monthOf);
    var latest := LatestSix(MonthlyBuckets(txs, monthOf));
    seq(|latest|, i requires 0 <= i < |latest| => RowOf(latest[i]))
  }

  /** A month has a chart row only if it has transactions. */
  predicate HasSales(txs: seq<Transaction>, monthOf: int -> MonthKey, key: MonthKey)
  {
    InMonth(txs, monthOf, key) != []
  }

  /** Each row of the monthly chart is the count, revenue and purchase sum of its
      month's transactions, with margin revenue minus purchase. */
  lemma MonthlyRowAddsUp(txs: seq<Transaction>, monthOf: int -> MonthKey, i: nat)
    requires i < |ProcessMonthlyData(txs, monthOf)|
    ensures var row := ProcessMonthlyData(txs, monthOf)[i];
            var sales := InMonth(txs, monthOf, row.month);
            sales != [] && row.transactions == |sales| && row.total == Revenue(sales)
            && row.totalPurchasePrice == PurchaseTotal(sales) && row.margin == row.total - row.totalPurchasePrice
  {
    var buckets := MonthlyBuckets(txs, monthOf);
    MonthlyKeysDistinct(txs, monthOf);
    var latest := LatestSix(buckets);
    var e := latest[i];
    assert ProcessMonthlyData(txs, monthOf)[i] == RowOf(e);
    assert e in buckets;
    var j :| 0 <= j < |buckets| && buckets[j] == e;
    GetOfMember(buckets, j);
    BucketOfMonth(txs, monthOf, e.key);
  }

  /** The rows are the latest six buckets, one row per bucket, in order. */
  lemma RowsAreLatest(txs: seq<Transaction>, monthOf: int -> MonthKey)
    ensures DistinctKeys(MonthlyBuckets(txs, monthOf))
    ensures var latest := LatestSix(MonthlyBuckets(txs, monthOf));
            var rows := ProcessMonthlyData(txs, monthOf);
            |rows| == |latest| && forall m :: 0 <= m < |rows| ==> rows[m] == RowOf(latest[m])
  {
    MonthlyKeysDistinct(txs, monthOf);
  }

  /** A month that has sales has a bucket. */
  lemma SoldMonthHasBucket(txs: seq<Transaction>, monthOf: int -> MonthKey, k: MonthKey) returns (e: Entry<MonthKey, Bucket>)
    requires HasSales(txs, monthOf, k)
    ensures e in MonthlyBuckets(txs, monthOf) && e.key == k
  {
    var buckets := MonthlyBuckets(txs, monthOf);
    BucketOfMonth(txs, monthOf, k);
    var b := Get(buckets, k);
    var j :| 0 <= j < |buckets| && buckets[j] == Entry(k, b.value);
    e := buckets[j];
  }

  /** Any month with sales that has no row in the chart is older than every month
      shown: the chart keeps the latest months. */
  lemma MissingMonthsAreOlder(txs: seq<Transaction>, monthOf: int -> MonthKey, k: MonthKey, i: nat)
    requires HasSales(txs, monthOf, k)
    requires forall m :: 0 <= m < |ProcessMonthlyData(txs, monthOf)| ==> ProcessMonthlyData(txs, monthOf)[m].month != k
    requires i < |ProcessMonthlyData(txs, monthOf)|
    ensures KeyBefore(k, ProcessMonthlyData(txs, monthOf)[i].month)
  {
    var buckets := MonthlyBuckets(txs, monthOf);
    var rows := ProcessMonthlyData(txs, monthOf);
    RowsAreLatest(txs, monthOf);
    var latest := LatestSix(buckets);
    var e := SoldMonthHasBucket(txs, monthOf, k);
    assert e !in latest by {
      forall m | 0 <= m < |latest| ensures latest[m] != e {
        assert rows[m].month == latest[m].key;
      }
    }
    assert latest[i] in latest;
    assert rows[i].month == latest[i].key;
  }

  /** The monthly chart, row by row: every row adds up, and only older months are
      left out. */
  lemma MonthlyChart(txs: seq<Transaction>, monthOf: int -> MonthKey)
    ensures var rows := ProcessMonthlyData(txs, monthOf);
            (forall i :: 0 <= i < |rows| ==>
               var sales := InMonth(txs, monthOf, rows[i].month);
               sales != [] && rows[i].transactions == |sales| && rows[i].total == Revenue(sales)
               && rows[i].totalPurchasePrice == PurchaseTotal(sales))
            && (forall k :: HasSales(txs, monthOf, k) && (forall i :: 0 <= i < |rows| ==> rows[i].month != k) ==>
                  forall i :: 0 <= i < |rows| ==> KeyBefore(k, rows[i].month))
  {
    var rows := ProcessMonthlyData(txs, monthOf);
    forall i | 0 <= i < |rows|
      ensures var sales := InMonth(txs, monthOf, rows[i].month);
              sales != [] && rows[i].transactions == |sales| && rows[i].total == Revenue(sales)
              && rows[i].totalPurchasePrice == PurchaseTotal(sales)
    {
      MonthlyRowAddsUp(txs, monthOf, i);
    }
    forall k | HasSales(txs, monthOf, k) && (forall i :: 0 <= i < |rows| ==> rows[i].month != k)
      ensures forall i :: 0 <= i < |rows| ==> KeyBefore(k, rows[i].month)
    {
      forall i | 0 <= i < |rows| ensures KeyBefore(k, rows[i].month) {
        MissingMonthsAreOlder(txs, monthOf, k, i);
      }
    }
  }

  /** With distinct keys, `get` finds each entry's own value. */
  lemma GetOfMember<V>(entries: seq<Entry<MonthKey, V>>, j: nat)
    requires DistinctKeys(entries) && j < |entries|
    ensures Get(entries, entries[j].key) == Some(entries[j].value)
  {
    var r := Get(entries, entries[j].key);
    assert entries[j].key in Keys(entries) by {
      assert Keys(entries)[j] == entries[j].key;
    }
    var i :| 0 <= i < |entries| && entries[i] == Entry(entries[j].key, r.value);
  }

  // ------------------------------------------------------- by category

  const Uncategorised := "Tanpa Kategori"

  /** `product.categories?.name || 'Tanpa Kategori'`. */
  function CategoryLabel(p: Product): (name: string)
    ensures name != ""
    ensures p.categories.Some? && p.categories.value.name != "" ==> name == p.categories.value.name
  {
    if p.categories.Some? && p.categories.value.name != "" then p.categories.value.name else Uncategorised
  }

  /** The label of each product, in order. */
  function Labels(products: seq<Product>): (r: seq<string>)
    ensures |r| == |products|
    ensures forall i :: 0 <= i < |products| ==> r[i] == CategoryLabel(products[i])
  {
    if |products| == 0 then [] else Labels(products[..|products| - 1]) + [CategoryLabel(products[|products| - 1])]
  }

  function CountNow<K(==,!new)>(counts: seq<Entry<K, int>>, name: K): int
  {
    match Get(counts, name)
    case Some(n) => n
    case None => 0
  }

  /** The map `processCategoryData` fills, after the `forEach` has seen `products`. */
  function CategoryCounts(products: seq<Product>): seq<Entry<string, int>>
  {
    if |products| == 0 then [] else Count(CategoryCounts(products[..|products| - 1]), CategoryLabel(products[|products| - 1]))
  }

  /** `categoryMap.set(name, (categoryMap.get(name) || 0) + 1)`. */
  function Count<K(==,!new)>(counts: seq<Entry<K, int>>, name: K): seq<Entry<K, int>>
  {
    Set(counts, name, CountNow(counts, name) + 1)
  }

  /** `processCategoryData(products)`: the `forEach`, then the entries as
      `{ name, value }` pairs in insertion order. */
  method ProcessCategoryData(products: seq<Product>) returns (data: seq<Entry<string, int>>)
    ensures data == CategoryCounts(products)
  {
    data := [];
    var i := 0;
    while i < |products|
      invariant 0 <= i <= |products|
      invariant data == CategoryCounts(products[..i])
    {
      data := Count(data, CategoryLabel(products[i]));
      assert products[..i + 1][..i] == products[..i];
      assert products[..i + 1][i] == products[i];
      CountsSnoc(products[..i + 1]);
      i := i + 1;
    }
    assert products[..i] == products;
  }

  function Identity(n: int): int { n }

  /** The category chart lists each label once, in the order the labels first
      appear among the products. */
  lemma {:induction false} CategoryOrder(products: seq<Product>)
    ensures Keys(CategoryCounts(products)) == FirstAppearances(Labels(products))
    ensures DistinctKeys(CategoryCounts(products))
  {
    if products != [] {
      var prefix := products[..|products| - 1];
      var name := CategoryLabel(products[|products| - 1]);
      var counts := CategoryCounts(prefix);
      CategoryOrder(prefix);
      SetKeepsKeysDistinct(counts, name, CountNow(counts, name) + 1);
      var labels := Labels(products);
      assert labels[..|labels| - 1] == Labels(prefix);
      assert labels[|labels| - 1] == name;
    }
  }

  /** The last product counted, spelled out. */
  lemma CountsSnoc(products: seq<Product>)
    requires products != []
    ensures CategoryCounts(products)
            == Count(CategoryCounts(products[..|products| - 1]), CategoryLabel(products[|products| - 1]))
  {
  }

  /** The last label, spelled out. */
  lemma LabelsSnoc(products: seq<Product>)
    requires products != []
    ensures Labels(products) == Labels(products[..|products| - 1]) + [CategoryLabel(products[|products| - 1])]
  {
  }

  /** How many of `labels` are `name`, or nothing when none is. */
  function Occurrences<K(==)>(labels: seq<K>, name: K): Option<int>
  {
    if name in labels then Some(multiset(labels)[name]) else None
  }

  /** The slice of the label just counted grows by one. */
  lemma CountStepSame<K(!new)>(counts: seq<Entry<K, int>>, labels: seq<K>, last: K)
    requires Get(counts, last) == Occurrences(labels, last)
    ensures Get(Count(counts, last), last) == Occurrences(labels + [last], last)
  {
    var v := CountNow(counts, last) + 1;
    GetAfterSet(counts, last, v, last);
    assert Get(Count(counts, last), last) == Some(v);
    assert v == multiset(labels)[last] + 1;
    assert multiset(labels + [last])[last] == multiset(labels)[last] + 1 by {
      assert multiset(labels + [last]) == multiset(labels) + multiset{last};
    }
    assert last in labels + [last];
  }

  /** The slices of the other labels stay. */
  lemma CountStepOther<K(!new)>(counts: seq<Entry<K, int>>, labels: seq<K>, last: K, name: K)
    requires name != last && Get(counts, name) == Occurrences(labels, name)
    ensures Get(Count(counts, last), name) == Occurrences(labels + [last], name)
  {
    GetAfterSet(counts, last, CountNow(counts, last) + 1, name);
    assert Get(Count(counts, last), name) == Get(counts, name);
    assert multiset(labels + [last])[name] == multiset(labels)[name] by {
      assert multiset(labels + [last]) == multiset(labels) + multiset{last};
    }
    assert name in labels + [last] <==> name in labels;
    assert Occurrences(labels + [last], name) == Occurrences(labels, name);
  }

  /** Each label's slice counts the products with that label; a name no product
      carries has no slice. */
  lemma {:induction false} CategoryCountsExact(products: seq<Product>, name: string)
    ensures Get(CategoryCounts(products), name) == Occurrences(Labels(products), name)
  {
    if products != [] {
      var prefix := products[..|products| - 1];
      var last := CategoryLabel(products[|products| - 1]);
      var counts := CategoryCounts(prefix);
      CountsSnoc(products);
      LabelsSnoc(products);
      CategoryCountsExact(prefix, name);
      CategoryCountsExact(prefix, last);
      if name == last {
        CountStepSame(counts, Labels(prefix), last);
      } else {
        CountStepOther(counts, Labels(prefix), last, name);
      }
    }
  }

  /** Counting one more product adds one to the sum of the slices. */
  lemma SumStep<K(!new)>(counts: seq<Entry<K, int>>, name: K)
    requires DistinctKeys(counts)
    ensures SumBy(Count(counts, name), Identity) == SumBy(counts, Identity) + 1
  {
    var v := CountNow(counts, name) + 1;
    SumBySet(counts, name, v, Identity);
    assert Count(counts, name) == Set(counts, name, v);
    assert (match Get(counts, name) case Some(prev) => Identity(prev) case None => 0) == v - 1;
  }

  /** The slices add up to the number of products. */
  lemma {:induction false} CategoryCountsSum(products: seq<Product>)
    ensures SumBy(CategoryCounts(products), Identity) == |products|
  {
    if products != [] {
      var prefix := products[..|products| - 1];
      var counts := CategoryCounts(prefix);
      var name := CategoryLabel(products[|products| - 1]);
      CountsSnoc(products);
      CategoryCountsSum(prefix);
      CategoryOrder(prefix);
      SumStep(counts, name);
    }
  }

  // ----------------------------------------------------------- summary

  /** `totalMargin`. */
  function TotalMargin(txs: seq<Transaction>): int
  {
    Revenue(txs) - PurchaseTotal(txs)
  }

  /** `marginPercentage`: 0 unless the revenue is positive. */
  function MarginPercentage(txs: seq<Transaction>): (pct: real)
    ensures Revenue(txs) <= 0 ==> pct == 0.0
    ensures Revenue(txs) > 0 ==> pct * (Revenue(txs) as real) == (TotalMargin(txs) as real) * 100.0
  {
    var revenue := Revenue(txs);
    if revenue > 0 then ((TotalMargin(txs) as real) / (revenue as real)) * 100.0 else 0.0
  }

  /** The average sale: 0 when there are no transactions. */
  function AverageSale(txs: seq<Transaction>): (avg: real)
    ensures |txs| == 0 ==> avg == 0.0
    ensures |txs| > 0 ==> avg * (|txs| as real) == Revenue(txs) as real
  {
    if |txs| > 0 then (Revenue(txs) as real) / (|txs| as real) else 0.0
  }

  /** Every transaction's total is at least `lo` (at most `hi`): then so is the
      revenue per transaction. */
  lemma {:induction false} RevenueBounds(txs: seq<Transaction>, lo: int, hi: int)
    requires forall i :: 0 <= i < |txs| ==> lo <= txs[i].total <= hi
    ensures |txs| * lo <= Revenue(txs) <= |txs| * hi
  {
    if txs != [] {
      var init := txs[..|txs| - 1];
      assert forall i :: 0 <= i < |init| ==> init[i] == txs[i];
      RevenueBounds(init, lo, hi);
      History.MulSucc(|init|, lo);
      History.MulSucc(|init|, hi);
    }
  }

  /** The average sale lies between the smallest and the largest sale: whatever
      bounds every transaction's total bounds the average. */
  lemma AverageWithinTotals(txs: seq<Transaction>, lo: int, hi: int)
    requires |txs| > 0
    requires forall i :: 0 <= i < |txs| ==> lo <= txs[i].total <= hi
    ensures lo as real <= AverageSale(txs) <= hi as real
  {
    RevenueBounds(txs, lo, hi);
    var n := |txs| as real;
    var avg := AverageSale(txs);
    assert avg * n == Revenue(txs) as real;
    assert (lo as real) * n <= avg * n <= (hi as real) * n;
    RealCancelLeq(lo as real, avg, n);
    RealCancelLeq(avg, hi as real, n);
  }

  /** Cancelling a positive factor on both sides of `<=`. */
  lemma RealCancelLeq(a: real, b: real, c: real)
    requires c > 0.0 && a * c <= b * c
    ensures a <= b
  {
    assert (b - a) * c >= 0.0;
  }

  /** `products.filter(p => (p.stock || 0) < 10).length`. */
  function LowStockCount(products: seq<Product>): (n: nat)
    ensures n <= |products|
    ensures n == 0 <==> forall i :: 0 <= i < |products| ==> products[i].stock >= 10
    ensures n == |products| <==> forall i :: 0 <= i < |products| ==> products[i].stock < 10
  {
    if |products| == 0 then 0
    else
      var init := products[..|products| - 1];
      var rest := LowStockCount(init);
      assert forall i :: 0 <= i < |init| ==> init[i] == products[i];
      if products[|products| - 1].stock < 10 then rest + 1 else rest
  }

  /** The positions among the first `k` products whose stock is below 10. */
  ghost function LowStockPositions(products: seq<Product>, k: nat): set<nat>
    requires k <= |products|
  {
    set i: nat | i < k && products[i].stock < 10
  }

  /** The count is the number of products whose stock is below 10. */
  lemma LowStockCountIsExact(products: seq<Product>)
    ensures LowStockCount(products) == |LowStockPositions(products, |products|)|
  {
    LowStockPrefix(products, |products|);
    assert products[..|products|] == products;
  }

  lemma {:induction false} LowStockPrefix(products: seq<Product>, k: nat)
    requires k <= |products|
    ensures LowStockCount(products[..k]) == |LowStockPositions(products, k)|
  {
    if k > 0 {
      LowStockPrefix(products, k - 1);
      var prefix := products[..k];
      assert prefix[..k - 1] == products[..k - 1];
      assert prefix[k - 1] == products[k - 1];
      LowStockCountSnoc(prefix);
      LowStockPositionsStep(products, k);
    }
  }

  /** The last product counted, spelled out. */
  lemma LowStockCountSnoc(products: seq<Product>)
    requires |products| > 0
    ensures LowStockCount(products)
            == LowStockCount(products[..|products| - 1]) + if products[|products| - 1].stock < 10 then 1 else 0
  {
  }

  /** One more position adds itself when its product is low on stock. */
  lemma LowStockPositionsStep(products: seq<Product>, k: nat)
    requires 0 < k <= |products|
    ensures |LowStockPositions(products, k)|
            == |LowStockPositions(products, k - 1)| + if products[k - 1].stock < 10 then 1 else 0
  {
    var before := LowStockPositions(products, k - 1);
    assert k - 1 !in before;
    if products[k - 1].stock < 10 {
      assert LowStockPositions(products, k) == before + {k - 1};
    } else {
      assert LowStockPositions(products, k) == before;
    }
  }

  /** `transactions.slice(0, 5)`: the first five, in the order loaded. */
  function Recent(txs: seq<Transaction>): (r: seq<Transaction>)
    ensures |r| == if |txs| < 5 then |txs| else 5
    ensures forall i :: 0 <= i < |r| ==> r[i] == txs[i]
  {
    if |txs| < 5 then txs else txs[..5]
  }

  /** The monthly margins add up to the total margin. */
  lemma MonthlyMarginsAddUp(txs: seq<Transaction>, monthOf: int -> MonthKey)
    ensures SumBy(MonthlyBuckets(txs, monthOf), TotalOf) - SumBy(MonthlyBuckets(txs, monthOf), PurchaseOfBucket)
            == TotalMargin(txs)
  {
    BucketSums(txs, monthOf);
  }

  /** Transactions written by the checkout carry no purchase price, so on them the
      dashboard reports no cost, a margin equal to the revenue, and a margin of
      100 % whenever the revenue is positive. */
  lemma {:induction false} CheckoutSalesShowFullMargin(txs: seq<Transaction>)
    requires forall i :: 0 <= i < |txs| ==> txs[i].totalPurchasePrice.None?
    ensures PurchaseTotal(txs) == 0
    ensures TotalMargin(txs) == Revenue(txs)
    ensures Revenue(txs) > 0 ==> MarginPercentage(txs) == 100.0
  {
    if txs != [] {
      CheckoutSalesShowFullMargin(txs[..|txs| - 1]);
    }
    if Revenue(txs) > 0 {
      RealCancel(MarginPercentage(txs), 100.0, Revenue(txs) as real);
    }
  }

  /** Cancelling a positive factor on both sides of `==`. */
  lemma RealCancel(a: real, b: real, c: real)
    requires c > 0.0 && a * c == b * c
    ensures a == b
  {
    assert (a - b) * c == 0.0;
  }
}
