/** The report generator of src/report.ts: keep the expenses (debits in
    hryvnia), resolve each one's category through the static category table,
    total them per category, sort the categories by descending total (ties
    keep first-seen order) and render the daily report text. The category
    table and the report's date string are parameters. */
module Report {
  import opened Common
  import opened Utils
  import opened Mono

  /** `CategoryInfo`. */
  datatype CategoryInfo = CategoryInfo(name: string, emoji: string)

  /** `CategoryStats`: one bucket of the aggregation. */
  datatype CategoryStats = CategoryStats(category: CategoryInfo, total: nat, count: nat, transactions: seq<Transaction>)

  /** The category table, keyed by the decimal string of a category code. */
  type CategoryTable = map<string, CategoryInfo>

  const UnknownCategory := CategoryInfo("Інше", "❓")

  /** ISO 4217 numeric code of the hryvnia. */
  const HomeCurrency: int := 980

  /** `getCategoryByMcc`. */
  function CategoryByMcc(table: CategoryTable, mcc: nat): CategoryInfo {
    var key := NatToString(mcc);
    if key in table then table[key] else UnknownCategory
  }

  /** `tx.originalMcc || tx.mcc`: an absent or zero original code falls back to `mcc`. */
  function EffectiveMcc(tx: Transaction): nat {
    if tx.originalMcc.Some? && tx.originalMcc.value != 0 then tx.originalMcc.value else tx.mcc
  }

  function CategoryOf(table: CategoryTable, tx: Transaction): CategoryInfo {
    CategoryByMcc(table, EffectiveMcc(tx))
  }

  /** The bucket key `${emoji} ${name}`. */
  function KeyOf(category: CategoryInfo): string {
    category.emoji + " " + category.name
  }

  function TxKey(table: CategoryTable, tx: Transaction): string {
    KeyOf(CategoryOf(table, tx))
  }

  predicate IsExpense(tx: Transaction) {
    tx.amount < 0 && tx.currencyCode == HomeCurrency
  }

  /** `filterExpenses`. */
  function FilterExpenses(txs: seq<Transaction>): (r: seq<Transaction>)
    ensures |r| <= |txs|
  {
    if txs == [] then []
    else FilterExpenses(txs[..|txs| - 1]) + (if IsExpense(txs[|txs| - 1]) then [txs[|txs| - 1]] else [])
  }

  /** Sum of `Math.abs(tx.amount)`. */
  function SumAbs(txs: seq<Transaction>): nat {
    if txs == [] then 0 else SumAbs(txs[..|txs| - 1]) + Abs(txs[|txs| - 1].amount)
  }

  /** The transactions of `txs` whose bucket key is `key`, in input order. */
  function WithKey(table: CategoryTable, txs: seq<Transaction>, key: string): seq<Transaction> {
    if txs == [] then []
    else WithKey(table, txs[..|txs| - 1], key) + (if TxKey(table, txs[|txs| - 1]) == key then [txs[|txs| - 1]] else [])
  }

  /** The bucket keys of `txs`, each once, in order of first occurrence: the
      iteration order of the `Map` that `categorizeTransactions` fills. */
  function FirstSeenKeys(table: CategoryTable, txs: seq<Transaction>): seq<string> {
    if txs == [] then []
    else
      var keys := FirstSeenKeys(table, txs[..|txs| - 1]);
      var key := TxKey(table, txs[|txs| - 1]);
      if key in keys then keys else keys + [key]
  }

  /** The bucket for `key`: the category of its first transaction, and the
      total, count and list of all its transactions. */
  function BucketFor(table: CategoryTable, txs: seq<Transaction>, key: string): CategoryStats {
    BucketOf(table, WithKey(table, txs, key))
  }

  /** The bucket holding exactly `members`. */
  function BucketOf(table: CategoryTable, members: seq<Transaction>): CategoryStats {
    CategoryStats(if members == [] then UnknownCategory else CategoryOf(table, members[0]), SumAbs(members), |members|, members)
  }

  /** The in-place update of a bucket by one more transaction. */
  function AddTo(stats: CategoryStats, tx: Transaction): CategoryStats {
    CategoryStats(stats.category, stats.total + Abs(tx.amount), stats.count + 1, stats.transactions + [tx])
  }

  /** The bucket a transaction is added to: the existing one for its key, or a
      fresh empty one with its category. */
  function SeedFor(table: CategoryTable, txs: seq<Transaction>, tx: Transaction): CategoryStats {
    var members := WithKey(table, txs, TxKey(table, tx));
    if members == [] then CategoryStats(CategoryOf(table, tx), 0, 0, []) else BucketOf(table, members)
  }

  function Buckets(table: CategoryTable, txs: seq<Transaction>, keys: seq<string>): seq<CategoryStats>
  {
    if keys == [] then [] else [BucketFor(table, txs, keys[0])] + Buckets(table, txs, keys[1..])
  }

  lemma {:induction false} BucketsAt(table: CategoryTable, txs: seq<Transaction>, keys: seq<string>)
    ensures |Buckets(table, txs, keys)| == |keys|
    ensures forall i :: 0 <= i < |keys| ==> Buckets(table, txs, keys)[i] == BucketFor(table, txs, keys[i])
  {
    if keys != [] {
      BucketsAt(table, txs, keys[1..]);
    }
  }

  /** What `Array.from(categorizeTransactions(txs).values())` holds. */
  function Categorized(table: CategoryTable, txs: seq<Transaction>): seq<CategoryStats> {
    Buckets(table, txs, FirstSeenKeys(table, txs))
  }

  /** `categorizeTransactions`: one pass over the expenses, creating a bucket
      the first time a key is seen and updating it in place; the result is the
      buckets in the `Map`'s insertion order. */
  method CategorizeTransactions(table: CategoryTable, txs: seq<Transaction>) returns (buckets: seq<CategoryStats>)
    ensures buckets == Categorized(table, txs)
  {
    var order: seq<string> := [];
    var categories: map<string, CategoryStats> := map[];
    for i := 0 to |txs|
      invariant Tracks(table, txs[..i], order, categories)
    {
      assert txs[..i + 1] == txs[..i] + [txs[i]];
      order, categories := Record(table, txs[..i], txs[i], order, categories);
    }
    assert txs[..|txs|] == txs;
    TracksValues(table, txs, order, categories);
    buckets := Values(order, categories);
  }

  /** The body of the loop of `categorizeTransactions` for one transaction
      `tx`: create the bucket of its key if the key is new, appending the key
      to the insertion order, then add `tx` to that bucket. */
  method Record(table: CategoryTable, ghost prefix: seq<Transaction>, tx: Transaction,
                order: seq<string>, categories: map<string, CategoryStats>)
    returns (order': seq<string>, categories': map<string, CategoryStats>)
    requires Tracks(table, prefix, order, categories)
    ensures Tracks(table, prefix + [tx], order', categories')
  {
    var category := CategoryOf(table, tx);
    var key := KeyOf(category);
    order', categories' := order, categories;
    if key !in categories' {
      categories' := categories'[key := CategoryStats(category, 0, 0, [])];
      order' := order' + [key];
    }
    var stats := categories'[key];
    categories' := categories'[key := CategoryStats(stats.category, stats.total + Abs(tx.amount), stats.count + 1, stats.transactions + [tx])];
    TracksStep(table, prefix, tx, order, categories, order', categories');
  }

  /** `Array.from(map.values())`: the values in key insertion order. */
  function Values(order: seq<string>, categories: map<string, CategoryStats>): (r: seq<CategoryStats>)
    requires forall k :: k in order ==> k in categories
    ensures |r| == |order| && forall j :: 0 <= j < |order| ==> r[j] == categories[order[j]]
  {
    seq(|order|, j requires 0 <= j < |order| => categories[order[j]])
  }

  lemma TracksValues(table: CategoryTable, txs: seq<Transaction>, order: seq<string>, categories: map<string, CategoryStats>)
    requires Tracks(table, txs, order, categories)
    ensures (forall k :: k in order ==> k in categories) && Values(order, categories) == Categorized(table, txs)
  {
    BucketsAt(table, txs, order);
  }

  /** The loop state of `categorizeTransactions` after the transactions
      `prefix`: the keys in insertion order, and under each key its bucket. */
  ghost predicate Tracks(table: CategoryTable, prefix: seq<Transaction>, order: seq<string>, categories: map<string, CategoryStats>) {
    && order == FirstSeenKeys(table, prefix)
    && (forall k :: k in categories <==> k in order)
    && (forall k :: k in categories ==> categories[k] == BucketFor(table, prefix, k))
  }

  /** One iteration of the loop keeps the loop state exact: the key of `tx`
      is appended to the order if it is new, its bucket (a fresh one if the
      key is new) gets `tx`, and every other bucket stays as it was. */
  lemma TracksStep(table: CategoryTable, prefix: seq<Transaction>, tx: Transaction,
                   order: seq<string>, categories: map<string, CategoryStats>,
                   order': seq<string>, categories': map<string, CategoryStats>)
    requires Tracks(table, prefix, order, categories)
    requires order' == if TxKey(table, tx) in categories then order else order + [TxKey(table, tx)]
    requires forall k :: k in categories' <==> k in categories || k == TxKey(table, tx)
    requires forall k :: k in categories && k != TxKey(table, tx) ==> categories'[k] == categories[k]
    requires TxKey(table, tx) in categories'
    requires categories'[TxKey(table, tx)] ==
      AddTo(if TxKey(table, tx) in categories then categories[TxKey(table, tx)] else CategoryStats(CategoryOf(table, tx), 0, 0, []), tx)
    ensures Tracks(table, prefix + [tx], order', categories')
  {
    var key := TxKey(table, tx);
    FirstSeenKeysSnoc(table, prefix, tx);
    FirstSeenKeysHasKey(table, prefix, key);
    assert categories'[key] == AddTo(SeedFor(table, prefix, tx), tx);
    BucketForOwn(table, prefix, tx);
    forall k | k in categories' && k != key
      ensures categories'[k] == BucketFor(table, prefix + [tx], k)
    {
      BucketForOther(table, prefix, tx, k);
    }
  }

  lemma FirstSeenKeysSnoc(table: CategoryTable, txs: seq<Transaction>, tx: Transaction)
    ensures var keys := FirstSeenKeys(table, txs);
      FirstSeenKeys(table, txs + [tx]) == if TxKey(table, tx) in keys then keys else keys + [TxKey(table, tx)]
  {
    assert (txs + [tx])[..|txs|] == txs;
  }

  /** The sort comparator `b.total - a.total`, as a stable descending
      insertion: `x` goes in front of the first element with a smaller total. */
  function InsertByTotal(x: CategoryStats, sorted: seq<CategoryStats>): seq<CategoryStats> {
    if sorted == [] || x.total >= sorted[0].total then [x] + sorted
    else [sorted[0]] + InsertByTotal(x, sorted[1..])
  }

  /** `Array.prototype.sort` with `(a, b) => b.total - a.total`. The sort is
      stable, so its result is the one a stable insertion sort gives. */
  function SortByTotal(buckets: seq<CategoryStats>): seq<CategoryStats> {
    if buckets == [] then [] else InsertByTotal(buckets[0], SortByTotal(buckets[1..]))
  }

  ghost predicate Distinct(s: seq<string>) {
    forall i, j :: 0 <= i < j < |s| ==> s[i] != s[j]
  }

  ghost predicate NonIncreasing(s: seq<CategoryStats>) {
    forall i, j :: 0 <= i < j < |s| ==> s[i].total >= s[j].total
  }

  /** The buckets of `s` with total `t`, in their order in `s`. */
  function WithTotal(s: seq<CategoryStats>, t: nat): seq<CategoryStats> {
    if s == [] then [] else (if s[0].total == t then [s[0]] else []) + WithTotal(s[1..], t)
  }

  function SumTotals(s: seq<CategoryStats>): nat {
    if s == [] then 0 else s[0].total + SumTotals(s[1..])
  }

  function SumCounts(s: seq<CategoryStats>): nat {
    if s == [] then 0 else s[0].count + SumCounts(s[1..])
  }

  /** The report's first line. */
  function Header(date: string): string {
    "📅 Витрати за " + date
  }

  /** The summary line, followed by a blank line. */
  function SummaryLine(totalAmount: nat, totalCount: nat): string {
    "Разом: " + FormatAmountWithSeparators(totalAmount) + " грн (" + NatToString(totalCount) + " транзакцій)\n\n"
  }

  /** One category's line. */
  function CategoryLine(stats: CategoryStats): string {
    stats.category.emoji + " " + stats.category.name + ": " + FormatAmountWithSeparators(stats.total) + " грн (" + NatToString(stats.count) + ")\n"
  }

  function CategoryLines(s: seq<CategoryStats>): string {
    if s == [] then "" else CategoryLines(s[..|s| - 1]) + CategoryLine(s[|s| - 1])
  }

  lemma CategoryLinesSnoc(s: seq<CategoryStats>, i: nat)
    requires i < |s|
    ensures CategoryLines(s[..i + 1]) == CategoryLines(s[..i]) + CategoryLine(s[i])
  {
    assert s[..i + 1][..i] == s[..i];
  }

  /** `generateReport`, with the date of the day passed in as `date`. With no
      expense the report is the header and "no expenses today", whatever else
      the input holds; otherwise the header, the summary of all expenses and
      one line per category bucket, in sorted order. */
  method GenerateReport(table: CategoryTable, date: string, txs: seq<Transaction>) returns (report: string)
    ensures FilterExpenses(txs) == [] ==> report == Header(date) + "\n\nСьогодні витрат не було."
    ensures var expenses := FilterExpenses(txs);
      expenses != [] ==>
        report == Header(date) + "\n\n" + SummaryLine(SumAbs(expenses), |expenses|)
          + CategoryLines(SortByTotal(Categorized(table, expenses)))
  {
    var expenses := FilterExpenses(txs);
    if |expenses| == 0 {
      return Header(date) + "\n\nСьогодні витрат не було.";
    }
    var categories := CategorizeTransactions(table, expenses);
    var sortedCategories := SortByTotal(categories);
    var totalAmount := SumAbs(expenses);
    var totalCount := |expenses|;
    report := Header(date) + "\n\n";
    report := report + SummaryLine(totalAmount, totalCount);
    report := AppendCategoryLines(report, sortedCategories);
  }

  /** The rendering loop of `generateReport`: one line per bucket, in order. */
  method AppendCategoryLines(prefix: string, buckets: seq<CategoryStats>) returns (report: string)
    ensures report == prefix + CategoryLines(buckets)
  {
    report := prefix;
    for i := 0 to |buckets|
      invariant report == prefix + CategoryLines(buckets[..i])
    {
      CategoryLinesSnoc(buckets, i);
      ConcatAssoc(prefix, CategoryLines(buckets[..i]), CategoryLine(buckets[i]));
      report := report + CategoryLine(buckets[i]);
    }
    assert buckets[..|buckets|] == buckets;
  }

  /** `getTransactionStats`' result. */
  datatype TransactionStats = TransactionStats(total: nat, expenses: nat, expensesCount: nat)

  /** `getTransactionStats`: the number of transactions and, twice, the
      number of expenses among them. */
  function GetTransactionStats(txs: seq<Transaction>): (r: TransactionStats)
    ensures r.total == |txs|
    ensures r.expenses == r.expensesCount == |FilterExpenses(txs)| <= r.total
  {
    var expenses := FilterExpenses(txs);
    TransactionStats(|txs|, |expenses|, |expenses|)
  }

  // ---------------------------------------------------------------------------
  // Filtering

  /** The filter distributes over concatenation, so it keeps input order. */
  lemma {:induction false} FilterExpensesAppend(a: seq<Transaction>, b: seq<Transaction>)
    ensures FilterExpenses(a + b) == FilterExpenses(a) + FilterExpenses(b)
    decreases |b|
  {
    if b == [] {
      assert a + b == a;
    } else {
      var last := b[|b| - 1];
      assert (a + b)[..|a + b| - 1] == a + b[..|b| - 1];
      FilterExpensesAppend(a, b[..|b| - 1]);
    }
  }

  /** A transaction is kept exactly when it is a debit in hryvnia. */
  lemma FilterExpensesSingle(tx: Transaction)
    ensures FilterExpenses([tx]) == if tx.amount < 0 && tx.currencyCode == 980 then [tx] else []
  {
    assert [tx][..0] == [];
  }

  /** Membership: the kept transactions are exactly the input's expenses. */
  lemma {:induction false} FilterExpensesMembers(txs: seq<Transaction>, tx: Transaction)
    ensures tx in FilterExpenses(txs) <==> tx in txs && IsExpense(tx)
  {
    if txs != [] {
      var init := txs[..|txs| - 1];
      FilterExpensesMembers(init, tx);
      assert txs == init + [txs[|txs| - 1]];
    }
  }

  /** No credit and no foreign-currency transaction reaches the report: adding
      such transactions anywhere leaves the expenses unchanged. */
  lemma NonExpensesIgnored(a: seq<Transaction>, others: seq<Transaction>, b: seq<Transaction>)
    requires forall i :: 0 <= i < |others| ==> !IsExpense(others[i])
    ensures FilterExpenses(a + others + b) == FilterExpenses(a + b)
  {
    NoExpenses(others);
    FilterExpensesAppend(a + others, b);
    FilterExpensesAppend(a, others);
    FilterExpensesAppend(a, b);
    assert FilterExpenses(a + others) == FilterExpenses(a) + [] == FilterExpenses(a);
  }

  lemma {:induction false} NoExpenses(txs: seq<Transaction>)
    requires forall i :: 0 <= i < |txs| ==> !IsExpense(txs[i])
    ensures FilterExpenses(txs) == []
  {
    if txs != [] {
      NoExpenses(txs[..|txs| - 1]);
    }
  }

  // ---------------------------------------------------------------------------
  // Category resolution

  /** The category is the table entry whose key is a canonical numeral of the
      effective code (`originalMcc` when present and non-zero, else `mcc`);
      when the table has no such key it is "Інше" / "❓". An entry whose key
      is not a canonical numeral (say "0742") is never reached. */
  lemma CategoryResolution(table: CategoryTable, tx: Transaction)
    ensures var code := if tx.originalMcc.Some? && tx.originalMcc.value != 0 then tx.originalMcc.value else tx.mcc;
      && (forall k :: k in table && IsNumeral(k) && DigitsValue(k) == code ==> CategoryOf(table, tx) == table[k])
      && ((forall k :: k in table && IsNumeral(k) ==> DigitsValue(k) != code) ==> CategoryOf(table, tx) == CategoryInfo("Інше", "❓"))
      && (CategoryOf(table, tx) == CategoryInfo("Інше", "❓")
          || exists k :: k in table && IsNumeral(k) && DigitsValue(k) == code && CategoryOf(table, tx) == table[k])
  {
    var code := EffectiveMcc(tx);
    var key := NatToString(code);
    NatToStringRoundTrip(code);
    assert IsNumeral(key);
    forall k | k in table && IsNumeral(k) && DigitsValue(k) == code
      ensures k == key
    {
      NumeralRoundTrip(k);
    }
  }

  // ---------------------------------------------------------------------------
  // Aggregation

  lemma {:induction false} FirstSeenKeysHasKey(table: CategoryTable, txs: seq<Transaction>, key: string)
    ensures key in FirstSeenKeys(table, txs) <==> WithKey(table, txs, key) != []
  {
    if txs != [] {
      var init := txs[..|txs| - 1];
      FirstSeenKeysHasKey(table, init, key);
      var keys := FirstSeenKeys(table, init);
      var last := TxKey(table, txs[|txs| - 1]);
      if last == key {
        assert WithKey(table, txs, key) == WithKey(table, init, key) + [txs[|txs| - 1]];
        assert key in FirstSeenKeys(table, txs);
      } else {
        assert WithKey(table, txs, key) == WithKey(table, init, key) + [];
        assert key in FirstSeenKeys(table, txs) <==> key in keys;
      }
    }
  }

  lemma {:induction false} FirstSeenKeysDistinct(table: CategoryTable, txs: seq<Transaction>)
    ensures Distinct(FirstSeenKeys(table, txs))
  {
    if txs != [] {
      var init := txs[..|txs| - 1];
      FirstSeenKeysDistinct(table, init);
      var keys := FirstSeenKeys(table, init);
      var key := TxKey(table, txs[|txs| - 1]);
      if key !in keys {
        var keys' := keys + [key];
        assert FirstSeenKeys(table, txs) == keys';
        forall i, j | 0 <= i < j < |keys'| ensures keys'[i] != keys'[j] {
          if j == |keys| {
            assert keys'[i] == keys[i] && keys[i] in keys;
          } else {
            assert keys'[i] == keys[i] && keys'[j] == keys[j];
          }
        }
      }
    }
  }

  lemma WithKeySnoc(table: CategoryTable, txs: seq<Transaction>, tx: Transaction, key: string)
    ensures WithKey(table, txs + [tx], key) == WithKey(table, txs, key) + (if TxKey(table, tx) == key then [tx] else [])
  {
    assert (txs + [tx])[..|txs|] == txs;
  }

  lemma SumAbsSnoc(txs: seq<Transaction>, tx: Transaction)
    ensures SumAbs(txs + [tx]) == SumAbs(txs) + Abs(tx.amount)
  {
    assert (txs + [tx])[..|txs|] == txs;
  }

  /** One more transaction leaves the buckets of other keys as they were. */
  lemma BucketForOther(table: CategoryTable, txs: seq<Transaction>, tx: Transaction, key: string)
    requires TxKey(table, tx) != key
    ensures BucketFor(table, txs + [tx], key) == BucketFor(table, txs, key)
  {
    var members := WithKey(table, txs, key);
    WithKeySnoc(table, txs, tx, key);
    assert members + [] == members;
  }

  /** One more member extends a bucket by itself at the end, one more in the
      count and its absolute amount more in the total; a bucket that was empty
      takes the new member's category. */
  lemma BucketOfSnoc(table: CategoryTable, members: seq<Transaction>, tx: Transaction)
    ensures BucketOf(table, members + [tx]) ==
      AddTo(if members == [] then CategoryStats(CategoryOf(table, tx), 0, 0, []) else BucketOf(table, members), tx)
  {
    SumAbsSnoc(members, tx);
    assert (members + [tx])[0] == if members == [] then tx else members[0];
  }

  /** One more transaction adds itself to the bucket of its own key, which
      is a fresh one if the key is new. */
  lemma BucketForOwn(table: CategoryTable, txs: seq<Transaction>, tx: Transaction)
    ensures BucketFor(table, txs + [tx], TxKey(table, tx)) == AddTo(SeedFor(table, txs, tx), tx)
  {
    var key := TxKey(table, tx);
    WithKeySnoc(table, txs, tx, key);
    BucketOfSnoc(table, WithKey(table, txs, key), tx);
  }

  lemma {:induction false} WithKeyMembers(table: CategoryTable, txs: seq<Transaction>, key: string, tx: Transaction)
    ensures tx in WithKey(table, txs, key) <==> tx in txs && TxKey(table, tx) == key
  {
    if txs != [] {
      var init := txs[..|txs| - 1];
      WithKeyMembers(table, init, key, tx);
      assert txs == init + [txs[|txs| - 1]];
    }
  }

  /** Every bucket is keyed by its category, holds only transactions with
      that key, keeps them in input order, and its count and total are their
      number and the sum of their absolute amounts. The bucket keys are
      distinct, and every transaction lies in a bucket: so each transaction
      lies in exactly one bucket, the one with its own key. */
  lemma CategorizedBuckets(table: CategoryTable, txs: seq<Transaction>)
    ensures var buckets := Categorized(table, txs);
      && (forall j :: 0 <= j < |buckets| ==>
            && buckets[j].transactions == WithKey(table, txs, KeyOf(buckets[j].category))
            && buckets[j].transactions != []
            && buckets[j].count == |buckets[j].transactions|
            && buckets[j].total == SumAbs(buckets[j].transactions))
      && (forall i, j :: 0 <= i < j < |buckets| ==> KeyOf(buckets[i].category) != KeyOf(buckets[j].category))
      && (forall tx :: tx in txs ==> exists j :: 0 <= j < |buckets| && tx in buckets[j].transactions)
  {
    var keys := FirstSeenKeys(table, txs);
    var buckets := Categorized(table, txs);
    BucketsAt(table, txs, keys);
    FirstSeenKeysDistinct(table, txs);
    forall j | 0 <= j < |buckets|
      ensures KeyOf(buckets[j].category) == keys[j]
      ensures buckets[j].transactions == WithKey(table, txs, keys[j]) != []
    {
      FirstSeenKeysHasKey(table, txs, keys[j]);
      var members := WithKey(table, txs, keys[j]);
      WithKeyMembers(table, txs, keys[j], members[0]);
    }
    forall tx | tx in txs
      ensures exists j :: 0 <= j < |buckets| && tx in buckets[j].transactions
    {
      var key := TxKey(table, tx);
      WithKeyMembers(table, txs, key, tx);
      FirstSeenKeysHasKey(table, txs, key);
      var j :| 0 <= j < |keys| && keys[j] == key;
      assert tx in buckets[j].transactions;
    }
  }

  lemma {:induction false} SumTotalsAppend(a: seq<CategoryStats>, b: seq<CategoryStats>)
    ensures SumTotals(a + b) == SumTotals(a) + SumTotals(b)
    ensures SumCounts(a + b) == SumCounts(a) + SumCounts(b)
  {
    if a == [] {
      assert a + b == b;
    } else {
      assert (a + b)[0] == a[0];
      assert (a + b)[1..] == a[1..] + b;
      SumTotalsAppend(a[1..], b);
      assert SumTotals(a + b) == a[0].total + SumTotals(a[1..] + b);
      assert SumCounts(a + b) == a[0].count + SumCounts(a[1..] + b);
    }
  }

  lemma BucketsCons(table: CategoryTable, txs: seq<Transaction>, keys: seq<string>)
    requires keys != []
    ensures SumTotals(Buckets(table, txs, keys)) == BucketFor(table, txs, keys[0]).total + SumTotals(Buckets(table, txs, keys[1..]))
    ensures SumCounts(Buckets(table, txs, keys)) == BucketFor(table, txs, keys[0]).count + SumCounts(Buckets(table, txs, keys[1..]))
  {
    var b := Buckets(table, txs, keys);
    assert b == [BucketFor(table, txs, keys[0])] + Buckets(table, txs, keys[1..]);
    assert b[1..] == Buckets(table, txs, keys[1..]);
  }

  /** Buckets whose keys are not that of `tx` do not change when `tx` is added. */
  lemma {:induction false} BucketsUnaffected(table: CategoryTable, txs: seq<Transaction>, tx: Transaction, keys: seq<string>)
    requires TxKey(table, tx) !in keys
    ensures SumTotals(Buckets(table, txs + [tx], keys)) == SumTotals(Buckets(table, txs, keys))
    ensures SumCounts(Buckets(table, txs + [tx], keys)) == SumCounts(Buckets(table, txs, keys))
  {
    if keys != [] {
      BucketForOther(table, txs, tx, keys[0]);
      BucketsUnaffected(table, txs, tx, keys[1..]);
      BucketsCons(table, txs, keys);
      BucketsCons(table, txs + [tx], keys);
    }
  }

  /** Over distinct keys among which is that of `tx`, adding `tx` adds its
      absolute amount to the sum of totals and one to the sum of counts. */
  lemma {:induction false} BucketsGrow(table: CategoryTable, txs: seq<Transaction>, tx: Transaction, keys: seq<string>)
    requires TxKey(table, tx) in keys
    requires Distinct(keys)
    ensures SumTotals(Buckets(table, txs + [tx], keys)) == SumTotals(Buckets(table, txs, keys)) + Abs(tx.amount)
    ensures SumCounts(Buckets(table, txs + [tx], keys)) == SumCounts(Buckets(table, txs, keys)) + 1
  {
    var key := TxKey(table, tx);
    BucketsCons(table, txs, keys);
    BucketsCons(table, txs + [tx], keys);
    if keys[0] == key {
      BucketForOwn(table, txs, tx);
      assert key !in keys[1..] by {
        forall i | 0 <= i < |keys| - 1 ensures keys[1..][i] != key {
          assert keys[1..][i] == keys[i + 1];
        }
      }
      BucketsUnaffected(table, txs, tx, keys[1..]);
    } else {
      BucketForOther(table, txs, tx, keys[0]);
      assert key in keys[1..];
      assert Distinct(keys[1..]) by {
        forall i, j | 0 <= i < j < |keys[1..]| ensures keys[1..][i] != keys[1..][j] {
          assert keys[1..][i] == keys[i + 1] && keys[1..][j] == keys[j + 1];
        }
      }
      BucketsGrow(table, txs, tx, keys[1..]);
    }
  }

  /** Conservation: the bucket totals add up to the total of all absolute
      amounts, and the bucket counts to the number of transactions. */
  lemma {:induction false} CategorizedConservation(table: CategoryTable, txs: seq<Transaction>)
    ensures SumTotals(Categorized(table, txs)) == SumAbs(txs)
    ensures SumCounts(Categorized(table, txs)) == |txs|
  {
    if txs != [] {
      var init := txs[..|txs| - 1];
      var tx := txs[|txs| - 1];
      assert txs == init + [tx];
      CategorizedConservation(table, init);
      SumAbsSnoc(init, tx);
      CategorizedStep(table, init, tx);
    }
  }

  /** One more transaction adds its absolute amount to the sum of the bucket
      totals and one to the sum of the counts. */
  lemma CategorizedStep(table: CategoryTable, txs: seq<Transaction>, tx: Transaction)
    ensures SumTotals(Categorized(table, txs + [tx])) == SumTotals(Categorized(table, txs)) + Abs(tx.amount)
    ensures SumCounts(Categorized(table, txs + [tx])) == SumCounts(Categorized(table, txs)) + 1
  {
    var keys := FirstSeenKeys(table, txs);
    FirstSeenKeysSnoc(table, txs, tx);
    if TxKey(table, tx) in keys {
      FirstSeenKeysDistinct(table, txs);
      BucketsGrow(table, txs, tx, keys);
    } else {
      BucketsNewKey(table, txs, tx, keys);
    }
  }

  /** A new key adds a bucket holding just `tx` after the others, which stay
      as they were. */
  lemma BucketsNewKey(table: CategoryTable, txs: seq<Transaction>, tx: Transaction, keys: seq<string>)
    requires keys == FirstSeenKeys(table, txs) && TxKey(table, tx) !in keys
    ensures SumTotals(Buckets(table, txs + [tx], keys + [TxKey(table, tx)])) == SumTotals(Buckets(table, txs, keys)) + Abs(tx.amount)
    ensures SumCounts(Buckets(table, txs + [tx], keys + [TxKey(table, tx)])) == SumCounts(Buckets(table, txs, keys)) + 1
  {
    var key := TxKey(table, tx);
    BucketsUnaffected(table, txs, tx, keys);
    BucketsAppend(table, txs + [tx], keys, [key]);
    SumTotalsAppend(Buckets(table, txs + [tx], keys), Buckets(table, txs + [tx], [key]));
    FirstSeenKeysHasKey(table, txs, key);
    BucketForOwn(table, txs, tx);
    var single := Buckets(table, txs + [tx], [key]);
    assert single == [BucketFor(table, txs + [tx], key)];
    assert single[1..] == [];
  }

  lemma {:induction false} BucketsAppend(table: CategoryTable, txs: seq<Transaction>, a: seq<string>, b: seq<string>)
    ensures Buckets(table, txs, a + b) == Buckets(table, txs, a) + Buckets(table, txs, b)
  {
    if a == [] {
      assert a + b == b;
    } else {
      assert (a + b)[0] == a[0];
      assert (a + b)[1..] == a[1..] + b;
      BucketsAppend(table, txs, a[1..], b);
    }
  }

  // ---------------------------------------------------------------------------
  // Sorting

  /** A bucket whose total is at least the head's can go in front of a
      sorted sequence. */
  lemma ConsSorted(x: CategoryStats, s: seq<CategoryStats>)
    requires NonIncreasing(s)
    requires s == [] || x.total >= s[0].total
    ensures NonIncreasing([x] + s)
  {
    var r := [x] + s;
    forall i, j | 0 <= i < j < |r| ensures r[i].total >= r[j].total {
      assert r[j] == s[j - 1];
      if i > 0 {
        assert r[i] == s[i - 1];
      } else if j > 1 {
        assert s[0].total >= s[j - 1].total;
      }
    }
  }

  lemma SortedTail(s: seq<CategoryStats>)
    requires NonIncreasing(s) && s != []
    ensures NonIncreasing(s[1..])
  {
    forall i, j | 0 <= i < j < |s[1..]| ensures s[1..][i].total >= s[1..][j].total {
      assert s[1..][i] == s[i + 1] && s[1..][j] == s[j + 1];
    }
  }

  /** Inserting into a sorted sequence keeps it sorted and adds one element,
      which is either the new one or the old head at the front. */
  lemma {:induction false} InsertByTotalSorted(x: CategoryStats, s: seq<CategoryStats>)
    requires NonIncreasing(s)
    ensures var r := InsertByTotal(x, s);
      && NonIncreasing(r)
      && |r| == |s| + 1
      && (r[0] == x || (s != [] && r[0] == s[0]))
  {
    if s == [] || x.total >= s[0].total {
      ConsSorted(x, s);
    } else {
      SortedTail(s);
      InsertByTotalSorted(x, s[1..]);
      var r' := InsertByTotal(x, s[1..]);
      assert r'[0] == x || s[0].total >= r'[0].total by {
        if r'[0] != x {
          assert r'[0] == s[1];
        }
      }
      ConsSorted(s[0], r');
    }
  }

  /** Inserting adds exactly the new element. */
  lemma {:induction false} InsertByTotalPermutes(x: CategoryStats, s: seq<CategoryStats>)
    ensures multiset(InsertByTotal(x, s)) == multiset(s) + multiset{x}
  {
    if s != [] && x.total < s[0].total {
      InsertByTotalPermutes(x, s[1..]);
      assert s == [s[0]] + s[1..];
    }
  }

  lemma {:induction false} InsertByTotalWithTotal(x: CategoryStats, s: seq<CategoryStats>, t: nat)
    ensures WithTotal(InsertByTotal(x, s), t) == (if x.total == t then [x] else []) + WithTotal(s, t)
  {
    var r := InsertByTotal(x, s);
    if s == [] || x.total >= s[0].total {
      assert r == [x] + s;
      assert r[1..] == s;
    } else {
      var r' := InsertByTotal(x, s[1..]);
      InsertByTotalWithTotal(x, s[1..], t);
      assert r == [s[0]] + r';
      assert r[1..] == r';
      var own := if x.total == t then [x] else [];
      var head := if s[0].total == t then [s[0]] else [];
      assert own == [] || head == [];
      assert WithTotal(r, t) == head + (own + WithTotal(s[1..], t));
      assert WithTotal(s, t) == head + WithTotal(s[1..], t);
    }
  }

  /** The sort puts the totals in non-increasing order. */
  lemma {:induction false} SortByTotalSorted(s: seq<CategoryStats>)
    ensures NonIncreasing(SortByTotal(s)) && |SortByTotal(s)| == |s|
  {
    if s != [] {
      SortByTotalSorted(s[1..]);
      InsertByTotalSorted(s[0], SortByTotal(s[1..]));
    }
  }

  /** The sort is a permutation of its input. */
  lemma {:induction false} SortByTotalPermutes(s: seq<CategoryStats>)
    ensures multiset(SortByTotal(s)) == multiset(s)
  {
    if s != [] {
      SortByTotalPermutes(s[1..]);
      InsertByTotalPermutes(s[0], SortByTotal(s[1..]));
      assert s == [s[0]] + s[1..];
      assert multiset(s) == multiset{s[0]} + multiset(s[1..]);
    }
  }

  /** The sort is stable: for each total, the buckets with that total keep
      their relative order. With `SortByTotalSorted` this determines the
      result. */
  lemma {:induction false} SortByTotalStable(s: seq<CategoryStats>, t: nat)
    ensures WithTotal(SortByTotal(s), t) == WithTotal(s, t)
  {
    if s != [] {
      SortByTotalStable(s[1..], t);
      InsertByTotalWithTotal(s[0], SortByTotal(s[1..]), t);
    }
  }

  lemma {:induction false} InsertByTotalSums(x: CategoryStats, s: seq<CategoryStats>)
    ensures SumTotals(InsertByTotal(x, s)) == x.total + SumTotals(s)
    ensures SumCounts(InsertByTotal(x, s)) == x.count + SumCounts(s)
  {
    if s != [] && x.total < s[0].total {
      InsertByTotalSums(x, s[1..]);
    }
  }

  /** Sorting keeps the sum of the totals and of the counts. */
  lemma {:induction false} SortByTotalSums(s: seq<CategoryStats>)
    ensures SumTotals(SortByTotal(s)) == SumTotals(s)
    ensures SumCounts(SortByTotal(s)) == SumCounts(s)
  {
    if s != [] {
      SortByTotalSums(s[1..]);
      InsertByTotalSums(s[0], SortByTotal(s[1..]));
    }
  }

  /** The report's lines agree with its summary: the category lines, in the
      order they are printed, have totals adding up to the overall total and
      counts adding up to the number of expenses. */
  lemma ReportLinesAddUp(table: CategoryTable, txs: seq<Transaction>)
    ensures var expenses := FilterExpenses(txs);
      var sorted := SortByTotal(Categorized(table, expenses));
      SumTotals(sorted) == SumAbs(expenses) && SumCounts(sorted) == |expenses|
  {
    var expenses := FilterExpenses(txs);
    SortByTotalSums(Categorized(table, expenses));
    CategorizedConservation(table, expenses);
  }
}
