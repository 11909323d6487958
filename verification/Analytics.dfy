/**
 * The three-way grouping of order analytics (internal/dashboard/service.go):
 * currency totals, status counts and provider totals from one pass over the rows,
 * in 64-bit integers with every addition checked.
 */
module Analytics {
  import opened Sorting
  import opened Text
  import opened Wrappers

  const MAX_INT64: int64 := 0x7FFF_FFFF_FFFF_FFFF
  const MIN_INT64: int64 := -MAX_INT64 - 1

  datatype Row = Row(provider: string, status: string, currency: string, orders: int64, value: int64)

  const ACTIVE_STATUSES := {"PENDING", "PROCESSING", "ON_HOLD", "COMPLETED"}

  /** One published number. */
  datatype Key =
    | CurrencyOrders(currency: string) | CurrencyValue(currency: string)
    | ActiveOrders(currency: string) | ActiveValue(currency: string)
    | StatusOrders(status: string)
    | ProviderOrders(provider: string, currency: string) | ProviderValue(provider: string, currency: string)

  /** What a row adds to a number; rows without a currency add nothing anywhere. */
  function Amount(r: Row, k: Key): int {
    if r.currency == "" then 0 else
    match k
    case CurrencyOrders(c) => if r.currency == c then r.orders as int else 0
    case CurrencyValue(c) => if r.currency == c then r.value as int else 0
    case ActiveOrders(c) => if r.currency == c && r.status in ACTIVE_STATUSES then r.orders as int else 0
    case ActiveValue(c) => if r.currency == c && r.status in ACTIVE_STATUSES then r.value as int else 0
    case StatusOrders(s) => if r.status == s then r.orders as int else 0
    case ProviderOrders(p, c) => if r.provider == p && r.currency == c then r.orders as int else 0
    case ProviderValue(p, c) => if r.provider == p && r.currency == c then r.value as int else 0
  }

  /** The exact sum, over unbounded integers. */
  function Total(rows: seq<Row>, k: Key): int {
    if rows == [] then 0 else Total(rows[..|rows| - 1], k) + Amount(rows[|rows| - 1], k)
  }

  /** What one more row adds to each number. Pending, processed, held and completed orders are the active ones. */
  lemma RowsAdd(rows: seq<Row>, r: Row, p: string, c: string, s: string)
    ensures forall k :: Total(rows + [r], k) == Total(rows, k) + Amount(r, k)
    ensures var counted := r.currency != "" && r.currency == c;
      var active := r.status == "PENDING" || r.status == "PROCESSING" || r.status == "ON_HOLD"
        || r.status == "COMPLETED";
      && Amount(r, CurrencyOrders(c)) == (if counted then r.orders as int else 0)
      && Amount(r, CurrencyValue(c)) == (if counted then r.value as int else 0)
      && Amount(r, ActiveOrders(c)) == (if counted && active then r.orders as int else 0)
      && Amount(r, ActiveValue(c)) == (if counted && active then r.value as int else 0)
      && Amount(r, StatusOrders(s)) == (if r.currency != "" && r.status == s then r.orders as int else 0)
      && Amount(r, ProviderOrders(p, c)) == (if counted && r.provider == p then r.orders as int else 0)
      && Amount(r, ProviderValue(p, c)) == (if counted && r.provider == p then r.value as int else 0)
  {
    assert (rows + [r])[..|rows|] == rows;
  }

  predicate InRange(n: int) {
    MIN_INT64 as int <= n <= MAX_INT64 as int
  }

  ghost predicate AllInRange(rows: seq<Row>) {
    forall k {:trigger Total(rows, k)} :: InRange(Total(rows, k))
  }

  /** No number ever leaves the range while the rows are added in order. */
  ghost predicate NeverOverflows(rows: seq<Row>) {
    forall n | 0 <= n <= |rows| :: AllInRange(rows[..n])
  }

  function Currencies(rows: seq<Row>): set<string> {
    if rows == [] then {}
    else Currencies(rows[..|rows| - 1]) + if rows[|rows| - 1].currency == "" then {} else {rows[|rows| - 1].currency}
  }

  function Statuses(rows: seq<Row>): set<string> {
    if rows == [] then {}
    else Statuses(rows[..|rows| - 1]) + if rows[|rows| - 1].currency == "" then {} else {rows[|rows| - 1].status}
  }

  function Pairs(rows: seq<Row>): set<(string, string)> {
    if rows == [] then {}
    else
      var last := rows[|rows| - 1];
      Pairs(rows[..|rows| - 1]) + if last.currency == "" then {} else {(last.provider, last.currency)}
  }

  // ---- The tallies ----

  datatype Bucket = Bucket(orders: int64, value: int64, activeOrders: int64, activeValue: int64)

  const EMPTY := Bucket(0, 0, 0, 0)

  datatype Tallies = Tallies(
    currencies: map<string, Bucket>, sizes: map<string, int64>, providers: map<string, map<string, Bucket>>)

  function CurrencyBucket(t: Tallies, c: string): Bucket {
    if c in t.currencies then t.currencies[c] else EMPTY
  }

  function SizeOf(t: Tallies, s: string): int64 {
    if s in t.sizes then t.sizes[s] else 0
  }

  function ProviderBucket(t: Tallies, p: string, c: string): Bucket {
    if p in t.providers && c in t.providers[p] then t.providers[p][c] else EMPTY
  }

  /** The number that the tallies hold for a key. */
  function Tallied(t: Tallies, k: Key): int64 {
    match k
    case CurrencyOrders(c) => CurrencyBucket(t, c).orders
    case CurrencyValue(c) => CurrencyBucket(t, c).value
    case ActiveOrders(c) => CurrencyBucket(t, c).activeOrders
    case ActiveValue(c) => CurrencyBucket(t, c).activeValue
    case StatusOrders(s) => SizeOf(t, s)
    case ProviderOrders(p, c) => ProviderBucket(t, p, c).orders
    case ProviderValue(p, c) => ProviderBucket(t, p, c).value
  }

  /** The pairs of provider and currency that have a bucket. */
  predicate HasPair(t: Tallies, p: string, c: string) {
    p in t.providers && c in t.providers[p]
  }

  /** The groups are those of the rows with a currency. */
  ghost predicate Covers(t: Tallies, rows: seq<Row>) {
    && t.currencies.Keys == Currencies(rows) && t.sizes.Keys == Statuses(rows)
    && forall p, c :: HasPair(t, p, c) <==> (p, c) in Pairs(rows)
  }

  /** The tallies are the exact sums. */
  ghost predicate Exact(t: Tallies, rows: seq<Row>) {
    forall k :: Tallied(t, k) as int == Total(rows, k)
  }

  /** Adds before publishing, or fails on a sum that does not fit. */
  method AddAnalytics(total: int64, value: int64) returns (sum: Option<int64>)
    ensures sum.Some? <==> InRange(total as int + value as int)
    ensures sum.Some? ==> sum.value as int == total as int + value as int
  {
    if (value > 0 && total > MAX_INT64 - value) || (value < 0 && total < MIN_INT64 - value) {
      return None;
    }
    return Some(total + value);
  }

  method AddToBucket(b: Bucket, r: Row, active: bool) returns (sum: Option<Bucket>)
    ensures sum.Some? <==>
      && InRange(b.orders as int + r.orders as int) && InRange(b.value as int + r.value as int)
      && (active ==> InRange(b.activeOrders as int + r.orders as int) && InRange(b.activeValue as int + r.value as int))
    ensures sum.Some? ==>
      sum.value.orders as int == b.orders as int + r.orders as int
        && sum.value.value as int == b.value as int + r.value as int
    ensures sum.Some? ==> sum.value.activeOrders as int == b.activeOrders as int + if active then r.orders as int else 0
    ensures sum.Some? ==> sum.value.activeValue as int == b.activeValue as int + if active then r.value as int else 0
  {
    var orders := AddAnalytics(b.orders, r.orders);
    if orders.None? {
      return None;
    }
    var value := AddAnalytics(b.value, r.value);
    if value.None? {
      return None;
    }
    var updated := b.(orders := orders.value, value := value.value);
    if active {
      var activeOrders := AddAnalytics(b.activeOrders, r.orders);
      if activeOrders.None? {
        return None;
      }
      var activeValue := AddAnalytics(b.activeValue, r.value);
      if activeValue.None? {
        return None;
      }
      updated := updated.(activeOrders := activeOrders.value, activeValue := activeValue.value);
    }
    return Some(updated);
  }

  /** One row into its groups; on failure some number would have left the range. */
  method AddRow(t: Tallies, r: Row) returns (u: Option<Tallies>)
    requires r.currency != ""
    ensures u.Some? ==> forall k :: Tallied(u.value, k) as int == Tallied(t, k) as int + Amount(r, k)
    ensures u.Some? ==> Added(t, r, u.value)
    ensures u.None? ==> exists k :: !InRange(Tallied(t, k) as int + Amount(r, k))
  {
    var active := r.status in ACTIVE_STATUSES;
    var b := AddToBucket(CurrencyBucket(t, r.currency), r, active);
    if b.None? {
      CurrencyOverflows(t, r);
      return None;
    }
    var count := AddAnalytics(SizeOf(t, r.status), r.orders);
    if count.None? {
      assert !InRange(Tallied(t, StatusOrders(r.status)) as int + Amount(r, StatusOrders(r.status)));
      return None;
    }
    var p := AddToBucket(ProviderBucket(t, r.provider, r.currency), r, false);
    if p.None? {
      ProviderOverflows(t, r);
      return None;
    }
    u := Some(Updated(t, r, b.value, count.value, p.value));
    UpdatedTallies(t, r, b.value, count.value, p.value);
  }

  function Updated(t: Tallies, r: Row, b: Bucket, count: int64, p: Bucket): Tallies {
    var byCurrency := if r.provider in t.providers then t.providers[r.provider] else map[];
    Tallies(t.currencies[r.currency := b], t.sizes[r.status := count],
      t.providers[r.provider := byCurrency[r.currency := p]])
  }

  /** The row changes every group as it should, and no other. */
  ghost predicate Added(t: Tallies, r: Row, u: Tallies) {
    && u.currencies.Keys == t.currencies.Keys + {r.currency} && u.sizes.Keys == t.sizes.Keys + {r.status}
    && forall p, c :: HasPair(u, p, c) <==> HasPair(t, p, c) || (p == r.provider && c == r.currency)
  }

  lemma UpdatedTallies(t: Tallies, r: Row, b: Bucket, count: int64, p: Bucket)
    requires r.currency != ""
    requires var was := CurrencyBucket(t, r.currency);
      && b.orders as int == was.orders as int + r.orders as int && b.value as int == was.value as int + r.value as int
      && b.activeOrders as int == was.activeOrders as int + (if r.status in ACTIVE_STATUSES then r.orders as int else 0)
      && b.activeValue as int == was.activeValue as int + (if r.status in ACTIVE_STATUSES then r.value as int else 0)
    requires count as int == SizeOf(t, r.status) as int + r.orders as int
    requires var was := ProviderBucket(t, r.provider, r.currency);
      p.orders as int == was.orders as int + r.orders as int && p.value as int == was.value as int + r.value as int
    ensures var u := Updated(t, r, b, count, p);
      Added(t, r, u) && forall k :: Tallied(u, k) as int == Tallied(t, k) as int + Amount(r, k)
  {
    var u := Updated(t, r, b, count, p);
    UpdatedBuckets(t, r, b, count, p);
    hide Updated, CurrencyBucket, SizeOf, ProviderBucket, Added;
    forall k ensures Tallied(u, k) as int == Tallied(t, k) as int + Amount(r, k) {
      match k
      case StatusOrders(s) => assert SizeOf(u, s) == if s == r.status then count else SizeOf(t, s);
      case ProviderOrders(q, c) =>
        assert ProviderBucket(u, q, c) == if q == r.provider && c == r.currency then p else ProviderBucket(t, q, c);
      case ProviderValue(q, c) =>
        assert ProviderBucket(u, q, c) == if q == r.provider && c == r.currency then p else ProviderBucket(t, q, c);
      case _ => assert CurrencyBucket(u, k.currency) ==
        if k.currency == r.currency then b else CurrencyBucket(t, k.currency);
    }
  }

  lemma UpdatedBuckets(t: Tallies, r: Row, b: Bucket, count: int64, p: Bucket)
    ensures var u := Updated(t, r, b, count, p);
      && Added(t, r, u)
      && (forall c :: CurrencyBucket(u, c) == if c == r.currency then b else CurrencyBucket(t, c))
      && (forall s :: SizeOf(u, s) == if s == r.status then count else SizeOf(t, s))
      && forall q, c :: ProviderBucket(u, q, c) ==
            if q == r.provider && c == r.currency then p else ProviderBucket(t, q, c)
  {
  }

  lemma CurrencyOverflows(t: Tallies, r: Row)
    requires r.currency != ""
    requires var b, active := CurrencyBucket(t, r.currency), r.status in ACTIVE_STATUSES;
      || !InRange(b.orders as int + r.orders as int) || !InRange(b.value as int + r.value as int)
      || (active && (!InRange(b.activeOrders as int + r.orders as int)
            || !InRange(b.activeValue as int + r.value as int)))
    ensures exists k :: !InRange(Tallied(t, k) as int + Amount(r, k))
  {
    var c := r.currency;
    assert Tallied(t, CurrencyOrders(c)) == CurrencyBucket(t, c).orders
      && Tallied(t, CurrencyValue(c)) == CurrencyBucket(t, c).value;
    assert Tallied(t, ActiveOrders(c)) == CurrencyBucket(t, c).activeOrders
      && Tallied(t, ActiveValue(c)) == CurrencyBucket(t, c).activeValue;
  }

  lemma ProviderOverflows(t: Tallies, r: Row)
    requires r.currency != ""
    requires var b := ProviderBucket(t, r.provider, r.currency);
      !InRange(b.orders as int + r.orders as int) || !InRange(b.value as int + r.value as int)
    ensures exists k :: !InRange(Tallied(t, k) as int + Amount(r, k))
  {
    assert Tallied(t, ProviderOrders(r.provider, r.currency)) == ProviderBucket(t, r.provider, r.currency).orders;
    assert Tallied(t, ProviderValue(r.provider, r.currency)) == ProviderBucket(t, r.provider, r.currency).value;
  }

  /**
   * The pass over the rows: exact sums for exactly the groups there are, or failure
   * exactly when some running total overflows.
   */
  method Aggregate(rows: seq<Row>) returns (t: Option<Tallies>)
    ensures t.Some? <==> NeverOverflows(rows)
    ensures t.Some? ==> Exact(t.value, rows) && Covers(t.value, rows)
  {
    var tallies := Tallies(map[], map[], map[]);
    for i := 0 to |rows|
      invariant Exact(tallies, rows[..i]) && Covers(tallies, rows[..i]) && NeverOverflows(rows[..i])
    {
      assert rows[..i + 1][..i] == rows[..i];
      if rows[i].currency == "" {
        SkipsRow(rows, i, tallies);
      } else {
        var next := AddRow(tallies, rows[i]);
        if next.None? {
          OverflowsAt(rows, i, tallies);
          return None;
        }
        AddsRow(rows, i, tallies, next.value);
        tallies := next.value;
      }
    }
    assert rows[..|rows|] == rows;
    return Some(tallies);
  }

  lemma TotalOfPrefix(rows: seq<Row>, i: nat, k: Key)
    requires i < |rows|
    ensures Total(rows[..i + 1], k) == Total(rows[..i], k) + Amount(rows[i], k)
  {
    assert rows[..i + 1][..i] == rows[..i];
  }

  lemma NeverOverflowsMore(rows: seq<Row>, i: nat)
    requires i < |rows| && NeverOverflows(rows[..i]) && AllInRange(rows[..i + 1])
    ensures NeverOverflows(rows[..i + 1])
  {
    hide AllInRange;
    var more := rows[..i + 1];
    forall n | 0 <= n <= |more| ensures AllInRange(more[..n]) {
      if n <= i {
        assert more[..n] == rows[..i][..n];
      } else {
        assert more[..n] == more;
      }
    }
  }

  lemma SkipsRow(rows: seq<Row>, i: nat, t: Tallies)
    requires i < |rows| && rows[i].currency == ""
    requires Exact(t, rows[..i]) && Covers(t, rows[..i]) && NeverOverflows(rows[..i])
    ensures Exact(t, rows[..i + 1]) && Covers(t, rows[..i + 1]) && NeverOverflows(rows[..i + 1])
  {
    hide Tallied;
    forall k ensures Tallied(t, k) as int == Total(rows[..i + 1], k) {
      TotalOfPrefix(rows, i, k);
    }
    assert rows[..i + 1][..i] == rows[..i];
    ExactFits(t, rows[..i + 1]);
    NeverOverflowsMore(rows, i);
  }

  lemma ExactFits(t: Tallies, rows: seq<Row>)
    requires Exact(t, rows)
    ensures AllInRange(rows)
  {
    forall k ensures InRange(Total(rows, k)) {
      assert Tallied(t, k) as int == Total(rows, k);
    }
  }

  lemma AddsRow(rows: seq<Row>, i: nat, t: Tallies, u: Tallies)
    requires i < |rows| && rows[i].currency != ""
    requires Exact(t, rows[..i]) && Covers(t, rows[..i]) && NeverOverflows(rows[..i])
    requires (forall k :: Tallied(u, k) as int == Tallied(t, k) as int + Amount(rows[i], k)) && Added(t, rows[i], u)
    ensures Exact(u, rows[..i + 1]) && Covers(u, rows[..i + 1]) && NeverOverflows(rows[..i + 1])
  {
    hide Tallied;
    forall k ensures Tallied(u, k) as int == Total(rows[..i + 1], k) {
      TotalOfPrefix(rows, i, k);
    }
    assert rows[..i + 1][..i] == rows[..i];
    ExactFits(u, rows[..i + 1]);
    NeverOverflowsMore(rows, i);
  }

  lemma OverflowsAt(rows: seq<Row>, i: nat, t: Tallies)
    requires i < |rows| && Exact(t, rows[..i]) && exists k :: !InRange(Tallied(t, k) as int + Amount(rows[i], k))
    ensures !NeverOverflows(rows)
  {
    var k :| !InRange(Tallied(t, k) as int + Amount(rows[i], k));
    TotalOfPrefix(rows, i, k);
    assert !InRange(Total(rows[..i + 1], k));
  }

  // ---- What is published ----

  datatype Published = Published(
    currencyTotals: seq<(string, Bucket)>, statusCounts: seq<(string, int64)>,
      providerTotals: seq<(string, string, Bucket)>)

  function AllOrders(rows: seq<Row>): int {
    if rows == [] then 0
    else AllOrders(rows[..|rows| - 1]) + if rows[|rows| - 1].currency == "" then 0 else rows[|rows| - 1].orders as int
  }

  function SumOfKeys(rows: seq<Row>, keys: seq<Key>): int {
    if keys == [] then 0 else SumOfKeys(rows, keys[..|keys| - 1]) + Total(rows, keys[|keys| - 1])
  }

  function SumOfAmounts(r: Row, keys: seq<Key>): int {
    if keys == [] then 0 else SumOfAmounts(r, keys[..|keys| - 1]) + Amount(r, keys[|keys| - 1])
  }

  /** At most the key at j takes the row. */
  lemma {:induction false} OneKeyTakesAll(r: Row, keys: seq<Key>, j: nat)
    requires forall i | 0 <= i < |keys| && i != j :: Amount(r, keys[i]) == 0
    ensures SumOfAmounts(r, keys) == if j < |keys| then Amount(r, keys[j]) else 0
  {
    if keys != [] {
      OneKeyTakesAll(r, keys[..|keys| - 1], j);
    }
  }

  lemma {:induction false} SumsAdd(rows: seq<Row>, keys: seq<Key>)
    requires rows != []
    ensures SumOfKeys(rows, keys) == SumOfKeys(rows[..|rows| - 1], keys) + SumOfAmounts(rows[|rows| - 1], keys)
  {
    if keys != [] {
      SumsAdd(rows, keys[..|keys| - 1]);
    }
  }

  lemma {:induction false} NoRowsNoSum(keys: seq<Key>)
    ensures SumOfKeys([], keys) == 0
  {
    if keys != [] {
      NoRowsNoSum(keys[..|keys| - 1]);
    }
  }

  /** Every row with a currency gives its orders to exactly one of the keys. */
  ghost predicate SplitsOrders(rows: seq<Row>, keys: seq<Key>) {
    forall i | 0 <= i < |rows| && rows[i].currency != "" :: exists j | 0 <= j < |keys| :: TakenBy(rows[i], keys, j)
  }

  ghost predicate TakenBy(r: Row, keys: seq<Key>, j: nat)
    requires j < |keys|
  {
    Amount(r, keys[j]) == r.orders as int && forall i | 0 <= i < |keys| && i != j :: Amount(r, keys[i]) == 0
  }

  /** Any grouping that splits the rows adds up to all orders. */
  lemma {:induction false} SplitsAddUp(rows: seq<Row>, keys: seq<Key>)
    requires SplitsOrders(rows, keys)
    ensures SumOfKeys(rows, keys) == AllOrders(rows)
  {
    if rows == [] {
      NoRowsNoSum(keys);
    } else {
      var n := |rows| - 1;
      assert forall i | 0 <= i < n :: rows[..n][i] == rows[i];
      SplitsAddUp(rows[..n], keys);
      SumsAdd(rows, keys);
      if rows[n].currency == "" {
        OneKeyTakesAll(rows[n], keys, |keys|);
      } else {
        var j :| 0 <= j < |keys| && TakenBy(rows[n], keys, j);
        OneKeyTakesAll(rows[n], keys, j);
      }
    }
  }

  function CurrencyKeys(p: Published): (keys: seq<Key>)
    ensures |keys| == |p.currencyTotals| && forall i | 0 <= i < |keys| ::
      keys[i] == CurrencyOrders(p.currencyTotals[i].0)
  {
    seq(|p.currencyTotals|, i requires 0 <= i < |p.currencyTotals| => CurrencyOrders(p.currencyTotals[i].0))
  }

  function StatusKeys(p: Published): (keys: seq<Key>)
    ensures |keys| == |p.statusCounts| && forall i | 0 <= i < |keys| :: keys[i] == StatusOrders(p.statusCounts[i].0)
  {
    seq(|p.statusCounts|, i requires 0 <= i < |p.statusCounts| => StatusOrders(p.statusCounts[i].0))
  }

  function ProviderKeys(p: Published): (keys: seq<Key>)
    ensures |keys| == |p.providerTotals| && forall i | 0 <= i < |keys| ::
      keys[i] == ProviderOrders(p.providerTotals[i].0, p.providerTotals[i].1)
  {
    seq(|p.providerTotals|,
      i requires 0 <= i < |p.providerTotals| => ProviderOrders(p.providerTotals[i].0, p.providerTotals[i].1))
  }

  /** Every published number is the exact sum of its rows. */
  ghost predicate Truthful(p: Published, rows: seq<Row>) {
    && (forall i | 0 <= i < |p.currencyTotals| ::
          var (c, b) := p.currencyTotals[i];
          && b.orders as int == Total(rows, CurrencyOrders(c)) && b.value as int == Total(rows, CurrencyValue(c))
          && b.activeOrders as int == Total(rows, ActiveOrders(c))
          && b.activeValue as int == Total(rows, ActiveValue(c)))
    && (forall i | 0 <= i < |p.statusCounts| ::
          p.statusCounts[i].1 as int == Total(rows, StatusOrders(p.statusCounts[i].0)))
    && (forall i | 0 <= i < |p.providerTotals| ::
          var (q, c, b) := p.providerTotals[i];
          b.orders as int == Total(rows, ProviderOrders(q, c)) && b.value as int == Total(rows, ProviderValue(q, c)))
  }

  predicate Distinct(keys: seq<Key>) {
    forall i, j | 0 <= i < j < |keys| :: keys[i] != keys[j]
  }

  predicate CurrencyHasRow(rows: seq<Row>, c: string) {
    c != "" && exists i | 0 <= i < |rows| :: rows[i].currency == c
  }

  predicate StatusHasRow(rows: seq<Row>, s: string) {
    exists i | 0 <= i < |rows| :: rows[i].currency != "" && rows[i].status == s
  }

  predicate PairHasRow(rows: seq<Row>, p: string, c: string) {
    c != "" && exists i | 0 <= i < |rows| :: rows[i].provider == p && rows[i].currency == c
  }

  /** The groups listed are exactly those of the rows with a currency. */
  ghost predicate Complete(p: Published, rows: seq<Row>) {
    && (forall c :: CurrencyOrders(c) in CurrencyKeys(p) <==> CurrencyHasRow(rows, c))
    && (forall s :: StatusOrders(s) in StatusKeys(p) <==> StatusHasRow(rows, s))
    && (forall q, c :: ProviderOrders(q, c) in ProviderKeys(p) <==> PairHasRow(rows, q, c))
  }

  predicate PairLess(p: string, c: string, q: string, d: string) {
    if p == q then TextLess(c, d) else TextLess(p, q)
  }

  /** Every list is in order of its keys, each key once. */
  predicate InKeyOrder(p: Published) {
    && (forall i, j | 0 <= i < j < |p.currencyTotals| :: TextLess(p.currencyTotals[i].0, p.currencyTotals[j].0))
    && (forall i, j | 0 <= i < j < |p.statusCounts| :: TextLess(p.statusCounts[i].0, p.statusCounts[j].0))
    && (forall i, j | 0 <= i < j < |p.providerTotals| ::
          PairLess(p.providerTotals[i].0, p.providerTotals[i].1, p.providerTotals[j].0, p.providerTotals[j].1))
  }

  lemma OrderedIsDistinct(p: Published)
    requires InKeyOrder(p)
    ensures Distinct(CurrencyKeys(p)) && Distinct(StatusKeys(p)) && Distinct(ProviderKeys(p))
  {
    forall s ensures !TextLess(s, s) { TextLessIrreflexive(s); }
    hide TextLess;
  }

  function SumCurrencyOrders(list: seq<(string, Bucket)>): int {
    if list == [] then 0 else SumCurrencyOrders(list[..|list| - 1]) + list[|list| - 1].1.orders as int
  }

  function SumStatusOrders(list: seq<(string, int64)>): int {
    if list == [] then 0 else SumStatusOrders(list[..|list| - 1]) + list[|list| - 1].1 as int
  }

  function SumProviderOrders(list: seq<(string, string, Bucket)>): int {
    if list == [] then 0 else SumProviderOrders(list[..|list| - 1]) + list[|list| - 1].2.orders as int
  }

  lemma {:induction false} CurrencyListSums(p: Published, rows: seq<Row>)
    requires Truthful(p, rows)
    ensures SumCurrencyOrders(p.currencyTotals) == SumOfKeys(rows, CurrencyKeys(p))
    decreases |p.currencyTotals|
  {
    if p.currencyTotals != [] {
      var q := p.(currencyTotals := p.currencyTotals[..|p.currencyTotals| - 1]);
      CurrencyListSums(q, rows);
      assert CurrencyKeys(q) == CurrencyKeys(p)[..|p.currencyTotals| - 1];
    }
  }

  lemma {:induction false} StatusListSums(p: Published, rows: seq<Row>)
    requires Truthful(p, rows)
    ensures SumStatusOrders(p.statusCounts) == SumOfKeys(rows, StatusKeys(p))
    decreases |p.statusCounts|
  {
    if p.statusCounts != [] {
      var q := p.(statusCounts := p.statusCounts[..|p.statusCounts| - 1]);
      StatusListSums(q, rows);
      assert StatusKeys(q) == StatusKeys(p)[..|p.statusCounts| - 1];
    }
  }

  lemma {:induction false} ProviderListSums(p: Published, rows: seq<Row>)
    requires Truthful(p, rows)
    ensures SumProviderOrders(p.providerTotals) == SumOfKeys(rows, ProviderKeys(p))
    decreases |p.providerTotals|
  {
    if p.providerTotals != [] {
      var q := p.(providerTotals := p.providerTotals[..|p.providerTotals| - 1]);
      ProviderListSums(q, rows);
      assert ProviderKeys(q) == ProviderKeys(p)[..|p.providerTotals| - 1];
    }
  }

  lemma TakenByListed(r: Row, keys: seq<Key>, k: Key)
    requires Distinct(keys) && k in keys && Amount(r, k) == r.orders as int
    requires forall l | l in keys && l != k :: Amount(r, l) == 0
    ensures exists j | 0 <= j < |keys| :: TakenBy(r, keys, j)
  {
    hide Amount;
    var j :| 0 <= j < |keys| && keys[j] == k;
    forall i | 0 <= i < |keys| && i != j ensures Amount(r, keys[i]) == 0 {
      assert keys[i] in keys && keys[i] != k;
    }
    assert TakenBy(r, keys, j);
  }

  lemma ListsSplit(p: Published, rows: seq<Row>)
    requires Complete(p, rows) && InKeyOrder(p)
    ensures SplitsOrders(rows, CurrencyKeys(p)) && SplitsOrders(rows, StatusKeys(p))
      && SplitsOrders(rows, ProviderKeys(p))
  {
    OrderedIsDistinct(p);
    hide InKeyOrder, Distinct;
    forall i | 0 <= i < |rows| && rows[i].currency != ""
      ensures exists j | 0 <= j < |CurrencyKeys(p)| :: TakenBy(rows[i], CurrencyKeys(p), j)
      ensures exists j | 0 <= j < |StatusKeys(p)| :: TakenBy(rows[i], StatusKeys(p), j)
      ensures exists j | 0 <= j < |ProviderKeys(p)| :: TakenBy(rows[i], ProviderKeys(p), j)
    {
      TakenByListed(rows[i], CurrencyKeys(p), CurrencyOrders(rows[i].currency));
      TakenByListed(rows[i], StatusKeys(p), StatusOrders(rows[i].status));
      TakenByListed(rows[i], ProviderKeys(p), ProviderOrders(rows[i].provider, rows[i].currency));
    }
  }

  /** The three breakdowns add up to the same orders: all that have a currency. */
  lemma BreakdownsAgree(p: Published, rows: seq<Row>)
    requires Truthful(p, rows) && Complete(p, rows) && InKeyOrder(p)
    ensures SumCurrencyOrders(p.currencyTotals) == AllOrders(rows)
    ensures SumStatusOrders(p.statusCounts) == AllOrders(rows)
    ensures SumProviderOrders(p.providerTotals) == AllOrders(rows)
  {
    hide Truthful, Complete, InKeyOrder, SplitsOrders, SumOfKeys, AllOrders, SumCurrencyOrders, SumStatusOrders,
      SumProviderOrders;
    CurrencyListSums(p, rows);
    StatusListSums(p, rows);
    ProviderListSums(p, rows);
    ListsSplit(p, rows);
    SplitsAddUp(rows, CurrencyKeys(p));
    SplitsAddUp(rows, StatusKeys(p));
    SplitsAddUp(rows, ProviderKeys(p));
  }

  /**
   * OrderAnalytics: the published lists are exact, list exactly the groups there are
   * and in key order, or there are none because a running total would have overflowed.
   */
  method OrderAnalytics(rows: seq<Row>) returns (out: Option<Published>)
    ensures out.Some? <==> NeverOverflows(rows)
    ensures out.Some? ==> Truthful(out.value, rows) && Complete(out.value, rows) && InKeyOrder(out.value)
    ensures out.Some? ==> SumCurrencyOrders(out.value.currencyTotals) == AllOrders(rows)
    ensures out.Some? ==> SumStatusOrders(out.value.statusCounts) == AllOrders(rows)
    ensures out.Some? ==> SumProviderOrders(out.value.providerTotals) == AllOrders(rows)
  {
    var t := Aggregate(rows);
    if t.None? {
      return None;
    }
    var currencyTotals := ListCurrencies(t.value);
    var statusCounts := ListStatuses(t.value);
    var providerTotals := ListProviders(t.value);
    var published := Published(currencyTotals, statusCounts, providerTotals);
    ListsAreTruthful(t.value, published, rows);
    ListsAreComplete(t.value, published, rows);
    BreakdownsAgree(published, rows);
    return Some(published);
  }

  predicate Ascending(keys: seq<string>) {
    forall i, j | 0 <= i < j < |keys| :: TextLess(keys[i], keys[j])
  }

  method SortedKeys(keys: set<string>) returns (list: seq<string>)
    ensures Ascending(list) && forall k :: k in list <==> k in keys
  {
    hide TextLess;
    var remaining, found := keys, [];
    while remaining != {}
      invariant remaining <= keys && forall k :: k in found <==> k in keys && k !in remaining
      invariant forall i, j | 0 <= i < j < |found| :: found[i] != found[j]
      decreases |remaining|
    {
      var k :| k in remaining;
      remaining, found := remaining - {k}, found + [k];
    }
    list := Sort(TextLess, found);
    SortedDistinct(found);
    assert forall k :: k in list <==> k in multiset(list);
    assert forall k :: k in found <==> k in multiset(found);
  }

  lemma SortedDistinct(s: seq<string>)
    requires forall i, j | 0 <= i < j < |s| :: s[i] != s[j]
    ensures Ascending(Sort(TextLess, s))
  {
    hide TextLess, Sort;
    TextLessIsWeakOrder();
    SortSorts(TextLess, s);
    var r := Sort(TextLess, s);
    SameDistinct(s, r);
  }

  lemma {:induction false} SameDistinct<T(!new)>(s: seq<T>, t: seq<T>)
    requires multiset(s) == multiset(t) && forall i, j | 0 <= i < j < |s| :: s[i] != s[j]
    ensures forall i, j | 0 <= i < j < |t| :: t[i] != t[j]
    decreases |t|
  {
    assert |multiset(s)| == |s| && |multiset(t)| == |t|;
    if t != [] {
      var left, right := FindFirst(t, s);
      assert multiset(t[1..]) == multiset(left + right);
      forall i, j | 0 <= i < j < |left + right| ensures (left + right)[i] != (left + right)[j] {
        var k, l := if i < |left| then i else i + 1, if j < |left| then j else j + 1;
        assert s[k] == (left + right)[i] && s[l] == (left + right)[j];
      }
      SameDistinct(left + right, t[1..]);
      if t[0] in t[1..] {
        assert t[0] in multiset(left + right);
        var i :| 0 <= i < |left + right| && (left + right)[i] == t[0];
        assert s[|left|] == t[0] && s[if i < |left| then i else i + 1] == t[0];
      }
    }
  }

  /** Each group once, with its bucket, in order. */
  ghost predicate ListsCurrencies(t: Tallies, list: seq<(string, Bucket)>) {
    && (forall i | 0 <= i < |list| :: list[i].0 in t.currencies && list[i].1 == t.currencies[list[i].0])
    && (forall i, j | 0 <= i < j < |list| :: TextLess(list[i].0, list[j].0))
    && forall c | c in t.currencies :: exists i | 0 <= i < |list| :: list[i].0 == c
  }

  ghost predicate ListsStatuses(t: Tallies, list: seq<(string, int64)>) {
    && (forall i | 0 <= i < |list| :: list[i].0 in t.sizes && list[i].1 == t.sizes[list[i].0])
    && (forall i, j | 0 <= i < j < |list| :: TextLess(list[i].0, list[j].0))
    && forall s | s in t.sizes :: exists i | 0 <= i < |list| :: list[i].0 == s
  }

  ghost predicate ListsProviders(t: Tallies, list: seq<(string, string, Bucket)>) {
    && (forall i | 0 <= i < |list| ::
          HasPair(t, list[i].0, list[i].1) && list[i].2 == t.providers[list[i].0][list[i].1])
    && (forall i, j | 0 <= i < j < |list| :: PairLess(list[i].0, list[i].1, list[j].0, list[j].1))
    && forall p, c | HasPair(t, p, c) :: exists i | 0 <= i < |list| :: list[i].0 == p && list[i].1 == c
  }

  method ListCurrencies(t: Tallies) returns (list: seq<(string, Bucket)>)
    ensures ListsCurrencies(t, list)
  {
    hide TextLess;
    var keys := SortedKeys(t.currencies.Keys);
    list := [];
    for i := 0 to |keys|
      invariant |list| == i && forall j | 0 <= j < i ::
        keys[j] in t.currencies && list[j] == (keys[j], t.currencies[keys[j]])
    {
      assert keys[i] in keys;
      list := list + [(keys[i], t.currencies[keys[i]])];
    }
    forall c | c in t.currencies ensures exists i | 0 <= i < |list| :: list[i].0 == c {
      assert c in keys;
      var i :| 0 <= i < |keys| && keys[i] == c;
      assert list[i].0 == c;
    }
  }

  method ListStatuses(t: Tallies) returns (list: seq<(string, int64)>)
    ensures ListsStatuses(t, list)
  {
    hide TextLess;
    var keys := SortedKeys(t.sizes.Keys);
    list := [];
    for i := 0 to |keys|
      invariant |list| == i && forall j | 0 <= j < i :: keys[j] in t.sizes && list[j] == (keys[j], t.sizes[keys[j]])
    {
      assert keys[i] in keys;
      list := list + [(keys[i], t.sizes[keys[i]])];
    }
    forall s | s in t.sizes ensures exists i | 0 <= i < |list| :: list[i].0 == s {
      assert s in keys;
      var i :| 0 <= i < |keys| && keys[i] == s;
      assert list[i].0 == s;
    }
  }

  /** The providers among the first i keys are listed. */
  ghost predicate ListsFirst(t: Tallies, keys: seq<string>, i: nat, list: seq<(string, string, Bucket)>)
    requires i <= |keys|
  {
    && (forall j | 0 <= j < |list| ::
          HasPair(t, list[j].0, list[j].1) && list[j].2 == t.providers[list[j].0][list[j].1] && list[j].0 in keys[..i])
    && (forall j, k | 0 <= j < k < |list| :: PairLess(list[j].0, list[j].1, list[k].0, list[k].1))
    && forall p, c | HasPair(t, p, c) && p in keys[..i] :: exists j | 0 <= j < |list| ::
          list[j].0 == p && list[j].1 == c
  }

  ghost predicate ListsOne(t: Tallies, p: string, list: seq<(string, string, Bucket)>) {
    && p in t.providers
    && (forall i | 0 <= i < |list| ::
          list[i].0 == p && list[i].1 in t.providers[p] && list[i].2 == t.providers[p][list[i].1])
    && (forall i, j | 0 <= i < j < |list| :: TextLess(list[i].1, list[j].1))
    && forall c | c in t.providers[p] :: exists i | 0 <= i < |list| :: list[i].1 == c
  }

  lemma OneMoreAscends(
    t: Tallies, keys: seq<string>, i: nat, list: seq<(string, string, Bucket)>, part: seq<(string, string, Bucket)>)
    requires i < |keys| && Ascending(keys) && ListsFirst(t, keys, i, list) && ListsOne(t, keys[i], part)
    ensures var more := list + part;
      forall j, k | 0 <= j < k < |more| :: PairLess(more[j].0, more[j].1, more[k].0, more[k].1)
  {
    var more := list + part;
    TextLessIrreflexive(keys[i]);
    hide TextLess;
    forall j, k | 0 <= j < k < |more| ensures PairLess(more[j].0, more[j].1, more[k].0, more[k].1) {
      if j < |list| <= k {
        var l :| 0 <= l < i && keys[l] == list[j].0;
        assert TextLess(keys[l], keys[i]);
      }
    }
  }

  lemma ListsOneMore(
    t: Tallies, keys: seq<string>, i: nat, list: seq<(string, string, Bucket)>, part: seq<(string, string, Bucket)>)
    requires i < |keys| && Ascending(keys) && ListsFirst(t, keys, i, list) && ListsOne(t, keys[i], part)
    ensures ListsFirst(t, keys, i + 1, list + part)
  {
    var more := list + part;
    assert keys[..i + 1] == keys[..i] + [keys[i]];
    OneMoreAscends(t, keys, i, list, part);
    hide TextLess, PairLess, Ascending;
    forall p, c | HasPair(t, p, c) && p in keys[..i + 1]
      ensures exists j | 0 <= j < |more| :: more[j].0 == p && more[j].1 == c {
      if p == keys[i] {
        var j :| 0 <= j < |part| && part[j].1 == c;
        assert more[|list| + j] == part[j];
      } else {
        var j :| 0 <= j < |list| && list[j].0 == p && list[j].1 == c;
        assert more[j] == list[j];
      }
    }
  }

  method ListProviders(t: Tallies) returns (list: seq<(string, string, Bucket)>)
    ensures ListsProviders(t, list)
  {
    hide TextLess;
    var keys := SortedKeys(t.providers.Keys);
    list := [];
    for i := 0 to |keys|
      invariant ListsFirst(t, keys, i, list)
    {
      hide ListsFirst, Ascending;
      assert keys[i] in keys;
      var part := ListProvider(t, keys[i]);
      ListsOneMore(t, keys, i, list, part);
      list := list + part;
    }
    assert keys[..|keys|] == keys;
  }

  method ListProvider(t: Tallies, p: string) returns (list: seq<(string, string, Bucket)>)
    requires p in t.providers
    ensures ListsOne(t, p, list)
  {
    hide TextLess;
    var keys := SortedKeys(t.providers[p].Keys);
    list := [];
    for i := 0 to |keys|
      invariant |list| == i && forall j | 0 <= j < i ::
        keys[j] in t.providers[p] && list[j] == (p, keys[j], t.providers[p][keys[j]])
    {
      assert keys[i] in keys;
      list := list + [(p, keys[i], t.providers[p][keys[i]])];
    }
    forall c | c in t.providers[p] ensures exists i | 0 <= i < |list| :: list[i].1 == c {
      assert c in keys;
      var i :| 0 <= i < |keys| && keys[i] == c;
      assert list[i].1 == c;
    }
  }

  /** The groups are those of the rows that have a currency. */
  lemma {:induction false} GroupsAreOfRows(rows: seq<Row>, p: string, s: string, c: string)
    ensures c in Currencies(rows) <==> CurrencyHasRow(rows, c)
    ensures s in Statuses(rows) <==> StatusHasRow(rows, s)
    ensures (p, c) in Pairs(rows) <==> PairHasRow(rows, p, c)
  {
    if rows != [] {
      var before := rows[..|rows| - 1];
      GroupsAreOfRows(before, p, s, c);
      assert forall i | 0 <= i < |before| :: rows[i] == before[i];
    }
  }

  lemma ListsAreTruthful(t: Tallies, p: Published, rows: seq<Row>)
    requires Exact(t, rows)
    requires ListsCurrencies(t, p.currencyTotals) && ListsStatuses(t, p.statusCounts)
      && ListsProviders(t, p.providerTotals)
    ensures Truthful(p, rows) && InKeyOrder(p)
  {
    hide TextLess, Total;
    assert forall c ::
        CurrencyBucket(t, c).orders == Tallied(t, CurrencyOrders(c))
        && CurrencyBucket(t, c).value == Tallied(t, CurrencyValue(c));
    assert forall c ::
        CurrencyBucket(t, c).activeOrders == Tallied(t, ActiveOrders(c))
        && CurrencyBucket(t, c).activeValue == Tallied(t, ActiveValue(c));
  }

  lemma ListsAreComplete(t: Tallies, p: Published, rows: seq<Row>)
    requires Covers(t, rows)
    requires ListsCurrencies(t, p.currencyTotals) && ListsStatuses(t, p.statusCounts)
      && ListsProviders(t, p.providerTotals)
    ensures Complete(p, rows)
  {
    hide TextLess, Currencies, Statuses, Pairs, CurrencyHasRow, StatusHasRow, PairHasRow;
    forall c ensures CurrencyOrders(c) in CurrencyKeys(p) <==> CurrencyHasRow(rows, c) {
      GroupsAreOfRows(rows, "", "", c);
      if c in t.currencies {
        var i :| 0 <= i < |p.currencyTotals| && p.currencyTotals[i].0 == c;
        assert CurrencyKeys(p)[i] == CurrencyOrders(c);
      }
    }
    forall s ensures StatusOrders(s) in StatusKeys(p) <==> StatusHasRow(rows, s) {
      GroupsAreOfRows(rows, "", s, "");
      if s in t.sizes {
        var i :| 0 <= i < |p.statusCounts| && p.statusCounts[i].0 == s;
        assert StatusKeys(p)[i] == StatusOrders(s);
      }
    }
    forall q, c ensures ProviderOrders(q, c) in ProviderKeys(p) <==> PairHasRow(rows, q, c) {
      GroupsAreOfRows(rows, q, "", c);
      if HasPair(t, q, c) {
        var i :| 0 <= i < |p.providerTotals| && p.providerTotals[i].0 == q && p.providerTotals[i].1 == c;
        assert ProviderKeys(p)[i] == ProviderOrders(q, c);
      }
    }
  }
}
