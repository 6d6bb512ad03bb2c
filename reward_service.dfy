/** RewardService: reward summaries whose monthly breakdown is a list of {year, month name, points}
    records, over a store with Long (here `int`) customer ids. */
module RewardService {
  import opened Errors
  import opened Text
  import opened MonthKeys
  import opened Entities
  import opened Repositories
  import opened Aggregation
  import RewardPointsUtil

  /** MonthlyPointDTO. */
  datatype MonthlyPoint = MonthlyPoint(year: int, month: string, points: int)

  /** RewardSummary as RewardService builds it. */
  datatype RewardSummary = RewardSummary(
    customerId: Option<int>,
    customerName: string,
    transactions: seq<Transaction<int>>,
    monthlyPoints: seq<MonthlyPoint>,
    totalPoints: int)

  /** One map entry as a record: the key parsed back with `YearMonth.parse`, the month by name. */
  function ToMonthlyPoint(key: string, points: int): (e: MonthlyPoint)
    requires ParseMonthKey(key).Some?
  {
    var ym := ParseMonthKey(key).value;
    MonthlyPoint(ym.year, MonthName(ym.month), points)
  }

  /** The record of a month's key carries that month's year and full English name. */
  lemma ToMonthlyPointOfKey(ym: YearMonth, points: int)
    ensures ParseMonthKey(FormatMonthKey(ym)).Some?
    ensures ToMonthlyPoint(FormatMonthKey(ym), points) == MonthlyPoint(ym.year, MonthName(ym.month), points)
  {
    ParseFormat(ym);
  }

  /** Different entries give different records. */
  lemma ToMonthlyPointInjective(k1: string, p1: int, k2: string, p2: int)
    requires ParseMonthKey(k1).Some? && ParseMonthKey(k2).Some?
    ensures ToMonthlyPoint(k1, p1) == ToMonthlyPoint(k2, p2) <==> k1 == k2 && p1 == p2
  {
    var a, b := ParseMonthKey(k1).value, ParseMonthKey(k2).value;
    MonthNameInjective(a.month, b.month);
    FormatParse(k1);
    FormatParse(k2);
  }

  /** The points of a list of records, added up. */
  function SumOfPoints(entries: seq<MonthlyPoint>): int
    decreases |entries|
  {
    if entries == [] then 0 else SumOfPoints(entries[..|entries| - 1]) + entries[|entries| - 1].points
  }

  /** Records made, in order, from distinct keys of `m` are distinct and each comes from an entry. */
  lemma RecordsOfKeys(m: map<string, int>, keys: seq<string>, entries: seq<MonthlyPoint>)
    requires forall k :: k in m ==> ParseMonthKey(k).Some?
    requires |keys| == |entries| && Distinct(keys)
    requires forall i :: 0 <= i < |keys| ==> keys[i] in m && entries[i] == ToMonthlyPoint(keys[i], m[keys[i]])
    ensures forall e :: e in entries ==> exists k :: k in m && ParseMonthKey(k).Some? && e == ToMonthlyPoint(k, m[k])
    ensures Distinct(entries)
  {
    forall e | e in entries ensures exists k :: k in m && ParseMonthKey(k).Some? && e == ToMonthlyPoint(k, m[k]) {
      var i :| 0 <= i < |entries| && entries[i] == e;
      assert keys[i] in m && e == ToMonthlyPoint(keys[i], m[keys[i]]);
    }
    forall i, j | 0 <= i < j < |entries| ensures entries[i] != entries[j] {
      ToMonthlyPointInjective(keys[i], m[keys[i]], keys[j], m[keys[j]]);
    }
  }

  /** `entries` holds the record of every entry of `m` and nothing else, each once, in some
      order; their points add up to the sum of the map. */
  ghost predicate IsRecordListOf(entries: seq<MonthlyPoint>, m: map<string, int>) {
    && |entries| == |m|
    && Distinct(entries)
    && (forall k :: k in m ==> ParseMonthKey(k).Some?)
    && (forall k {:trigger ToMonthlyPoint(k, m[k])} :: k in m ==> ToMonthlyPoint(k, m[k]) in entries)
    && (forall e :: e in entries ==> exists k :: k in m && ParseMonthKey(k).Some? && e == ToMonthlyPoint(k, m[k]))
    && SumOfPoints(entries) == MapSum(m)
  }

  /** The state of the conversion loop: `keys` are the entries of `m` already turned into
      `entries`, in order, and `rest` holds the others. */
  ghost predicate Converting(m: map<string, int>, rest: map<string, int>, keys: seq<string>, entries: seq<MonthlyPoint>)
    requires forall k :: k in m ==> ParseMonthKey(k).Some?
  {
    && (forall k :: k in rest ==> k in m && rest[k] == m[k])
    && |keys| == |entries| && Distinct(keys)
    && (forall i :: 0 <= i < |keys| ==>
          keys[i] in m && keys[i] !in rest && entries[i] == ToMonthlyPoint(keys[i], m[keys[i]]))
    && (forall k :: k in m && k !in rest ==> k in keys)
    && |keys| + |rest| == |m|
    && SumOfPoints(entries) + MapSum(rest) == MapSum(m)
  }

  /** Moving one entry from `rest` to the records keeps the loop state. */
  lemma ConvertingStep(m: map<string, int>, rest: map<string, int>, keys: seq<string>, entries: seq<MonthlyPoint>, k: string)
    requires forall k :: k in m ==> ParseMonthKey(k).Some?
    requires Converting(m, rest, keys, entries) && k in rest
    ensures Converting(m, rest - {k}, keys + [k], entries + [ToMonthlyPoint(k, rest[k])])
  {
    var e := ToMonthlyPoint(k, rest[k]);
    var rest', keys', entries' := rest - {k}, keys + [k], entries + [e];
    MapSumRemove(rest, k);
    assert entries'[..|entries|] == entries;
    assert SumOfPoints(entries') == SumOfPoints(entries) + e.points;
    assert rest'.Keys == rest.Keys - {k};
    assert |rest'| == |rest| - 1;
    assert k !in keys;
    DistinctAppend(keys, k);
    forall i | 0 <= i < |keys'|
      ensures keys'[i] in m && keys'[i] !in rest' && entries'[i] == ToMonthlyPoint(keys'[i], m[keys'[i]])
    {
      if i < |keys| {
        assert keys'[i] == keys[i] && entries'[i] == entries[i];
      }
    }
    forall k2 | k2 in m && k2 !in rest' ensures k2 in keys' {
      if k2 != k {
        assert k2 !in rest && k2 in keys;
      }
    }
  }

  /** Once nothing is left, the records are exactly those of the entries of `m`. */
  lemma ConvertingDone(m: map<string, int>, keys: seq<string>, entries: seq<MonthlyPoint>)
    requires forall k :: k in m ==> ParseMonthKey(k).Some?
    requires Converting(m, map[], keys, entries)
    ensures IsRecordListOf(entries, m)
  {
    assert MapSum(map[]) == 0;
    RecordsOfKeys(m, keys, entries);
    forall k | k in m ensures ToMonthlyPoint(k, m[k]) in entries {
      var i :| 0 <= i < |keys| && keys[i] == k;
      assert entries[i] == ToMonthlyPoint(k, m[k]);
    }
  }

  /** `monthlyPoints.entrySet().stream().map(...).toList()`: one record per entry, in an
      unspecified order. */
  method ToMonthlyPoints(m: map<string, int>) returns (entries: seq<MonthlyPoint>)
    requires forall k :: k in m ==> ParseMonthKey(k).Some?
    ensures IsRecordListOf(entries, m)
  {
    entries := [];
    ghost var keys: seq<string> := [];
    var rest := m;
    while rest != map[]
      invariant Converting(m, rest, keys, entries)
      decreases |rest|
    {
      var k :| k in rest;
      ConvertingStep(m, rest, keys, entries, k);
      entries := entries + [ToMonthlyPoint(k, rest[k])];
      keys := keys + [k];
      rest := rest - {k};
    }
    ConvertingDone(m, keys, entries);
  }

  /** What `buildRewardSummary(customer, txs)` returns: the customer's id and name, the
      transactions as given, the records of the month buckets of `txs`, and the total of the
      transactions' points. `SummaryMeaning` spells out what the records then are. */
  ghost predicate IsSummaryOf(s: RewardSummary, customer: Customer<int>, txs: seq<Transaction<int>>) {
    && s.customerId == customer.id
    && s.customerName == customer.name
    && s.transactions == txs
    && s.totalPoints == TotalPoints(txs)
    && IsRecordListOf(s.monthlyPoints, MonthlyPoints(txs))
  }

  /** A summary holds one record per month that has transactions, and no other: the month's
      year, its English name and its points; and the records add up to the total. */
  lemma SummaryMeaning(s: RewardSummary, customer: Customer<int>, txs: seq<Transaction<int>>)
    requires IsSummaryOf(s, customer, txs)
    ensures SumOfPoints(s.monthlyPoints) == s.totalPoints
    ensures forall ym :: HasMonth(txs, ym) ==>
      MonthlyPoint(ym.year, MonthName(ym.month), PointsInMonth(txs, ym)) in s.monthlyPoints
    ensures forall e :: e in s.monthlyPoints ==>
      exists ym :: HasMonth(txs, ym) && e == MonthlyPoint(ym.year, MonthName(ym.month), PointsInMonth(txs, ym))
  {
    var m := MonthlyPoints(txs);
    MonthlySumIsTotal(txs);
    forall ym | HasMonth(txs, ym)
      ensures MonthlyPoint(ym.year, MonthName(ym.month), PointsInMonth(txs, ym)) in s.monthlyPoints
    {
      OneBucketPerMonth(txs, ym);
      MonthlyBuckets(txs, ym);
      ToMonthlyPointOfKey(ym, m[FormatMonthKey(ym)]);
    }
    forall e | e in s.monthlyPoints
      ensures exists ym :: HasMonth(txs, ym) && e == MonthlyPoint(ym.year, MonthName(ym.month), PointsInMonth(txs, ym))
    {
      var k :| k in m && ParseMonthKey(k).Some? && e == ToMonthlyPoint(k, m[k]);
      BucketKeysAreMonths(txs, k);
      var ym := ParseMonthKey(k).value;
      MonthlyBuckets(txs, ym);
      assert HasMonth(txs, ym) && e == MonthlyPoint(ym.year, MonthName(ym.month), PointsInMonth(txs, ym));
    }
  }

  /** `buildRewardSummary`. */
  method BuildRewardSummary(customer: Customer<int>, txs: seq<Transaction<int>>) returns (summary: RewardSummary)
    ensures IsSummaryOf(summary, customer, txs)
  {
    var monthlyPoints := BucketByMonth(txs);
    forall k | k in monthlyPoints ensures ParseMonthKey(k).Some? {
      BucketKeysAreMonths(txs, k);
    }
    var formatted := ToMonthlyPoints(monthlyPoints);
    var totalPoints := SumValues(monthlyPoints);
    MonthlySumIsTotal(txs);
    summary := RewardSummary(customer.id, customer.name, txs, formatted, totalPoints);
  }

  const StartAfterEnd := IllegalArgument("Start date cannot be after end date.")

  /** `getCustomerRewards`: a start after the end is rejected first, then an unknown customer;
      otherwise the summary of the customer's transactions dated in [start, end]. */
  method GetCustomerRewards(store: Store<int>, customerId: int, start: Date, end: Date) returns (r: Result<RewardSummary>)
    requires store.Valid()
    ensures IsAfter(start, end) ==> r == Err(StartAfterEnd)
    ensures !IsAfter(start, end) && customerId !in store.customers ==>
      r == Err(ResourceNotFound(CustomerNotFoundMessage(IntToDecimal(customerId))))
    ensures !IsAfter(start, end) && customerId in store.customers ==>
      r.Ok? && IsSummaryOf(r.value, store.customers[customerId],
                           store.FindByCustomerIdAndTransactionDateBetween(customerId, start, end))
  {
    if IsAfter(start, end) {
      return Err(StartAfterEnd);
    }
    if customerId !in store.customers {
      return Err(ResourceNotFound(CustomerNotFoundMessage(IntToDecimal(customerId))));
    }
    var customer := store.customers[customerId];
    var transactions := store.FindByCustomerIdAndTransactionDateBetween(customerId, start, end);
    var summary := BuildRewardSummary(customer, transactions);
    r := Ok(summary);
  }

  /** `getAllRewardSummaries`: one summary per customer, in repository order, each over all of
      that customer's transactions. */
  method GetAllRewardSummaries(store: Store<int>) returns (summaries: seq<RewardSummary>)
    requires store.Valid()
    ensures var customers := store.FindAllCustomers();
      && |summaries| == |customers|
      && forall i :: 0 <= i < |summaries| ==> IsSummaryOf(summaries[i], customers[i].customer, customers[i].transactions)
  {
    var customers := store.FindAllCustomers();
    summaries := [];
    for i := 0 to |customers|
      invariant |summaries| == i
      invariant forall j :: 0 <= j < i ==> IsSummaryOf(summaries[j], customers[j].customer, customers[j].transactions)
    {
      var summary := BuildRewardSummary(customers[i].customer, customers[i].transactions);
      AppendSummary(summaries, summary, customers);
      summaries := summaries + [summary];
    }
  }

  /** One step of the loop above: appending the next customer's summary keeps every earlier one. */
  lemma AppendSummary(prior: seq<RewardSummary>, s: RewardSummary, customers: seq<LoadedCustomer<int>>)
    requires |prior| < |customers|
    requires forall j :: 0 <= j < |prior| ==> IsSummaryOf(prior[j], customers[j].customer, customers[j].transactions)
    requires IsSummaryOf(s, customers[|prior|].customer, customers[|prior|].transactions)
    ensures forall j :: 0 <= j <= |prior| ==>
      IsSummaryOf((prior + [s])[j], customers[j].customer, customers[j].transactions)
  {
    forall j | 0 <= j <= |prior|
      ensures IsSummaryOf((prior + [s])[j], customers[j].customer, customers[j].transactions)
    {
      if j < |prior| {
        assert (prior + [s])[j] == prior[j];
      }
    }
  }

  /** The record list of a single-entry map is that entry's one record. */
  lemma SingleEntry(entries: seq<MonthlyPoint>, m: map<string, int>, k: string)
    requires |entries| == |m|
    requires forall k :: k in m ==> ParseMonthKey(k).Some?
    requires forall k {:trigger ToMonthlyPoint(k, m[k])} :: k in m ==> ToMonthlyPoint(k, m[k]) in entries
    requires k in m && |m| == 1
    ensures ParseMonthKey(k).Some?
    ensures |entries| == 1 && entries[0] == ToMonthlyPoint(k, m[k])
  {
    var e := ToMonthlyPoint(k, m[k]);
    assert e in entries;
  }

  /** A summary whose transactions fill a single bucket, for month `ym` and holding `points`,
      holds exactly that month's record. */
  lemma SingleMonth(s: RewardSummary, customer: Customer<int>, txs: seq<Transaction<int>>, ym: YearMonth, points: int)
    requires IsSummaryOf(s, customer, txs)
    requires FormatMonthKey(ym) in MonthlyPoints(txs) && |MonthlyPoints(txs)| == 1
    requires MonthlyPoints(txs)[FormatMonthKey(ym)] == points
    ensures |s.monthlyPoints| == 1 && s.monthlyPoints[0] == MonthlyPoint(ym.year, MonthName(ym.month), points)
  {
    SingleEntry(s.monthlyPoints, MonthlyPoints(txs), FormatMonthKey(ym));
    ToMonthlyPointOfKey(ym, points);
  }

  /** Two transactions of one month fill a single bucket, under that month's key. */
  lemma PairBucket(txs: seq<Transaction<int>>)
    requires |txs| == 2 && MonthOf(txs[0].date) == MonthOf(txs[1].date)
    ensures var k := FormatMonthKey(MonthOf(txs[0].date));
      && k in MonthlyPoints(txs) && |MonthlyPoints(txs)| == 1
      && MonthlyPoints(txs)[k] == Earned(txs[0]) + Earned(txs[1])
    ensures TotalPoints(txs) == Earned(txs[0]) + Earned(txs[1])
  {
    assert txs == [txs[0], txs[1]];
    SameMonthPair(txs[0], txs[1]);
  }

  /** Two transactions of one month give a summary with exactly one record, for that month,
      holding both their points. */
  lemma SameMonthPairSummary(s: RewardSummary, c: Customer<int>, txs: seq<Transaction<int>>)
    requires |txs| == 2 && MonthOf(txs[0].date) == MonthOf(txs[1].date)
    requires IsSummaryOf(s, c, txs)
    ensures |s.monthlyPoints| == 1
    ensures var ym := MonthOf(txs[0].date);
      s.monthlyPoints[0] == MonthlyPoint(ym.year, MonthName(ym.month), Earned(txs[0]) + Earned(txs[1]))
    ensures s.totalPoints == Earned(txs[0]) + Earned(txs[1])
  {
    PairBucket(txs);
    SingleMonth(s, c, txs, MonthOf(txs[0].date), Earned(txs[0]) + Earned(txs[1]));
  }

  /** Two June 2025 purchases of 120 and 80: 120 points, one record (2025, June, 120). */
  lemma JuneExample(s: RewardSummary)
    requires IsSummaryOf(s, Customer(Some(1), "Test User"),
                         [Transaction(None, 120.0, Date(2025, 6, 1), None), Transaction(None, 80.0, Date(2025, 6, 2), None)])
    ensures s.customerId == Some(1) && s.totalPoints == 120
    ensures s.monthlyPoints == [MonthlyPoint(2025, "June", 120)]
  {
    SameMonthPairSummary(s, Customer(Some(1), "Test User"),
                         [Transaction(None, 120.0, Date(2025, 6, 1), None), Transaction(None, 80.0, Date(2025, 6, 2), None)]);
    RewardPointsUtil.WorkedValues();
  }

  /** Two July 2025 purchases of 120 and 90: 130 points, with a record for July 2025. */
  lemma JulyExample(s: RewardSummary)
    requires IsSummaryOf(s, Customer(Some(1), "Kuber"),
                         [Transaction(None, 120.0, Date(2025, 7, 1), None), Transaction(None, 90.0, Date(2025, 7, 15), None)])
    ensures s.totalPoints == 130
    ensures exists e :: e in s.monthlyPoints && e.year == 2025 && e.month == "July"
  {
    SameMonthPairSummary(s, Customer(Some(1), "Kuber"),
                         [Transaction(None, 120.0, Date(2025, 7, 1), None), Transaction(None, 90.0, Date(2025, 7, 15), None)]);
    RewardPointsUtil.WorkedValues();
    RewardPointsUtil.MiddleTier(90.0);
    assert s.monthlyPoints[0].year == 2025 && s.monthlyPoints[0].month == "July";
  }

  /** No transactions: no records and no points. */
  lemma EmptyExample(s: RewardSummary, c: Customer<int>)
    requires IsSummaryOf(s, c, [])
    ensures s.totalPoints == 0 && s.monthlyPoints == []
  {
  }

  /** The message of the unit test for customer -1. */
  lemma NotFoundMessageExample()
    ensures CustomerNotFoundMessage(IntToDecimal(-1)) == "Customer not found with ID: -1"
  {
  }
}
