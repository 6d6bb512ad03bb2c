/** RewardCalculationService: reward summaries whose monthly breakdown stays a map from "yyyy-MM"
    keys to points, over a store with String customer ids. Unlike RewardService it has no start
    date check on the range query. */
module RewardCalculationService {
  import opened Errors
  import opened MonthKeys
  import opened Entities
  import opened Repositories
  import opened Aggregation
  import RewardPointsUtil

  /** RewardSummary as this service fills it: the map itself, and the String id of the customer. */
  datatype RewardSummary = RewardSummary(
    customerId: Option<string>,
    customerName: string,
    transactions: seq<Transaction<string>>,
    monthlyPoints: map<string, int>,
    totalPoints: int)

  /** The service's own copy of the tiered rule: it is the utility's rule for every amount. */
  function CalculateRewardPoints(amount: real): (points: int)
    ensures points == RewardPointsUtil.CalculateRewardPoints(amount)
  {
    if amount <= 50.0 then 0
    else if amount <= 100.0 then RewardPointsUtil.TruncateToInt(amount - 50.0)
    else 50 + 2 * RewardPointsUtil.TruncateToInt(amount - 100.0)
  }

  /** The summary the aggregation loop builds for `customer` over `txs`: the customer's id and
      name, the transactions as given, one bucket per month that has transactions (keyed
      "yyyy-MM" and holding that month's points) and none for other months, and a total that is
      the sum of the buckets and the sum of the transactions' points. */
  function SummaryOf(customer: Customer<string>, txs: seq<Transaction<string>>): (s: RewardSummary)
    ensures s.customerId == customer.id && s.customerName == customer.name && s.transactions == txs
    ensures s.monthlyPoints.Keys == KeysOf(txs)
    ensures forall ym :: Lookup(s.monthlyPoints, FormatMonthKey(ym)) == PointsInMonth(txs, ym)
    ensures MapSum(s.monthlyPoints) == s.totalPoints == TotalPoints(txs)
  {
    MonthlyPointsSpec(txs);
    MonthlySumIsTotal(txs);
    RewardSummary(customer.id, customer.name, txs, MonthlyPoints(txs), TotalPoints(txs))
  }

  /** Every bucket key is the "yyyy-MM" key of a month that has transactions. */
  lemma SummaryKeysAreMonths(customer: Customer<string>, txs: seq<Transaction<string>>, k: string)
    requires k in SummaryOf(customer, txs).monthlyPoints
    ensures ParseMonthKey(k).Some? && FormatMonthKey(ParseMonthKey(k).value) == k
    ensures HasMonth(txs, ParseMonthKey(k).value)
  {
    BucketKeysAreMonths(txs, k);
  }

  /** The per-customer loop of both aggregations: merge each transaction's points into its
      month's bucket, then add up the buckets. */
  method Summarize(customer: Customer<string>, txs: seq<Transaction<string>>) returns (s: RewardSummary)
    ensures s == SummaryOf(customer, txs)
  {
    var monthlyPoints := BucketByMonth(txs);
    var totalPoints := SumValues(monthlyPoints);
    MonthlySumIsTotal(txs);
    s := RewardSummary(customer.id, customer.name, txs, monthlyPoints, totalPoints);
  }

  /** `getCustomerRewards`: an unknown customer is rejected; otherwise the summary of the
      customer's transactions dated in [start, end]. A start after the end is not rejected: the
      query then finds nothing and the summary is empty. */
  method GetCustomerRewards(store: Store<string>, customerId: string, start: Date, end: Date)
    returns (r: Result<RewardSummary>)
    requires store.Valid()
    ensures customerId !in store.customers ==>
      r == Err(ResourceNotFound(CustomerNotFoundMessage(customerId)))
    ensures customerId in store.customers ==>
      r == Ok(SummaryOf(store.customers[customerId],
                        store.FindByCustomerIdAndTransactionDateBetween(customerId, start, end)))
    ensures customerId in store.customers && IsAfter(start, end) ==>
      r.Ok? && r.value.transactions == [] && r.value.monthlyPoints == map[] && r.value.totalPoints == 0
  {
    if customerId !in store.customers {
      return Err(ResourceNotFound(CustomerNotFoundMessage(customerId)));
    }
    var customer := store.customers[customerId];
    var transactions := store.FindByCustomerIdAndTransactionDateBetween(customerId, start, end);
    var summary := Summarize(customer, transactions);
    r := Ok(summary);
    if IsAfter(start, end) {
      store.EmptyRangeQuery(customerId, start, end);
    }
  }

  /** `getAllRewardSummaries`: one summary per customer, in repository order, each over all of
      that customer's transactions. */
  method GetAllRewardSummaries(store: Store<string>) returns (summaries: seq<RewardSummary>)
    requires store.Valid()
    ensures var customers := store.FindAllCustomers();
      && |summaries| == |customers|
      && forall i :: 0 <= i < |summaries| ==> summaries[i] == SummaryOf(customers[i].customer, customers[i].transactions)
  {
    var customers := store.FindAllCustomers();
    summaries := [];
    for i := 0 to |customers|
      invariant |summaries| == i
      invariant forall j :: 0 <= j < i ==> summaries[j] == SummaryOf(customers[j].customer, customers[j].transactions)
    {
      var summary := Summarize(customers[i].customer, customers[i].transactions);
      AppendSummary(summaries, summary, customers);
      summaries := summaries + [summary];
    }
  }

  /** One step of the loop above: appending the next customer's summary keeps every earlier one. */
  lemma AppendSummary(prior: seq<RewardSummary>, s: RewardSummary, customers: seq<LoadedCustomer<string>>)
    requires |prior| < |customers|
    requires forall j :: 0 <= j < |prior| ==> prior[j] == SummaryOf(customers[j].customer, customers[j].transactions)
    requires s == SummaryOf(customers[|prior|].customer, customers[|prior|].transactions)
    ensures forall j :: 0 <= j <= |prior| ==>
      (prior + [s])[j] == SummaryOf(customers[j].customer, customers[j].transactions)
  {
    forall j | 0 <= j <= |prior|
      ensures (prior + [s])[j] == SummaryOf(customers[j].customer, customers[j].transactions)
    {
      if j < |prior| {
        assert (prior + [s])[j] == prior[j];
      }
    }
  }

  /** Two June 2025 purchases of 120 and 80 earn 90 + 30 = 120 points in a single bucket. */
  lemma JuneExample()
    ensures var c := Customer(Some("C001"), "Test User");
            var txs: seq<Transaction<string>> := [Transaction(None, 120.0, Date(2025, 6, 1), None), Transaction(None, 80.0, Date(2025, 6, 2), None)];
            var s := SummaryOf(c, txs);
            s.customerId == Some("C001") && s.totalPoints == 120 && s.monthlyPoints == map["2025-06" := 120]
  {
    var t1: Transaction<string> := Transaction(None, 120.0, Date(2025, 6, 1), None);
    var t2: Transaction<string> := Transaction(None, 80.0, Date(2025, 6, 2), None);
    SameMonthPair(t1, t2);
    assert MonthKey(t1.date) == "2025-06";
    RewardPointsUtil.WorkedValues();
  }

  /** Two July 2025 purchases of 120 and 90 earn 90 + 40 = 130 points under the key "2025-07". */
  lemma JulyExample()
    ensures var c := Customer(Some("1"), "Kuber");
            var txs: seq<Transaction<string>> := [Transaction(None, 120.0, Date(2025, 7, 1), None), Transaction(None, 90.0, Date(2025, 7, 15), None)];
            var s := SummaryOf(c, txs);
            "2025-07" in s.monthlyPoints && s.totalPoints == 130
  {
    var t1: Transaction<string> := Transaction(None, 120.0, Date(2025, 7, 1), None);
    var t2: Transaction<string> := Transaction(None, 90.0, Date(2025, 7, 15), None);
    SameMonthPair(t1, t2);
    assert MonthKey(t1.date) == "2025-07";
    RewardPointsUtil.WorkedValues();
    assert RewardPointsUtil.CalculateRewardPoints(90.0) == 40 by {
      RewardPointsUtil.MiddleTier(90.0);
    }
  }

  /** No transactions: no buckets and no points. */
  lemma EmptyExample(c: Customer<string>)
    ensures SummaryOf(c, []).monthlyPoints == map[] && SummaryOf(c, []).totalPoints == 0
  {
  }

  /** The message for the unit test's unknown id. */
  lemma NotFoundMessageExample()
    ensures CustomerNotFoundMessage("INVALID") == "Customer not found with ID: INVALID"
  {
  }
}
