/** Bucketing a customer's transactions by month and totalling the buckets: the loop and the sum
    that RewardService.buildRewardSummary and both aggregations of RewardCalculationService run. */
module Aggregation {
  import opened MonthKeys
  import opened Entities
  import RewardPointsUtil

  /** The points one transaction earns. */
  function Earned<CId>(tx: Transaction<CId>): int {
    RewardPointsUtil.CalculateRewardPoints(tx.amount)
  }

  /** `map.getOrDefault(key, 0)`. */
  function Lookup(m: map<string, int>, key: string): int {
    if key in m then m[key] else 0
  }

  /** `monthlyPoints.merge(key, points, Integer::sum)`: adds `points` to the bucket of `key`,
      opening the bucket when it is absent. */
  function Merge(m: map<string, int>, key: string, points: int): (r: map<string, int>)
    ensures r.Keys == m.Keys + {key}
    ensures r[key] == Lookup(m, key) + points
    ensures forall k :: k in m && k != key ==> r[k] == m[k]
  {
    if key in m then m[key := m[key] + points] else m[key := points]
  }

  /** The buckets after merging every transaction, in list order. */
  function MonthlyPoints<CId>(txs: seq<Transaction<CId>>): map<string, int>
    decreases |txs|
  {
    if txs == [] then map[]
    else
      var last := txs[|txs| - 1];
      Merge(MonthlyPoints(txs[..|txs| - 1]), MonthKey(last.date), Earned(last))
  }

  /** Reference definition: the points of the transactions dated in month `ym`. */
  function PointsInMonth<CId>(txs: seq<Transaction<CId>>, ym: YearMonth): int
    decreases |txs|
  {
    if txs == [] then 0
    else
      var last := txs[|txs| - 1];
      PointsInMonth(txs[..|txs| - 1], ym) + if MonthOf(last.date) == ym then Earned(last) else 0
  }

  /** Reference definition: the points of all the transactions. */
  function TotalPoints<CId>(txs: seq<Transaction<CId>>): int
    decreases |txs|
  {
    if txs == [] then 0 else TotalPoints(txs[..|txs| - 1]) + Earned(txs[|txs| - 1])
  }

  /** Some transaction is dated in month `ym`. */
  ghost predicate HasMonth<CId>(txs: seq<Transaction<CId>>, ym: YearMonth) {
    exists i :: 0 <= i < |txs| && MonthOf(txs[i].date) == ym
  }

  /** The "yyyy-MM" keys of the transactions' dates. */
  ghost function KeysOf<CId>(txs: seq<Transaction<CId>>): set<string> {
    set i | 0 <= i < |txs| :: MonthKey(txs[i].date)
  }

  /** The keys of a non-empty list are those of all but its last transaction, plus the last
      one's. */
  lemma KeysOfLast<CId>(txs: seq<Transaction<CId>>)
    requires txs != []
    ensures KeysOf(txs) == KeysOf(txs[..|txs| - 1]) + {MonthKey(txs[|txs| - 1].date)}
  {
    var pre, last := txs[..|txs| - 1], txs[|txs| - 1];
    forall k | k in KeysOf(txs) ensures k in KeysOf(pre) + {MonthKey(last.date)} {
      var i :| 0 <= i < |txs| && MonthKey(txs[i].date) == k;
      if i < |pre| {
        assert pre[i] == txs[i];
      }
    }
    forall k | k in KeysOf(pre) ensures k in KeysOf(txs) {
      var i :| 0 <= i < |pre| && MonthKey(pre[i].date) == k;
      assert txs[i] == pre[i];
    }
    assert MonthKey(txs[|txs| - 1].date) in KeysOf(txs);
  }

  /** The buckets are exactly the "yyyy-MM" keys of the transactions' months. */
  lemma {:induction false} MonthlyKeys<CId>(txs: seq<Transaction<CId>>)
    ensures MonthlyPoints(txs).Keys == KeysOf(txs)
    decreases |txs|
  {
    if txs != [] {
      MonthlyKeys(txs[..|txs| - 1]);
      KeysOfLast(txs);
    }
  }

  /** Each month's bucket holds the points of that month's transactions (0 when it has none). */
  lemma {:induction false} MonthlyBuckets<CId>(txs: seq<Transaction<CId>>, ym: YearMonth)
    ensures Lookup(MonthlyPoints(txs), FormatMonthKey(ym)) == PointsInMonth(txs, ym)
    decreases |txs|
  {
    if txs != [] {
      var pre, last := txs[..|txs| - 1], txs[|txs| - 1];
      MonthlyBuckets(pre, ym);
      FormatInjective(MonthOf(last.date), ym);
    }
  }

  /** Both facts about the buckets. */
  lemma MonthlyPointsSpec<CId>(txs: seq<Transaction<CId>>)
    ensures MonthlyPoints(txs).Keys == KeysOf(txs)
    ensures forall ym :: Lookup(MonthlyPoints(txs), FormatMonthKey(ym)) == PointsInMonth(txs, ym)
  {
    MonthlyKeys(txs);
    forall ym ensures Lookup(MonthlyPoints(txs), FormatMonthKey(ym)) == PointsInMonth(txs, ym) {
      MonthlyBuckets(txs, ym);
    }
  }

  /** A month has a bucket exactly when some transaction is dated in it; months of different
      years have different buckets. */
  lemma OneBucketPerMonth<CId>(txs: seq<Transaction<CId>>, ym: YearMonth)
    ensures FormatMonthKey(ym) in MonthlyPoints(txs) <==> HasMonth(txs, ym)
  {
    MonthlyPointsSpec(txs);
    if FormatMonthKey(ym) in MonthlyPoints(txs) {
      var i :| 0 <= i < |txs| && MonthKey(txs[i].date) == FormatMonthKey(ym);
      FormatInjective(MonthOf(txs[i].date), ym);
    }
    if HasMonth(txs, ym) {
      var i :| 0 <= i < |txs| && MonthOf(txs[i].date) == ym;
      assert MonthKey(txs[i].date) == FormatMonthKey(ym);
    }
  }

  /** Every bucket key is the "yyyy-MM" key of a month some transaction falls in. */
  lemma BucketKeysAreMonths<CId>(txs: seq<Transaction<CId>>, k: string)
    requires k in MonthlyPoints(txs)
    ensures ParseMonthKey(k).Some? && FormatMonthKey(ParseMonthKey(k).value) == k
    ensures HasMonth(txs, ParseMonthKey(k).value)
  {
    MonthlyPointsSpec(txs);
    var i :| 0 <= i < |txs| && MonthKey(txs[i].date) == k;
    ParseFormat(MonthOf(txs[i].date));
  }

  /** The sum of a map's values (`values().stream().mapToInt(...).sum()`), in no particular order. */
  ghost function MapSum(m: map<string, int>): int
    decreases |m|
  {
    if m == map[] then 0
    else
      var k :| k in m;
      m[k] + MapSum(m - {k})
  }

  /** Taking any one entry out of the sum: the order of summation does not matter. */
  lemma {:induction false} MapSumRemove(m: map<string, int>, k: string)
    requires k in m
    ensures MapSum(m) == m[k] + MapSum(m - {k})
    decreases |m|
  {
    var j :| j in m && MapSum(m) == m[j] + MapSum(m - {j});
    if j != k {
      MapSumRemove(m - {j}, k);
      MapSumRemove(m - {k}, j);
      assert m - {j} - {k} == m - {k} - {j};
    }
  }

  /** Merging adds its points to the sum of the buckets. */
  lemma MapSumMerge(m: map<string, int>, key: string, points: int)
    ensures MapSum(Merge(m, key, points)) == MapSum(m) + points
  {
    var r := Merge(m, key, points);
    MapSumRemove(r, key);
    if key in m {
      MapSumRemove(m, key);
      assert r - {key} == m - {key};
    } else {
      assert r - {key} == m;
    }
  }

  /** The buckets add up to the points of all the transactions. */
  lemma {:induction false} MonthlySumIsTotal<CId>(txs: seq<Transaction<CId>>)
    ensures MapSum(MonthlyPoints(txs)) == TotalPoints(txs)
    decreases |txs|
  {
    if txs != [] {
      var pre, last := txs[..|txs| - 1], txs[|txs| - 1];
      MonthlySumIsTotal(pre);
      MapSumMerge(MonthlyPoints(pre), MonthKey(last.date), Earned(last));
    }
  }

  /** Two transactions of the same month share one bucket holding both their points. */
  lemma SameMonthPair<CId>(t1: Transaction<CId>, t2: Transaction<CId>)
    requires MonthOf(t1.date) == MonthOf(t2.date)
    ensures MonthlyPoints([t1, t2]) == map[MonthKey(t1.date) := Earned(t1) + Earned(t2)]
    ensures TotalPoints([t1, t2]) == Earned(t1) + Earned(t2)
  {
    var txs := [t1, t2];
    assert txs[..1] == [t1];
    assert [t1][..0] == [];
    var k := MonthKey(t1.date);
    assert MonthKey(t2.date) == k;
    assert MonthlyPoints(txs[..1]) == map[k := Earned(t1)];
    assert MonthlyPoints(txs) == Merge(map[k := Earned(t1)], k, Earned(t2));
    assert TotalPoints(txs[..1]) == Earned(t1);
  }

  /** The bucketing loop: for each transaction, its month key and points, merged into the map. */
  method BucketByMonth<CId>(txs: seq<Transaction<CId>>) returns (monthlyPoints: map<string, int>)
    ensures monthlyPoints == MonthlyPoints(txs)
    ensures forall ym :: Lookup(monthlyPoints, FormatMonthKey(ym)) == PointsInMonth(txs, ym)
    ensures monthlyPoints.Keys == KeysOf(txs)
  {
    monthlyPoints := map[];
    var i := 0;
    while i < |txs|
      invariant 0 <= i <= |txs|
      invariant monthlyPoints == MonthlyPoints(txs[..i])
    {
      var tx := txs[i];
      var monthKey := MonthKey(tx.date);
      var earnedPoints := RewardPointsUtil.CalculateRewardPoints(tx.amount);
      assert txs[..i + 1][..i] == txs[..i];
      monthlyPoints := Merge(monthlyPoints, monthKey, earnedPoints);
      i := i + 1;
    }
    assert txs[..i] == txs;
    MonthlyPointsSpec(txs);
  }

  /** `monthlyPoints.values().stream().mapToInt(Integer::intValue).sum()`: visits the buckets in
      an unspecified order. */
  method SumValues(m: map<string, int>) returns (total: int)
    ensures total == MapSum(m)
  {
    total := 0;
    var rest := m;
    while rest != map[]
      invariant total + MapSum(rest) == MapSum(m)
      decreases |rest|
    {
      var k :| k in rest;
      MapSumRemove(rest, k);
      total := total + rest[k];
      rest := rest - {k};
    }
  }
}
