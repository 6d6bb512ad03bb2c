# Reward aggregation engine of reward-service, in Dafny

reward-service is a Spring Boot service that gives retail customers reward points for their
purchases. This project models its core:

- **The tiered points rule** (`RewardPointsUtil.calculateRewardPoints` and the copy in
  `RewardCalculationService`):
  - an amount of 50 or less earns 0 points;
  - between 50 and 100, each whole unit above 50 earns 1 point;
  - above 100, the amount earns 50 points plus 2 per whole unit above 100.
- **Monthly aggregation**, in the service's two variants. Both bucket a customer's transactions
  by their `yyyy-MM` month key, add up the points per bucket, and total the buckets.
  - `RewardService` turns the buckets into `{year, month name, points}` records. It rejects a
    start date after the end date.
  - `RewardCalculationService` keeps the bucket map as it is. It has no range check.
- **The guarded store operations.** These are create, update and delete for customers and
  transactions. Each checks its input, then looks up the records it needs.

Modules, one per file:

- `Errors` (errors.dfy): `Option`, `Result`, and the two exception kinds, IllegalArgument and
  ResourceNotFound.
- `Text` (text.dfy): digits and decimal rendering of ids, as Java string concatenation writes
  them.
- `MonthKeys` (month_keys.dfy):
  - `LocalDate` as `Date`, with `isAfter`;
  - `YearMonth` and its `yyyy-MM` format and parse, proved to be inverses;
  - English month names.
- `Entities` (entities.dfy): `Customer`, `Transaction`, `CustomerBasicDTO`, and the bean
  validation constraints (`@NotBlank` name, `@DecimalMin("0.0")` amount).
- `RewardPointsUtil` (reward_points_util.dfy): the tiered rule, with Java's `(int)` cast written
  out as truncation toward zero.
- `Aggregation` (aggregation.dfy):
  - the bucket map as a function of the transaction list;
  - the merge loop and the value-sum loop as methods proved against that function;
  - `MapSum`, an order-free sum of a map's values.
- `Repositories` (repositories.dfy): the two JPA repositories as one class `Store`.
  - It holds a customer map and a transaction map.
  - It records the customer listing order and the next generated transaction id.
  - Its methods are the create, update and delete operations.
- `RewardService` (reward_service.dfy): the list-of-records variant, over `int` (Long) customer
  ids.
- `RewardCalculationService` (reward_calculation_service.dfy): the map variant, over `string`
  customer ids.

Modelling decisions:

- **Store records.**
  - Customers and transactions are values.
  - A stored transaction keeps only its customer's id. Every read joins the row with the
    current customer record, as a shared JPA entity would show it.
  - `customer.getTransactions()` is the query of all transactions that refer to the customer.
- **Ids.**
  - The identifier type is a parameter of `Store`, because the two services use different id
    types.
  - `Store.showId` renders an id into an error message.
- **Validation.** Bean validation (`@Valid` in the controller) runs before every service call
  that takes a request body. So a non-blank name and a non-negative amount are preconditions of
  the store methods.
- **Iteration order.** `HashMap` iteration order is unspecified. The loops over the bucket map
  therefore pick an arbitrary remaining key at each step (`:|`). Their contracts hold for
  every order.
- **The points copy.** `RewardCalculationService.calculateRewardPoints` is proved equal to the
  utility's rule. Both aggregations then share one bucketing loop, `Aggregation.BucketByMonth`.
- **`createTransaction`.** The two services hold identical code for it, and one method models
  both: `Repositories.Store.CreateTransaction`.
- **Where the code wins.** `RewardCalculationService` passes a `Map<String,Integer>` and String
  ids into a `RewardSummary` whose fields are a `List<MonthlyPointDTO>` and a `Long`. The model
  follows the service's code: its own `RewardSummary` holds a map and a `string` id.

## Model

| member | source | states |
|---|---|---|
| RewardPointsUtil.TruncateToInt | src/main/java/com/kubertech/rewardsystem/utility/RewardPointsUtil.java:36-38 | Java's `(int)` cast of a double: the largest integer not above a non-negative value, the smallest not below a negative one |
| RewardPointsUtil.CalculateRewardPoints | src/main/java/com/kubertech/rewardsystem/utility/RewardPointsUtil.java:31-39 | points are never negative; amounts up to 100 earn at most 50; amounts above 100 earn at least 50 |
| RewardPointsUtil.LowTier | src/main/java/com/kubertech/rewardsystem/utility/RewardPointsUtil.java:32-34 | an amount of 50 or less earns nothing |
| RewardPointsUtil.MiddleTier | src/main/java/com/kubertech/rewardsystem/utility/RewardPointsUtil.java:35-37 | an amount in (50, 100] earns one point per whole unit above 50 (floor(amount) − 50) |
| RewardPointsUtil.HighTier | src/main/java/com/kubertech/rewardsystem/utility/RewardPointsUtil.java:38 | an amount above 100 earns 50 + 2·(floor(amount) − 100) |
| RewardPointsUtil.TierBoundaries | src/main/java/com/kubertech/rewardsystem/utility/RewardPointsUtil.java:31-39 | 50 earns 0; 100 earns 50; anything strictly between 100 and 101 still earns 50 (no jump at the boundary) |
| RewardPointsUtil.WholeUnitsOnly | src/main/java/com/kubertech/rewardsystem/utility/RewardPointsUtil.java:36-38 | fractions of a unit never earn points: any amount earns what its whole part earns |
| RewardPointsUtil.Monotonic | src/main/java/com/kubertech/rewardsystem/utility/RewardPointsUtil.java:31-39 | a larger amount never earns fewer points |
| RewardPointsUtil.Rate | src/main/java/com/kubertech/rewardsystem/utility/RewardPointsUtil.java:31-39 | each whole unit earns at most 2 points |
| RewardPointsUtil.AccruedMatchesRule | src/main/java/com/kubertech/rewardsystem/utility/RewardPointsUtil.java:31-39 | for whole amounts the rule equals the unit-by-unit sum (0 per unit up to 50, 1 from 51 to 100, 2 beyond), an independent definition of the tiers |
| RewardPointsUtil.FitsInInt | src/main/java/com/kubertech/rewardsystem/utility/RewardPointsUtil.java:38 | below the stated bound the points fit a Java `int` |
| RewardPointsUtil.WorkedValues | src/test/java/com/kubertech/rewardsystem/service/RewardServiceTest.java:153-158 | 40 → 0, 80 → 30 and 120 → 90, as the utility test asserts; and 130 → 110, the total the single-transaction summary test asserts (RewardServiceTest.java:196) |
| Errors.CustomerNotFoundMessage | src/main/java/com/kubertech/rewardsystem/service/RewardService.java:96 | the not-found message is the fixed text "Customer not found with ID: " followed by the id exactly as rendered |
| Errors.CustomerNotFoundMessageInjective | src/main/java/com/kubertech/rewardsystem/service/RewardCalculationService.java:56 | different ids give different not-found messages |
| Text.Digit | src/main/java/com/kubertech/rewardsystem/service/RewardService.java:115 | the character of a decimal digit, and that character's value is the digit |
| Text.DigitValue | src/main/java/com/kubertech/rewardsystem/service/RewardService.java:122 | the value of a digit character, the inverse of `Digit` |
| Text.NatToDecimal | src/main/java/com/kubertech/rewardsystem/service/RewardCalculationService.java:133 | the decimal text of a transaction id: non-empty, digits only, no leading zero, and read back as a number it is the id |
| Text.IntToDecimal | src/main/java/com/kubertech/rewardsystem/service/RewardService.java:96 | the decimal text of a Long id: '-' followed by the numeral of its magnitude exactly when the id is negative, otherwise the numeral of the id |
| Text.IntToDecimalInjective | src/main/java/com/kubertech/rewardsystem/service/RewardService.java:96 | different ids are rendered differently, so the message names the one id it was made for |
| MonthKeys.IsAfterByIndex | src/main/java/com/kubertech/rewardsystem/service/RewardService.java:92 | `isAfter` compares dates by their day number, and equal day numbers mean equal dates |
| MonthKeys.IsAfterIsStrictTotalOrder | src/main/java/com/kubertech/rewardsystem/service/RewardService.java:92 | `isAfter` is irreflexive, transitive, total and asymmetric |
| MonthKeys.MonthOf | src/main/java/com/kubertech/rewardsystem/service/RewardService.java:115 | a date's month has the date's year and month, and its position on the month line is the date's day number divided by 31: the month is the block of `isAfter`'s time line that holds the date |
| MonthKeys.MonthOfIsMonotone | src/main/java/com/kubertech/rewardsystem/service/RewardService.java:92-115 | month bucketing agrees with `isAfter`: a later date never falls in an earlier month, and a date in an earlier month is before the other date |
| MonthKeys.PrecedesByIndex | src/main/java/com/kubertech/rewardsystem/service/RewardService.java:13 | the chronological order of the `YearMonth` key type: months are ordered by their month number, and equal numbers mean equal months |
| MonthKeys.PrecedesIsStrictTotalOrder | src/main/java/com/kubertech/rewardsystem/service/RewardService.java:13 | the `YearMonth` order is irreflexive, transitive, total and asymmetric |
| MonthKeys.FormatMonthKey | src/main/java/com/kubertech/rewardsystem/service/RewardService.java:115 | the `yyyy-MM` pattern: 7 characters, a '-' at position 4, and digits everywhere else |
| MonthKeys.MonthKeyNamesMonth | src/main/java/com/kubertech/rewardsystem/service/RewardService.java:115 | the `MonthKey` of a date parses back to the date's month, and two dates share a key exactly when they fall in the same month |
| MonthKeys.ParseMonthKey | src/main/java/com/kubertech/rewardsystem/service/RewardService.java:122 | `YearMonth.parse` succeeds only on text of the key's shape |
| MonthKeys.ParseFormat | src/main/java/com/kubertech/rewardsystem/service/RewardService.java:115-122 | parsing a formatted month gives that month back |
| MonthKeys.FormatParse | src/main/java/com/kubertech/rewardsystem/service/RewardService.java:115-122 | formatting a parsed key gives that key back |
| MonthKeys.FormatInjective | src/main/java/com/kubertech/rewardsystem/service/RewardService.java:115 | two months have the same key exactly when they are the same month |
| MonthKeys.MonthName | src/main/java/com/kubertech/rewardsystem/service/RewardService.java:123 | the full English name of a month (at least three letters) |
| MonthKeys.MonthNameInjective | src/main/java/com/kubertech/rewardsystem/service/RewardService.java:123 | different months have different names, both directions |
| MonthKeys.JulyExample | src/test/java/com/kubertech/rewardsystem/RewardPointsServiceApplicationTest.java:207 | July 2025 has the key "2025-07", the key parses back to it, and its name is "July" |
| Aggregation.Merge | src/main/java/com/kubertech/rewardsystem/service/RewardService.java:117 | `merge(key, points, Integer::sum)`: the key's bucket grows by the points or opens with them; every other bucket is unchanged |
| Aggregation.MonthlyKeys | src/main/java/com/kubertech/rewardsystem/service/RewardService.java:114-118 | the keys of `MonthlyPoints`, the map the merge loop builds, are exactly the month keys of the transactions |
| Aggregation.MonthlyBuckets | src/main/java/com/kubertech/rewardsystem/service/RewardService.java:114-118 | each bucket of `MonthlyPoints` holds the points of exactly the transactions dated in that month |
| Aggregation.MonthlyPointsSpec | src/main/java/com/kubertech/rewardsystem/service/RewardService.java:114-118 | both of the above together |
| Aggregation.OneBucketPerMonth | src/main/java/com/kubertech/rewardsystem/service/RewardService.java:114-118 | a month has a bucket exactly when some transaction is dated in it |
| Aggregation.BucketKeysAreMonths | src/main/java/com/kubertech/rewardsystem/service/RewardService.java:120-122 | every bucket key parses as a month that has transactions and formats back to itself, so the `YearMonth.parse` in the record conversion never fails |
| Aggregation.MapSumRemove | src/main/java/com/kubertech/rewardsystem/service/RewardService.java:128 | the sum of a map's values does not depend on the order of summation |
| Aggregation.MapSumMerge | src/main/java/com/kubertech/rewardsystem/service/RewardService.java:117 | a merge adds exactly its points to the sum of the buckets |
| Aggregation.MonthlySumIsTotal | src/main/java/com/kubertech/rewardsystem/service/RewardService.java:128 | the buckets add up to the sum of all the transactions' points |
| Aggregation.SameMonthPair | src/main/java/com/kubertech/rewardsystem/service/RewardService.java:114-118 | two transactions of one month give one bucket holding both their points |
| Aggregation.BucketByMonth | src/main/java/com/kubertech/rewardsystem/service/RewardService.java:112-118 | the merge loop yields the bucket map of the list: keys exactly the months present, each holding its month's points |
| Aggregation.SumValues | src/main/java/com/kubertech/rewardsystem/service/RewardService.java:128 | totalling the values in any order gives the map's sum |
| Repositories.EmptyWindow | src/main/java/com/kubertech/rewardsystem/repository/TransactionRepository.java:16-24 | an inclusive window whose start is after its end admits no date |
| Repositories.Without | src/main/java/com/kubertech/rewardsystem/service/RewardCalculationService.java:110 | removing a customer from the listing keeps all others and no other, each once; a customer not listed leaves the listing as it is |
| Repositories.WithoutKeepsOrder | src/main/java/com/kubertech/rewardsystem/service/RewardCalculationService.java:110 | removing a listed customer cuts out its one position and keeps the others in their order |
| Repositories.Store.constructor | src/main/java/com/kubertech/rewardsystem/repository/CustomerRepository.java:11 | empty repositories satisfy the store invariant |
| Repositories.Store.GetCustomerById | src/main/java/com/kubertech/rewardsystem/service/RewardCalculationService.java:97-100 | succeeds exactly when the id is stored, with the record under that id; otherwise "Customer not found with ID: " and the id |
| Repositories.Store.TransactionView | src/main/java/com/kubertech/rewardsystem/model/Transaction.java:57-60 | a stored transaction carries its id, amount and date, and the current record of its customer |
| Repositories.Store.GetTransactionById | src/main/java/com/kubertech/rewardsystem/service/RewardCalculationService.java:131-134 | succeeds exactly when the id is stored; otherwise "Transaction not found with ID: " and the id |
| Repositories.Store.SelectedIds | src/main/java/com/kubertech/rewardsystem/repository/TransactionRepository.java:16-24 | the selected ids below a bound: each selected, none missed, strictly increasing |
| Repositories.Store.Views | src/main/java/com/kubertech/rewardsystem/repository/TransactionRepository.java:24 | one loaded transaction per id, in order |
| Repositories.Store.QueryExact | src/main/java/com/kubertech/rewardsystem/repository/TransactionRepository.java:16-24 | a query returns exactly the stored transactions of that customer dated within [start, end] (both ends inclusive), each once |
| Repositories.Store.TransactionsOfExact | src/main/java/com/kubertech/rewardsystem/model/Customer.java:50-52 | `customer.getTransactions()` (`TransactionsOf`) is exactly the stored transactions that refer to the customer, each once |
| Repositories.Store.FindBetweenExact | src/main/java/com/kubertech/rewardsystem/repository/TransactionRepository.java:16-24 | `FindByCustomerIdAndTransactionDateBetween` returns exactly the customer's stored transactions dated from start to end, both ends included, each once |
| Repositories.Store.EmptyRangeQuery | src/main/java/com/kubertech/rewardsystem/repository/TransactionRepository.java:16-24 | a range whose start is after its end finds nothing |
| Repositories.Store.GetAllTransactions | src/main/java/com/kubertech/rewardsystem/service/RewardCalculationService.java:127-129 | `transactionRepository.findAll()`: every stored transaction, joined with its customer, each once, and nothing else |
| Repositories.Store.FindAllCustomers | src/main/java/com/kubertech/rewardsystem/service/RewardService.java:72-76 | `findAll` with `getTransactions()`: one entry per customer in listing order, holding its stored record and every stored transaction that refers to it; every stored customer appears and no other |
| Repositories.Store.GetAllCustomers | src/main/java/com/kubertech/rewardsystem/service/RewardCalculationService.java:88-94 | one id/name pair per customer in listing order; every stored customer appears and nothing else |
| Repositories.Store.CreateCustomer | src/main/java/com/kubertech/rewardsystem/service/RewardCalculationService.java:84-86 | saved under its own id, or under the generated one; a new id is appended to the listing; the transaction repository is untouched, since the request's nested transactions are not modelled |
| Repositories.Store.UpdateCustomer | src/main/java/com/kubertech/rewardsystem/service/RewardCalculationService.java:102-106 | an unknown id is not found and changes nothing; otherwise only the name changes |
| Repositories.Store.DeleteCustomer | src/main/java/com/kubertech/rewardsystem/service/RewardCalculationService.java:108-111 | an unknown id is not found and changes nothing; otherwise exactly that customer and, by the cascade, exactly its transactions are removed |
| Repositories.Store.SaveTarget | src/main/java/com/kubertech/rewardsystem/service/RewardCalculationService.java:123 | `save` writes under the request's id exactly when that id is stored, and otherwise under the next generated id |
| Repositories.Store.SaveTargetIsFresh | src/main/java/com/kubertech/rewardsystem/service/RewardCalculationService.java:123 | an insert never overwrites: the target is a stored row exactly when the request names one |
| Repositories.Store.Save | src/main/java/com/kubertech/rewardsystem/service/RewardCalculationService.java:123 | writes the row under that id and advances the generator on an insert only |
| Repositories.Store.CreateTransaction | src/main/java/com/kubertech/rewardsystem/service/RewardCalculationService.java:113-124 | a missing customer or id is an IllegalArgument and an unknown customer is not found, neither changing anything; otherwise the transaction is saved bound to the stored customer, under its own id when that is stored and otherwise under the next generated id, which then advances |
| Repositories.Store.UpdateTransaction | src/main/java/com/kubertech/rewardsystem/service/RewardCalculationService.java:136-153 | checks in order: transaction exists, customer id given, customer exists; each failure changes nothing; on success amount, date and customer are replaced under the same id |
| Repositories.Store.DeleteTransaction | src/main/java/com/kubertech/rewardsystem/service/RewardCalculationService.java:155-158 | an unknown id is not found and changes nothing; otherwise exactly that transaction is removed |
| RewardService.ToMonthlyPointOfKey | src/main/java/com/kubertech/rewardsystem/service/RewardService.java:121-125 | `ToMonthlyPoint` on a month's key: the key parses, and the record holds that month's year, its full English name and the bucket's points |
| RewardService.ToMonthlyPointInjective | src/main/java/com/kubertech/rewardsystem/service/RewardService.java:121-125 | two entries give equal records exactly when the entries are equal |
| RewardService.RecordsOfKeys | src/main/java/com/kubertech/rewardsystem/service/RewardService.java:120-126 | records made from distinct keys are distinct, and each comes from an entry |
| RewardService.ConvertingStep | src/main/java/com/kubertech/rewardsystem/service/RewardService.java:120-126 | converting one more entry keeps the records, the remaining entries and the running sum consistent |
| RewardService.ConvertingDone | src/main/java/com/kubertech/rewardsystem/service/RewardService.java:120-126 | once every entry is converted, the records are exactly those of the map's entries, and their points sum to the map's sum |
| RewardService.ToMonthlyPoints | src/main/java/com/kubertech/rewardsystem/service/RewardService.java:120-126 | one record per map entry in any order: every entry's record is present, each record comes from an entry, none repeats, and the points add up to the map's sum |
| RewardService.BuildRewardSummary | src/main/java/com/kubertech/rewardsystem/service/RewardService.java:111-137 | the customer's id and name and the given transactions; one record per bucket of the transactions' bucket map, each once, in some order; a total equal to the transactions' points |
| RewardService.SummaryMeaning | src/main/java/com/kubertech/rewardsystem/service/RewardService.java:111-137 | in such a summary the records add up to the total; every month with transactions has its record (year, English name, that month's points); every record is of such a month |
| RewardService.GetCustomerRewards | src/main/java/com/kubertech/rewardsystem/service/RewardService.java:90-102 | a start after the end is rejected first, then an unknown customer (message with the id); otherwise the summary of the customer's transactions in [start, end] |
| RewardService.GetAllRewardSummaries | src/main/java/com/kubertech/rewardsystem/service/RewardService.java:69-79 | one summary per customer `findAll` lists, in that order, each over that customer's transactions |
| RewardService.SameMonthPairSummary | src/main/java/com/kubertech/rewardsystem/service/RewardService.java:111-137 | two transactions of one month give exactly one record, for that month, holding both their points |
| RewardService.JuneExample | src/test/java/com/kubertech/rewardsystem/service/RewardServiceTest.java:66-79 | June 2025 purchases of 120 and 80 give 120 points and the single record (2025, June, 120) |
| RewardService.JulyExample | src/test/java/com/kubertech/rewardsystem/service/RewardServiceTest.java:163-179 | July 2025 purchases of 120 and 90 give 130 points and a record for July 2025 |
| RewardService.EmptyExample | src/test/java/com/kubertech/rewardsystem/service/RewardServiceTest.java:84-94 | no transactions give 0 points and no records |
| RewardService.NotFoundMessageExample | src/test/java/com/kubertech/rewardsystem/service/RewardServiceTest.java:99-107 | `CustomerNotFoundMessage`, the message `GetCustomerRewards` raises, for id -1 is "Customer not found with ID: -1" |
| RewardCalculationService.CalculateRewardPoints | src/main/java/com/kubertech/rewardsystem/service/RewardCalculationService.java:78-82 | the service's copy of the rule agrees with `RewardPointsUtil` for every amount |
| RewardCalculationService.SummaryOf | src/main/java/com/kubertech/rewardsystem/service/RewardCalculationService.java:60-75 | buckets keyed `yyyy-MM`, exactly the months with transactions, each holding its month's points; the total is the sum of the bucket values and of the transactions' points |
| RewardCalculationService.SummaryKeysAreMonths | src/main/java/com/kubertech/rewardsystem/service/RewardCalculationService.java:62 | every bucket key is the key of a month that has transactions |
| RewardCalculationService.Summarize | src/main/java/com/kubertech/rewardsystem/service/RewardCalculationService.java:31-48 | the per-customer merge loop and value sum build exactly that summary |
| RewardCalculationService.GetCustomerRewards | src/main/java/com/kubertech/rewardsystem/service/RewardCalculationService.java:53-76 | an unknown customer gives "Customer not found with ID: " and the id; otherwise the summary of exactly the range query's result; a start after the end is not rejected and gives an empty summary |
| RewardCalculationService.GetAllRewardSummaries | src/main/java/com/kubertech/rewardsystem/service/RewardCalculationService.java:26-51 | one summary per customer `findAll` lists, in that order, each over that customer's transactions |
| RewardCalculationService.JuneExample | src/test/java/com/kubertech/rewardsystem/RewardPointsServiceApplicationTest.java:51-64 | June 2025 purchases of 120 and 80 give 120 points in the single bucket "2025-06" |
| RewardCalculationService.JulyExample | src/test/java/com/kubertech/rewardsystem/RewardPointsServiceApplicationTest.java:195-208 | July 2025 purchases of 120 and 90 give the key "2025-07" and 130 points |
| RewardCalculationService.EmptyExample | src/test/java/com/kubertech/rewardsystem/RewardPointsServiceApplicationTest.java:66-75 | no transactions give an empty map and 0 points |
| RewardCalculationService.NotFoundMessageExample | src/test/java/com/kubertech/rewardsystem/RewardPointsServiceApplicationTest.java:77-85 | `CustomerNotFoundMessage`, the message `GetCustomerRewards` raises, for id "INVALID" is "Customer not found with ID: INVALID" |

## Left out

- Aggregation.MonthlyPoints: Java's 32-bit `int` overflow is not modelled. `Integer::sum` and the total are unbounded integers here. `RewardPointsUtil.FitsInInt` bounds only a single transaction.
- RewardPointsUtil.CalculateRewardPoints: amounts are exact reals, so double rounding of `amount - 50` and `amount - 100` is not modelled.
- MonthKeys: years are 1..9999, so the four-digit key has no sign and no fifth digit. Day numbers are 1..31 and calendar validity (for example 31 February) is not checked, because `LocalDate` enforces it before the service runs.
- MonthKeys.ParseMonthKey: it accepts exactly the 7-character shape `yyyy-MM` produces. Other spellings that `YearMonth.parse` accepts never reach it, since every key comes from the formatter.
- Repositories.Store.GetTransactionById: `Long.valueOf` parsing of the String id is not modelled, and the id is already a number. The message renders that number in decimal, which matches the caller's text when the text is canonical.
- Repositories.Store.CreateCustomer: a supplied id is treated as an upsert key. JPA `merge` of an unknown supplied id is not modelled the way Hibernate resolves it. Generated ids (`IDENTITY`) are a parameter that must be unused. The request's nested `transactions` list is dropped: `Customer` here has no such field, so the transactions that `save` would persist or merge into the transaction repository by the `CascadeType.ALL` cascade (Customer.java:50) are not modelled, and the method leaves the transaction repository as it was.
- Repositories.Store: customers and transactions are values, not shared mutable objects. Aliasing between a request object and the stored entity is not modelled; only what the repository stores is.
- Repositories.Store: `findAll` lists customers in insertion order and transactions in id order. The database may order them otherwise.
- Entities.IsWhitespace: `@NotBlank` is modelled with ASCII whitespace only. Unicode whitespace is not covered.
- RewardService.ToMonthlyPoints: the order of the records is left unspecified, as `HashMap` iteration is. The contract covers every order but does not say which one.
- Logging (`log.info`) is left out: it has no effect on results.
- The controller, the security configuration and the exception-to-HTTP mapping are not part of this model.
- The id type mismatch: `RewardCalculationService` uses String ids and a map where the entity and DTO declare `Long` and a list. This is modelled as a `Store` generic in its id type, with a separate `RewardSummary` datatype for that service.
