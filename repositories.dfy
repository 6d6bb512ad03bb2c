/** The customer and transaction repositories, held as maps, with the create, update and delete
    operations of RewardCalculationService (and the createTransaction both services share). */
module Repositories {
  import opened Errors
  import opened MonthKeys
  import opened Entities

  /** A transaction as stored: the customer is kept as a foreign key, so every read sees the
      customer's current record. */
  datatype TransactionRow<CId> = TransactionRow(amount: real, date: Date, customerId: CId)

  /** A customer as `findAll` loads it, with its transactions (`customer.getTransactions()`). */
  datatype LoadedCustomer<CId> = LoadedCustomer(customer: Customer<CId>, transactions: seq<Transaction<CId>>)

  /** Which transaction dates a query returns. */
  datatype DateFilter = AnyDate | Between(start: Date, end: Date)

  /** `Between` is inclusive at both ends. */
  predicate Admits(f: DateFilter, d: Date) {
    match f
    case AnyDate => true
    case Between(start, end) => !IsAfter(start, d) && !IsAfter(d, end)
  }

  /** An empty window (start after end) admits no date. */
  lemma EmptyWindow(start: Date, end: Date, d: Date)
    requires IsAfter(start, end)
    ensures !Admits(Between(start, end), d)
  {
    IsAfterIsStrictTotalOrder(start, d, end);
    IsAfterIsStrictTotalOrder(start, end, d);
    IsAfterIsStrictTotalOrder(d, start, end);
  }

  predicate Distinct<T(==)>(s: seq<T>) {
    forall i, j :: 0 <= i < j < |s| ==> s[i] != s[j]
  }

  /** Appending a new element keeps a list free of repeats. */
  lemma DistinctAppend<T>(s: seq<T>, x: T)
    requires Distinct(s) && x !in s
    ensures Distinct(s + [x])
  {
    var s' := s + [x];
    forall i, j | 0 <= i < j < |s'| ensures s'[i] != s'[j] {
      assert s'[i] == s[i];
    }
  }

  /** `s` without the occurrences of `x`, the rest in order. */
  function Without<T(==,!new)>(s: seq<T>, x: T): (r: seq<T>)
    ensures forall y :: y in r <==> y in s && y != x
    ensures Distinct(s) ==> Distinct(r)
    ensures x !in s ==> r == s
  {
    if s == [] then []
    else if s[0] == x then Without(s[1..], x)
    else
      var rest := Without(s[1..], x);
      assert Distinct(s) ==> s[0] !in s[1..] && Distinct(s[1..]);
      [s[0]] + rest
  }

  /** Removing a listed id from a list without repeats cuts out its one position and keeps the
      others in their order. */
  lemma {:induction false} WithoutKeepsOrder<T(!new)>(s: seq<T>, x: T)
    requires Distinct(s) && x in s
    ensures exists k :: 0 <= k < |s| && s[k] == x && Without(s, x) == s[..k] + s[k + 1..]
  {
    if s[0] == x {
      assert x !in s[1..];
      assert Without(s, x) == s[..0] + s[1..];
    } else {
      assert Distinct(s[1..]);
      WithoutKeepsOrder(s[1..], x);
      var k :| 0 <= k < |s[1..]| && s[1..][k] == x && Without(s[1..], x) == s[1..][..k] + s[1..][k + 1..];
      CutPastHead(s[0], s[1..], k);
      assert [s[0]] + s[1..] == s;
    }
  }

  /** Cutting position `k + 1` out of `[a] + t` keeps `a` in front of `t` with position `k` cut. */
  lemma CutPastHead<T>(a: T, t: seq<T>, k: nat)
    requires k < |t|
    ensures [a] + (t[..k] + t[k + 1..]) == ([a] + t)[..k + 1] + ([a] + t)[k + 2..]
  {
    var s := [a] + t;
    assert s[..k + 1] == [a] + t[..k];
    assert s[k + 2..] == t[k + 1..];
  }

  const MissingCustomerId := IllegalArgument("Customer ID must be provided")

  class Store<CId(==,!new)> {
    /** How an id is written into a message (Java string concatenation). */
    const showId: CId -> string
    /** The customer repository. */
    var customers: map<CId, Customer<CId>>
    /** The order in which the customer repository lists its customers (`findAll`). */
    var customerOrder: seq<CId>
    /** The transaction repository. */
    var transactions: map<TxId, TransactionRow<CId>>
    /** The id the next inserted transaction receives (identity generation). */
    var nextTxId: TxId

    /** Every stored record is under its own id, every row refers to a stored customer, the
        listing order holds each customer once, and ids below `nextTxId` are the used ones. */
    ghost predicate Valid()
      reads this
    {
      && (forall k :: k in customers ==> customers[k].id == Some(k) && NotBlank(customers[k].name))
      && Distinct(customerOrder)
      && (forall k :: k in customers <==> k in customerOrder)
      && (forall t :: t in transactions ==>
            t < nextTxId && transactions[t].customerId in customers && ValidAmount(transactions[t].amount))
    }

    constructor (showId: CId -> string)
      ensures Valid()
      ensures this.showId == showId
      ensures customers == map[] && customerOrder == [] && transactions == map[] && nextTxId == 0
    {
      this.showId := showId;
      customers := map[];
      customerOrder := [];
      transactions := map[];
      nextTxId := 0;
    }

    /** `Customer not found with ID: <id>`. */
    function CustomerNotFound(id: CId): Error {
      ResourceNotFound(CustomerNotFoundMessage(showId(id)))
    }

    /** `getCustomerById`: the stored customer, or ResourceNotFound. */
    function GetCustomerById(id: CId): (r: Result<Customer<CId>>)
      reads this
      requires Valid()
      ensures r.Ok? <==> id in customers
      ensures r.Ok? ==> r.value.id == Some(id) && r.value == customers[id]
      ensures r.Err? ==> r.error == CustomerNotFound(id)
    {
      if id in customers then Ok(customers[id]) else Err(CustomerNotFound(id))
    }

    /** A stored transaction joined with its customer, as JPA loads it. */
    function TransactionView(t: TxId): (tx: Transaction<CId>)
      reads this
      requires Valid() && t in transactions
      ensures tx.id == Some(t) && tx.amount == transactions[t].amount && tx.date == transactions[t].date
      ensures tx.customer == Some(customers[transactions[t].customerId])
      ensures tx.customer.value.id == Some(transactions[t].customerId)
    {
      var row := transactions[t];
      Transaction(Some(t), row.amount, row.date, Some(customers[row.customerId]))
    }

    /** `getTransactionById`: the stored transaction, or ResourceNotFound. */
    function GetTransactionById(t: TxId): (r: Result<Transaction<CId>>)
      reads this
      requires Valid()
      ensures r.Ok? <==> t in transactions
      ensures r.Ok? ==> r.value.id == Some(t) && r.value == TransactionView(t)
      ensures r.Err? ==> r.error == ResourceNotFound("Transaction not found with ID: " + Text.NatToDecimal(t))
    {
      if t in transactions then Ok(TransactionView(t))
      else Err(ResourceNotFound("Transaction not found with ID: " + Text.NatToDecimal(t)))
    }

    /** Selects a stored row: of the given customer (any customer when absent) and in the window. */
    predicate Selects(t: TxId, customer: Option<CId>, dates: DateFilter)
      reads this
      requires t in transactions
    {
      (customer.None? || transactions[t].customerId == customer.value) && Admits(dates, transactions[t].date)
    }

    /** The ids below `n` of the selected rows, in increasing order. */
    function SelectedIds(customer: Option<CId>, dates: DateFilter, n: nat): (ids: seq<TxId>)
      reads this
      ensures forall i :: 0 <= i < |ids| ==> ids[i] < n && ids[i] in transactions && Selects(ids[i], customer, dates)
      ensures forall t :: t < n && t in transactions && Selects(t, customer, dates) ==> t in ids
      ensures forall i, j :: 0 <= i < j < |ids| ==> ids[i] < ids[j]
      decreases n
    {
      if n == 0 then []
      else
        var below := SelectedIds(customer, dates, n - 1);
        if n - 1 in transactions && Selects(n - 1, customer, dates) then below + [n - 1] else below
    }

    /** The stored transactions with the given ids. */
    function Views(ids: seq<TxId>): (txs: seq<Transaction<CId>>)
      reads this
      requires Valid() && forall i :: 0 <= i < |ids| ==> ids[i] in transactions
      ensures |txs| == |ids| && forall i :: 0 <= i < |ids| ==> txs[i] == TransactionView(ids[i])
    {
      if ids == [] then [] else [TransactionView(ids[0])] + Views(ids[1..])
    }

    /** The selected transactions, in increasing id order. */
    function Query(customer: Option<CId>, dates: DateFilter): (txs: seq<Transaction<CId>>)
      reads this
      requires Valid()
    {
      Views(SelectedIds(customer, dates, nextTxId))
    }

    /** A query returns exactly the stored transactions it selects, each once. */
    lemma QueryExact(customer: Option<CId>, dates: DateFilter)
      requires Valid()
      ensures forall tx :: tx in Query(customer, dates) <==>
        exists t :: t in transactions && Selects(t, customer, dates) && tx == TransactionView(t)
      ensures Distinct(Query(customer, dates))
    {
      var ids := SelectedIds(customer, dates, nextTxId);
      var txs := Query(customer, dates);
      forall tx | tx in txs
        ensures exists t :: t in transactions && Selects(t, customer, dates) && tx == TransactionView(t)
      {
        var i :| 0 <= i < |txs| && txs[i] == tx;
        assert ids[i] in transactions && Selects(ids[i], customer, dates) && tx == TransactionView(ids[i]);
      }
      forall t | t in transactions && Selects(t, customer, dates)
        ensures TransactionView(t) in txs
      {
        var i :| 0 <= i < |ids| && ids[i] == t;
        assert txs[i] == TransactionView(t);
      }
      forall i, j | 0 <= i < j < |txs|
        ensures txs[i] != txs[j]
      {
        assert txs[i].id == Some(ids[i]) && txs[j].id == Some(ids[j]);
      }
    }

    /** `customer.getTransactions()`: the transactions that refer to the customer. */
    function TransactionsOf(id: CId): (txs: seq<Transaction<CId>>)
      reads this
      requires Valid()
    {
      Query(Some(id), AnyDate)
    }

    /** The customer's transactions are exactly the stored ones that refer to it, each once. */
    lemma TransactionsOfExact(id: CId)
      requires Valid()
      ensures forall tx :: tx in TransactionsOf(id) <==>
        exists t :: t in transactions && transactions[t].customerId == id && tx == TransactionView(t)
      ensures Distinct(TransactionsOf(id))
    {
      QueryExact(Some(id), AnyDate);
    }

    /** `findByCustomerIdAndTransactionDateBetween`: the customer's transactions dated in
        [start, end], both ends included. */
    function FindByCustomerIdAndTransactionDateBetween(id: CId, start: Date, end: Date): (txs: seq<Transaction<CId>>)
      reads this
      requires Valid()
    {
      Query(Some(id), Between(start, end))
    }

    /** The range query returns exactly the customer's stored transactions dated from `start` to
        `end`, both ends included, each once. */
    lemma FindBetweenExact(id: CId, start: Date, end: Date)
      requires Valid()
      ensures forall tx :: tx in FindByCustomerIdAndTransactionDateBetween(id, start, end) <==>
        exists t :: t in transactions && transactions[t].customerId == id &&
          !IsAfter(start, transactions[t].date) && !IsAfter(transactions[t].date, end) && tx == TransactionView(t)
      ensures Distinct(FindByCustomerIdAndTransactionDateBetween(id, start, end))
    {
      QueryExact(Some(id), Between(start, end));
    }

    /** A window whose start is after its end selects nothing. */
    lemma EmptyRangeQuery(id: CId, start: Date, end: Date)
      requires Valid() && IsAfter(start, end)
      ensures FindByCustomerIdAndTransactionDateBetween(id, start, end) == []
    {
      var ids := SelectedIds(Some(id), Between(start, end), nextTxId);
      if ids != [] {
        EmptyWindow(start, end, transactions[ids[0]].date);
        assert false;
      }
    }

    /** `transactionRepository.findAll()`. */
    function GetAllTransactions(): (txs: seq<Transaction<CId>>)
      reads this
      requires Valid()
      ensures forall tx :: tx in txs <==> exists t :: t in transactions && tx == TransactionView(t)
      ensures Distinct(txs)
    {
      QueryExact(None, AnyDate);
      Query(None, AnyDate)
    }

    /** `customerRepository.findAll()`: every customer in listing order, each with all the
        transactions that refer to it. */
    function FindAllCustomers(): (r: seq<LoadedCustomer<CId>>)
      reads this
      requires Valid()
      ensures |r| == |customerOrder|
      ensures forall i :: 0 <= i < |r| ==>
        r[i].customer == customers[customerOrder[i]] && r[i].transactions == TransactionsOf(customerOrder[i])
    ensures forall id :: id in customers <==> exists i :: 0 <= i < |r| && r[i].customer.id == Some(id)
    {
      seq(|customerOrder|, i requires 0 <= i < |customerOrder| && Valid() reads this =>
        LoadedCustomer(customers[customerOrder[i]], TransactionsOf(customerOrder[i])))
    }

    /** `getAllCustomers`: each customer's id and name, in repository order. */
    function GetAllCustomers(): (r: seq<CustomerBasic<CId>>)
      reads this
      requires Valid()
      ensures |r| == |customerOrder|
      ensures forall i :: 0 <= i < |r| ==>
        r[i].id == Some(customerOrder[i]) && r[i].name == customers[customerOrder[i]].name
      ensures forall k :: k in customers ==> CustomerBasic(Some(k), customers[k].name) in r
      ensures forall c :: c in r ==> c.id.Some? && c.id.value in customers
    {
      seq(|customerOrder|, i requires 0 <= i < |customerOrder| && customerOrder[i] in customers reads this =>
        CustomerBasic(customers[customerOrder[i]].id, customers[customerOrder[i]].name))
    }

    /** `createCustomer`: `save` stores the customer under its id, or under the generated id
        `freshId` when it has none; a stored record with that id is replaced, and a new id is
        appended to the listing order. */
    method CreateCustomer(customer: Customer<CId>, freshId: CId) returns (saved: Customer<CId>)
      requires Valid()
      requires NotBlank(customer.name)
      requires customer.id.None? ==> freshId !in customers
      modifies this
      ensures Valid()
      ensures var id := if customer.id.Some? then customer.id.value else freshId;
        && saved == Customer(Some(id), customer.name)
        && customers == old(customers)[id := saved]
        && customerOrder == if id in old(customers) then old(customerOrder) else old(customerOrder) + [id]
      ensures transactions == old(transactions) && nextTxId == old(nextTxId)
    {
      var id := if customer.id.Some? then customer.id.value else freshId;
      saved := Customer(Some(id), customer.name);
      if id !in customers {
        DistinctAppend(customerOrder, id);
        customerOrder := customerOrder + [id];
      }
      customers := customers[id := saved];
    }

    /** `updateCustomer`: only the stored name changes; id, transactions and everything else stay. */
    method UpdateCustomer(id: CId, updated: Customer<CId>) returns (r: Result<Customer<CId>>)
      requires Valid()
      requires NotBlank(updated.name)
      modifies this
      ensures Valid()
      ensures id !in old(customers) ==> r == Err(CustomerNotFound(id)) && unchanged(this)
      ensures id in old(customers) ==>
        && customers == old(customers)[id := Customer(Some(id), updated.name)]
        && r == Ok(customers[id])
        && customerOrder == old(customerOrder) && transactions == old(transactions) && nextTxId == old(nextTxId)
    {
      var existing := GetCustomerById(id);
      if existing.Err? {
        return Err(existing.error);
      }
      var renamed := existing.value.(name := updated.name);
      customers := customers[id := renamed];
      r := Ok(renamed);
    }

    /** `deleteCustomer`: removes the customer and, by the cascade, every transaction of it. */
    method DeleteCustomer(id: CId) returns (r: Result<()>)
      requires Valid()
      modifies this
      ensures Valid()
      ensures id !in old(customers) ==> r == Err(CustomerNotFound(id)) && unchanged(this)
      ensures id in old(customers) ==>
        && r == Ok(())
        && customers == old(customers) - {id}
        && customerOrder == Without(old(customerOrder), id)
        && transactions == (map t | t in old(transactions) && old(transactions)[t].customerId != id :: old(transactions)[t])
        && nextTxId == old(nextTxId)
    {
      var existing := GetCustomerById(id);
      if existing.Err? {
        return Err(existing.error);
      }
      transactions := map t | t in transactions && transactions[t].customerId != id :: transactions[t];
      customers := customers - {id};
      customerOrder := Without(customerOrder, id);
      r := Ok(());
    }

    /** The id `save` writes a transaction under: its own id when that names a stored row
        (an update), otherwise the next generated id (an insert). */
    function SaveTarget(id: Option<TxId>): (t: TxId)
      reads this
      ensures t in transactions || t == nextTxId
      ensures id.Some? && id.value in transactions ==> t == id.value
      ensures !(id.Some? && id.value in transactions) ==> t == nextTxId
    {
      if id.Some? && id.value in transactions then id.value else nextTxId
    }

    /** An insert never overwrites: a request without a stored id is saved under an unused id. */
    lemma SaveTargetIsFresh(id: Option<TxId>)
      requires Valid()
      ensures SaveTarget(id) in transactions <==> id.Some? && id.value in transactions
    {
    }

    /** Writes a row under `SaveTarget(id)`, advancing the id generator on an insert. */
    method Save(id: Option<TxId>, row: TransactionRow<CId>) returns (t: TxId)
      requires Valid() && row.customerId in customers && ValidAmount(row.amount)
      modifies this
      ensures Valid()
      ensures t == old(SaveTarget(id))
      ensures transactions == old(transactions)[t := row]
      ensures nextTxId == if t == old(nextTxId) then old(nextTxId) + 1 else old(nextTxId)
      ensures customers == old(customers) && customerOrder == old(customerOrder)
    {
      t := SaveTarget(id);
      transactions := transactions[t := row];
      if t == nextTxId {
        nextTxId := nextTxId + 1;
      }
    }

    /** `createTransaction`: a request without a customer or customer id is an
        IllegalArgumentException, an unknown customer a ResourceNotFoundException; otherwise the
        transaction is bound to the stored customer and saved. */
    method CreateTransaction(request: Transaction<CId>) returns (r: Result<Transaction<CId>>)
      requires Valid()
      requires ValidAmount(request.amount)
      modifies this
      ensures Valid()
      ensures (request.customer.None? || request.customer.value.id.None?) ==>
        r == Err(MissingCustomerId) && unchanged(this)
      ensures request.customer.Some? && request.customer.value.id.Some? && request.customer.value.id.value !in old(customers) ==>
        r == Err(CustomerNotFound(request.customer.value.id.value)) && unchanged(this)
      ensures request.customer.Some? && request.customer.value.id.Some? && request.customer.value.id.value in old(customers) ==>
        var cid := request.customer.value.id.value;
        var t := old(SaveTarget(request.id));
        && transactions == old(transactions)[t := TransactionRow(request.amount, request.date, cid)]
        && customers == old(customers) && customerOrder == old(customerOrder)
        && nextTxId == (if t == old(nextTxId) then old(nextTxId) + 1 else old(nextTxId))
        && r == Ok(Transaction(Some(t), request.amount, request.date, Some(old(customers)[cid])))
    {
      if request.customer.None? || request.customer.value.id.None? {
        return Err(MissingCustomerId);
      }
      var cid := request.customer.value.id.value;
      var stored := GetCustomerById(cid);
      if stored.Err? {
        return Err(stored.error);
      }
      var t := Save(request.id, TransactionRow(request.amount, request.date, cid));
      r := Ok(TransactionView(t));
    }

    /** `updateTransaction`: checks, in this order, that the transaction exists, that a customer id
        is given and that the customer exists; then copies amount, date and customer into the
        stored transaction under its own id. */
    method UpdateTransaction(t: TxId, updated: Transaction<CId>) returns (r: Result<Transaction<CId>>)
      requires Valid()
      requires ValidAmount(updated.amount)
      modifies this
      ensures Valid()
      ensures t !in old(transactions) ==>
        r == Err(ResourceNotFound("Transaction not found: " + Text.NatToDecimal(t))) && unchanged(this)
      ensures t in old(transactions) && (updated.customer.None? || updated.customer.value.id.None?) ==>
        r == Err(MissingCustomerId) && unchanged(this)
      ensures t in old(transactions) && updated.customer.Some? && updated.customer.value.id.Some? &&
              updated.customer.value.id.value !in old(customers) ==>
        r == Err(ResourceNotFound("Customer not found: " + showId(updated.customer.value.id.value))) && unchanged(this)
      ensures t in old(transactions) && updated.customer.Some? && updated.customer.value.id.Some? &&
              updated.customer.value.id.value in old(customers) ==>
        var cid := updated.customer.value.id.value;
        && transactions == old(transactions)[t := TransactionRow(updated.amount, updated.date, cid)]
        && customers == old(customers) && customerOrder == old(customerOrder) && nextTxId == old(nextTxId)
        && r == Ok(Transaction(Some(t), updated.amount, updated.date, Some(old(customers)[cid])))
    {
      if t !in transactions {
        return Err(ResourceNotFound("Transaction not found: " + Text.NatToDecimal(t)));
      }
      if updated.customer.None? || updated.customer.value.id.None? {
        return Err(MissingCustomerId);
      }
      var cid := updated.customer.value.id.value;
      if cid !in customers {
        return Err(ResourceNotFound("Customer not found: " + showId(cid)));
      }
      var saved := Save(Some(t), TransactionRow(updated.amount, updated.date, cid));
      r := Ok(TransactionView(saved));
    }

    /** `deleteTransaction`: removes exactly that transaction. */
    method DeleteTransaction(t: TxId) returns (r: Result<()>)
      requires Valid()
      modifies this
      ensures Valid()
      ensures t !in old(transactions) ==>
        r == Err(ResourceNotFound("Transaction not found with ID: " + Text.NatToDecimal(t))) && unchanged(this)
      ensures t in old(transactions) ==>
        && r == Ok(())
        && transactions == old(transactions) - {t}
        && customers == old(customers) && customerOrder == old(customerOrder) && nextTxId == old(nextTxId)
    {
      var existing := GetTransactionById(t);
      if existing.Err? {
        return Err(existing.error);
      }
      transactions := transactions - {t};
      r := Ok(());
    }
  }
}
