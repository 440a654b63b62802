/**
 * The application service: importing a batch file into the repository, and
 * the per-store balance report computed from everything stored.
 */
module Services {
  import opened Timestamps
  import opened Transactions
  import opened Notifications
  import opened Parsing

  // ---------------------------------------------------------------------
  // The balance report
  // ---------------------------------------------------------------------

  /** `OperationDto`: one transaction as the report shows it, with its
      signed value. Amounts are in cents. */
  datatype Operation = Operation(typeCode: int, date: DateTime, value: int,
                                 cpf: string, card: string, signedValue: int)

  /** `StoreBalanceDto`: a store, its operations and their signed total. */
  datatype StoreBalance = StoreBalance(storeName: string, totalBalance: int, operations: seq<Operation>)

  function ToOperation(t: Transaction): Operation {
    Operation(t.typeCode, t.date, t.value, t.cpf, t.card, SignedValue(t))
  }

  /** The projection of a group, element by element, in order. */
  function Operations(ts: seq<Transaction>): (ops: seq<Operation>)
    ensures |ops| == |ts|
    ensures forall i :: 0 <= i < |ts| ==> ops[i] == ToOperation(ts[i])
  {
    if ts == [] then [] else Operations(ts[..|ts| - 1]) + [ToOperation(ts[|ts| - 1])]
  }

  /** `Sum(t => t.GetSignedValue())`. */
  function SumSigned(ts: seq<Transaction>): int {
    if ts == [] then 0 else SumSigned(ts[..|ts| - 1]) + SignedValue(ts[|ts| - 1])
  }

  /** The sum of the signed values of some operations. */
  function SumOperations(ops: seq<Operation>): int {
    if ops == [] then 0 else SumOperations(ops[..|ops| - 1]) + ops[|ops| - 1].signedValue
  }

  /** The transactions of one store, in their original order: the elements
      of a `GroupBy` group. Store names are compared exactly (ordinal, case
      sensitive). */
  function InStore(ts: seq<Transaction>, name: string): (g: seq<Transaction>)
    ensures |g| <= |ts|
    ensures forall t :: t in g <==> t in ts && t.storeName == name
  {
    if ts == [] then []
    else InStore(ts[..|ts| - 1], name) + (if ts[|ts| - 1].storeName == name then [ts[|ts| - 1]] else [])
  }

  /** The keys of `GroupBy(t => t.StoreName)`, in order of first occurrence:
      each store once, and exactly the stores that have transactions. */
  function StoreNames(ts: seq<Transaction>): (names: seq<string>)
    ensures forall i, j :: 0 <= i < j < |names| ==> names[i] != names[j]
    ensures forall t :: t in ts ==> t.storeName in names
    ensures forall n :: n in names ==> InStore(ts, n) != []
  {
    if ts == [] then []
    else
      var init := ts[..|ts| - 1];
      var last := ts[|ts| - 1];
      var names := StoreNames(init);
      assert forall t :: t in ts ==> t in init || t == last;
      if last.storeName in names then names
      else
        assert last in InStore(ts, last.storeName);
        names + [last.storeName]
  }

  /** The report line of one store. */
  function Balance(name: string, g: seq<Transaction>): StoreBalance {
    StoreBalance(name, SumSigned(g), Operations(g))
  }

  /** The report lines for the given stores, in that order. */
  function BalancesFor(names: seq<string>, ts: seq<Transaction>): (r: seq<StoreBalance>)
    ensures |r| == |names|
    ensures forall i :: 0 <= i < |names| ==> r[i] == Balance(names[i], InStore(ts, names[i]))
  {
    if names == [] then []
    else BalancesFor(names[..|names| - 1], ts) + [Balance(names[|names| - 1], InStore(ts, names[|names| - 1]))]
  }

  /** `GetStoreBalancesAsync`, after the transactions are read: one line per
      store, in order of first occurrence. */
  function StoreBalances(ts: seq<Transaction>): seq<StoreBalance> {
    BalancesFor(StoreNames(ts), ts)
  }

  /** The sum of the totals of a report. */
  function GrandTotal(bs: seq<StoreBalance>): int {
    if bs == [] then 0 else GrandTotal(bs[..|bs| - 1]) + bs[|bs| - 1].totalBalance
  }

  /** The number of operations in a report. */
  function OperationCount(bs: seq<StoreBalance>): nat {
    if bs == [] then 0 else OperationCount(bs[..|bs| - 1]) + |bs[|bs| - 1].operations|
  }

  // ---------------------------------------------------------------------
  // Properties of the report
  // ---------------------------------------------------------------------

  lemma {:induction false} SumOperationsOf(ts: seq<Transaction>)
    ensures SumOperations(Operations(ts)) == SumSigned(ts)
  {
    if ts != [] {
      SumOperationsOf(ts[..|ts| - 1]);
      assert Operations(ts)[..|ts| - 1] == Operations(ts[..|ts| - 1]);
    }
  }

  /** Each line of the report is one store: the stores are distinct, every
      store with a transaction has a line, every line has at least one
      operation, its operations are exactly that store's transactions in
      their original order, each projected with its signed value, and its
      total is the sum of those signed values. */
  lemma {:induction false} StoreBalancesLines(ts: seq<Transaction>)
    ensures var r := StoreBalances(ts);
      forall i, j :: 0 <= i < j < |r| ==> r[i].storeName != r[j].storeName
    ensures var r := StoreBalances(ts);
      forall t :: t in ts ==> exists i :: 0 <= i < |r| && r[i].storeName == t.storeName
    ensures var r := StoreBalances(ts);
      forall i :: 0 <= i < |r| ==>
        && r[i].operations != []
        && r[i].operations == Operations(InStore(ts, r[i].storeName))
        && r[i].totalBalance == SumOperations(r[i].operations)
  {
    StoreBalancesCover(ts);
    StoreBalancesTotals(ts);
  }

  /** Every store with a transaction has a line. */
  lemma {:induction false} StoreBalancesCover(ts: seq<Transaction>)
    ensures var r := StoreBalances(ts);
      forall t :: t in ts ==> exists i :: 0 <= i < |r| && r[i].storeName == t.storeName
  {
    var r := StoreBalances(ts);
    var names := StoreNames(ts);
    forall t | t in ts
      ensures exists i :: 0 <= i < |r| && r[i].storeName == t.storeName
    {
      var i :| 0 <= i < |names| && names[i] == t.storeName;
      assert r[i].storeName == t.storeName;
    }
  }

  /** Each line's total is the sum of its operations' signed values. */
  lemma {:induction false} StoreBalancesTotals(ts: seq<Transaction>)
    ensures var r := StoreBalances(ts);
      forall i :: 0 <= i < |r| ==> r[i].totalBalance == SumOperations(r[i].operations)
  {
    var r := StoreBalances(ts);
    var names := StoreNames(ts);
    forall i | 0 <= i < |r|
      ensures r[i].totalBalance == SumOperations(r[i].operations)
    {
      SumOperationsOf(InStore(ts, names[i]));
    }
  }

  /** An empty repository gives an empty report, and a non-empty one a
      non-empty report. */
  lemma StoreBalancesEmpty(ts: seq<Transaction>)
    ensures StoreBalances(ts) == [] <==> ts == []
  {
    if ts != [] {
      assert ts[0].storeName in StoreNames(ts);
    }
  }

  lemma {:induction false} InStoreAppend(ts: seq<Transaction>, t: Transaction, name: string)
    ensures InStore(ts + [t], name) == InStore(ts, name) + (if t.storeName == name then [t] else [])
  {
    assert (ts + [t])[..|ts|] == ts;
  }

  lemma {:induction false} SumSignedAppend(a: seq<Transaction>, b: seq<Transaction>)
    ensures SumSigned(a + b) == SumSigned(a) + SumSigned(b)
  {
    if b != [] {
      assert (a + b)[..|a + b| - 1] == a + b[..|b| - 1];
      SumSignedAppend(a, b[..|b| - 1]);
    } else {
      assert a + b == a;
    }
  }

  /** One more transaction changes the sum of a store's group by its signed
      value when it belongs to that store, and not at all otherwise. */
  lemma {:induction false} StoreTotalAppend(ts: seq<Transaction>, t: Transaction, name: string)
    ensures SumSigned(InStore(ts + [t], name))
            == SumSigned(InStore(ts, name)) + (if t.storeName == name then SignedValue(t) else 0)
  {
    InStoreAppend(ts, t, name);
    SumSignedAppend(InStore(ts, name), if t.storeName == name then [t] else []);
    assert SumSigned([t]) == SignedValue(t) by {
      assert [t][..0] == [];
    }
  }

  /** Adding a transaction to the input changes the totals of the given
      distinct stores only in the line of its own store, by its signed
      value. */
  lemma {:induction false} GrandTotalAppend(names: seq<string>, ts: seq<Transaction>, t: Transaction)
    requires forall i, j :: 0 <= i < j < |names| ==> names[i] != names[j]
    ensures GrandTotal(BalancesFor(names, ts + [t]))
            == GrandTotal(BalancesFor(names, ts)) + (if t.storeName in names then SignedValue(t) else 0)
  {
    if names != [] {
      var init := names[..|names| - 1];
      var n := names[|names| - 1];
      assert forall i, j :: 0 <= i < j < |init| ==> init[i] != init[j];
      GrandTotalAppend(init, ts, t);
      StoreTotalAppend(ts, t, n);
      GrandTotalSnoc(names, ts);
      GrandTotalSnoc(names, ts + [t]);
      DistinctLast(names, t.storeName);
    }
  }

  /** The total of a report is the total of its front part plus the sum of
      the last store's group. */
  lemma {:induction false} GrandTotalSnoc(names: seq<string>, ts: seq<Transaction>)
    requires names != []
    ensures GrandTotal(BalancesFor(names, ts))
            == GrandTotal(BalancesFor(names[..|names| - 1], ts)) + SumSigned(InStore(ts, names[|names| - 1]))
  {
    assert BalancesFor(names, ts)[..|names| - 1] == BalancesFor(names[..|names| - 1], ts);
  }

  /** In a list without repetitions, a name is in the list exactly when it
      is in the front part or is the last, and never both. */
  lemma {:induction false} DistinctLast(names: seq<string>, x: string)
    requires names != []
    requires forall i, j :: 0 <= i < j < |names| ==> names[i] != names[j]
    ensures x in names <==> x in names[..|names| - 1] || x == names[|names| - 1]
    ensures names[|names| - 1] !in names[..|names| - 1]
  {
    assert names == names[..|names| - 1] + [names[|names| - 1]];
  }

  /** Adding a transaction to the input adds one operation to the line of
      its own store, if that store is among the given ones, and nothing
      elsewhere. */
  lemma {:induction false} OperationCountAppend(names: seq<string>, ts: seq<Transaction>, t: Transaction)
    requires forall i, j :: 0 <= i < j < |names| ==> names[i] != names[j]
    ensures OperationCount(BalancesFor(names, ts + [t]))
            == OperationCount(BalancesFor(names, ts)) + (if t.storeName in names then 1 else 0)
  {
    if names != [] {
      var init := names[..|names| - 1];
      var n := names[|names| - 1];
      assert forall i, j :: 0 <= i < j < |init| ==> init[i] != init[j];
      OperationCountAppend(init, ts, t);
      InStoreAppend(ts, t, n);
      OperationCountSnoc(names, ts);
      OperationCountSnoc(names, ts + [t]);
      DistinctLast(names, t.storeName);
    }
  }

  /** The report loses and duplicates nothing: its operations are as many as
      the transactions, and its totals add up to the signed sum of all of
      them. */
  lemma {:induction false} StoreBalancesPartition(ts: seq<Transaction>)
    ensures OperationCount(StoreBalances(ts)) == |ts|
    ensures GrandTotal(StoreBalances(ts)) == SumSigned(ts)
  {
    if ts != [] {
      var init := ts[..|ts| - 1];
      var t := ts[|ts| - 1];
      assert ts == init + [t];
      StoreBalancesPartition(init);
      PartitionStep(init, t);
    }
  }

  /** One more transaction adds one operation and its signed value to the
      report. */
  lemma {:induction false} PartitionStep(init: seq<Transaction>, t: Transaction)
    requires OperationCount(StoreBalances(init)) == |init|
    requires GrandTotal(StoreBalances(init)) == SumSigned(init)
    ensures OperationCount(StoreBalances(init + [t])) == |init| + 1
    ensures GrandTotal(StoreBalances(init + [t])) == SumSigned(init) + SignedValue(t)
  {
    if t.storeName in StoreNames(init) {
      PartitionStepKnown(init, t);
    } else {
      PartitionStepNew(init, t);
    }
  }

  /** One more transaction of a store already in the report. */
  lemma {:induction false} PartitionStepKnown(init: seq<Transaction>, t: Transaction)
    requires t.storeName in StoreNames(init)
    requires OperationCount(StoreBalances(init)) == |init|
    requires GrandTotal(StoreBalances(init)) == SumSigned(init)
    ensures OperationCount(StoreBalances(init + [t])) == |init| + 1
    ensures GrandTotal(StoreBalances(init + [t])) == SumSigned(init) + SignedValue(t)
  {
    var names := StoreNames(init);
    StoreNamesSnoc(init, t);
    GrandTotalAppend(names, init, t);
    OperationCountAppend(names, init, t);
  }

  /** The first transaction of a store not yet in the report. */
  lemma {:induction false} PartitionStepNew(init: seq<Transaction>, t: Transaction)
    requires t.storeName !in StoreNames(init)
    requires OperationCount(StoreBalances(init)) == |init|
    requires GrandTotal(StoreBalances(init)) == SumSigned(init)
    ensures OperationCount(StoreBalances(init + [t])) == |init| + 1
    ensures GrandTotal(StoreBalances(init + [t])) == SumSigned(init) + SignedValue(t)
  {
    var names := StoreNames(init);
    var ts := init + [t];
    var names' := names + [t.storeName];
    StoreNamesSnoc(init, t);
    GrandTotalAppend(names, init, t);
    OperationCountAppend(names, init, t);
    assert names'[..|names|] == names;
    GrandTotalSnoc(names', ts);
    OperationCountSnoc(names', ts);
    NewStoreGroup(init, t);
  }

  /** The stores of a longer input: a new store goes last. */
  lemma {:induction false} StoreNamesSnoc(ts: seq<Transaction>, t: Transaction)
    ensures StoreNames(ts + [t])
            == if t.storeName in StoreNames(ts) then StoreNames(ts) else StoreNames(ts) + [t.storeName]
  {
    assert (ts + [t])[..|ts|] == ts;
  }

  /** The first transaction of a store is its whole group. */
  lemma {:induction false} NewStoreGroup(ts: seq<Transaction>, t: Transaction)
    requires t.storeName !in StoreNames(ts)
    ensures InStore(ts + [t], t.storeName) == [t]
    ensures SumSigned([t]) == SignedValue(t)
  {
    AbsentStoreHasNoGroup(ts, t.storeName);
    InStoreAppend(ts, t, t.storeName);
    assert [t][..0] == [];
  }

  /** A store that is not among the keys has no transactions. */
  lemma {:induction false} AbsentStoreHasNoGroup(ts: seq<Transaction>, name: string)
    ensures name !in StoreNames(ts) ==> InStore(ts, name) == []
  {
    if InStore(ts, name) != [] {
      assert InStore(ts, name)[0] in InStore(ts, name);
    }
  }

  /** The operations of a report are those of its front part plus the last
      store's group. */
  lemma {:induction false} OperationCountSnoc(names: seq<string>, ts: seq<Transaction>)
    requires names != []
    ensures OperationCount(BalancesFor(names, ts))
            == OperationCount(BalancesFor(names[..|names| - 1], ts)) + |InStore(ts, names[|names| - 1])|
  {
    assert BalancesFor(names, ts)[..|names| - 1] == BalancesFor(names[..|names| - 1], ts);
  }

  // ---------------------------------------------------------------------
  // The repository and the service
  // ---------------------------------------------------------------------

  /** The transaction store: what has been saved, and how many times
      `SaveChanges` ran. */
  class TransactionRepository {
    var stored: seq<Transaction>
    var saves: nat

    constructor ()
      ensures stored == [] && saves == 0
    {
      stored := [];
      saves := 0;
    }

    /** `AddRangeAsync`: adds the batch and saves once. */
    method AddRange(transactions: seq<Transaction>)
      modifies this
      ensures stored == old(stored) + transactions
      ensures saves == old(saves) + 1
    {
      stored := stored + transactions;
      saves := saves + 1;
    }

    /** `GetAllAsync`, with the order left to the store. */
    method GetAll() returns (all: seq<Transaction>)
      ensures all == stored
    {
      all := stored;
    }
  }

  class TransactionService {
    const repository: TransactionRepository
    const parser: CnabParser

    constructor (repository: TransactionRepository, parser: CnabParser)
      ensures this.repository == repository && this.parser == parser
    {
      this.repository := repository;
      this.parser := parser;
    }

    /** `ProcessFileAsync`: parses the file and stores what was accepted, in
        one save, and only when something was accepted. */
    method ProcessFile(lines: seq<string>, now: DateTime)
      modifies repository, parser.bus
      ensures var parsed := ParseLines(lines, now);
        && repository.stored == old(repository.stored) + parsed.transactions
        && repository.saves == old(repository.saves) + (if parsed.transactions == [] then 0 else 1)
        && parser.bus.notifications == old(parser.bus.notifications) + parsed.notifications
    {
      var transactions := parser.Parse(lines, now);
      if |transactions| != 0 {
        repository.AddRange(transactions);
      }
    }

    /** `GetStoreBalancesAsync`: the report over everything stored. */
    method GetStoreBalances() returns (result: seq<StoreBalance>)
      ensures result == StoreBalances(repository.stored)
      ensures GrandTotal(result) == SumSigned(repository.stored)
      ensures OperationCount(result) == |repository.stored|
    {
      var transactions := repository.GetAll();
      result := StoreBalances(transactions);
      StoreBalancesPartition(transactions);
    }
  }
}
