/** The three endpoints of the points service over the shared `Transaction`
    table. Each request is one method call on a `Ledger`; the loops are the
    ones the endpoints run, updating rows of the table in place, and each
    method is proved to leave the table and answer what the matching pure
    definition (`Create`, `CreateAtomic`, `Spend`, `Balance`) says. */
module Server {
  import opened Lists
  import opened Records
  import opened Dicts
  import opened Ordering
  import opened Fifo
  import opened Grants
  import opened Spending
  import opened Balances

  class Ledger {
    /** The rows in insertion order; row id = position + 1. */
    var table: seq<Txn>

    ghost predicate Valid()
      reads this
    {
      TableOk(table)
    }

    constructor ()
      ensures Valid() && table == []
    {
      table := [];
    }

    /** The clawback loop of `create_transaction` over `transactions`, the
        payer's rows with unspent points, oldest first: moves `remaining`
        (the negative amount still owed) toward 0, committing each row as it
        goes, and answers what is still owed once the walk stops. */
    method Claw(transactions: seq<nat>, points: int) returns (remaining: int)
      requires Valid() && ValidIds(table, transactions) && Distinct(transactions) && points < 0
      modifies this
      ensures Valid()
      ensures remaining <= 0 && Drain(old(table), transactions, |transactions|, -points) == Drained(table, -remaining)
    {
      ghost var t0 := table;
      ghost var need: nat := -points;
      remaining := points;
      var k := 0;
      while k < |transactions|
        invariant 0 <= k <= |transactions|
        invariant remaining <= 0 && Drain(t0, transactions, k, need) == Drained(table, -remaining)
        decreases |transactions| - k
      {
        var i := transactions[k];
        DrainNext(t0, transactions, k, need, table, -remaining);
        if remaining < 0 {
          if table[i].current >= -remaining {
            table := table[i := table[i].(current := table[i].current + remaining)];
            remaining := 0;
          } else {
            remaining := remaining + table[i].current;
            table := table[i := table[i].(current := 0)];
          }
        }
        k := k + 1;
        assert Drain(t0, transactions, k, need) == Drained(table, -remaining);
        if remaining == 0 {
          DrainDone(t0, transactions, k, |transactions|, need);
          break;
        }
      }
      assert Drain(t0, transactions, |transactions|, need) == Drained(table, -remaining);
      DrainTableOk(t0, transactions, |transactions|, need);
    }

    /** `create_transaction`, as written: a clawback the payer cannot cover
        is refused but keeps the decrements its walk has committed. */
    method CreateTransaction(payer: string, points: int, timestamp: int) returns (r: Result<nat>)
      requires Valid()
      modifies this
      ensures Valid()
      ensures Outcome(table, r) == Create(old(table), payer, points, timestamp)
    {
      var newTransaction: Txn;
      if points < 0 {
        var transactions := PayerScan(table, payer);
        var remaining := Claw(transactions, points);
        if remaining != 0 {
          return Err(InsufficientFunds);
        }
        newTransaction := Txn(payer, points, 0, timestamp);
      } else {
        newTransaction := Txn(payer, points, points, timestamp);
      }
      table := table + [newTransaction];
      r := Ok(|table|);
    }

    /** `create_transaction` with the refused clawback rolled back: the
        table is restored from a snapshot taken before the walk. */
    method CreateTransactionAtomic(payer: string, points: int, timestamp: int) returns (r: Result<nat>)
      requires Valid()
      modifies this
      ensures Valid()
      ensures Outcome(table, r) == CreateAtomic(old(table), payer, points, timestamp)
    {
      var snapshot := table;
      r := CreateTransaction(payer, points, timestamp);
      if r.Err? {
        table := snapshot;
      }
    }

    /** The loop of `spend_points` over `transactions`, every row in scan
        order: takes up to `points` from each row with unspent points in
        turn, charging its payer, until nothing is left to spend. Answers
        what is still to spend and the charges per payer. */
    method SpendWalk(transactions: seq<nat>, points: int) returns (pointsToSpend: int, spendingTransactions: seq<Entry>)
      requires Valid() && ValidIds(table, transactions) && Distinct(transactions) && points > 0
      modifies this
      ensures Valid()
      ensures pointsToSpend >= 0 && Drain(old(table), transactions, |transactions|, points) == Drained(table, pointsToSpend)
      ensures spendingTransactions == Debits(old(table), transactions, |transactions|, points)
    {
      ghost var t0 := table;
      ghost var need: nat := points;
      pointsToSpend := points;
      spendingTransactions := [];
      var k := 0;
      while k < |transactions|
        invariant 0 <= k <= |transactions|
        invariant pointsToSpend >= 0 && Drain(t0, transactions, k, need) == Drained(table, pointsToSpend)
        invariant spendingTransactions == Debits(t0, transactions, k, need)
        decreases |transactions| - k
      {
        if pointsToSpend == 0 {
          break;
        }
        var i := transactions[k];
        DrainNext(t0, transactions, k, need, table, pointsToSpend);
        var transactionPointsRemaining := table[i].current;
        if transactionPointsRemaining <= 0 {
          DebitsNext(t0, transactions, k, need, spendingTransactions, pointsToSpend);
          assert Drain(t0, transactions, k + 1, need) == Drained(table, pointsToSpend);
          assert spendingTransactions == Debits(t0, transactions, k + 1, need);
          k := k + 1;
          continue;
        }
        var transactionPayer := table[i].payer;
        var pointsSpent := Min(transactionPointsRemaining, pointsToSpend);
        assert Drain(t0, transactions, k + 1, need)
            == Drained(table[i := table[i].(current := table[i].current - pointsSpent)], pointsToSpend - pointsSpent);
        DebitsNext(t0, transactions, k, need, spendingTransactions, pointsToSpend);
        spendingTransactions := Subtract(spendingTransactions, transactionPayer, pointsSpent);
        pointsToSpend := pointsToSpend - pointsSpent;
        table := table[i := table[i].(current := table[i].current - pointsSpent)];
        assert Drain(t0, transactions, k + 1, need) == Drained(table, pointsToSpend);
        assert spendingTransactions == Debits(t0, transactions, k + 1, need);
        k := k + 1;
      }
      if pointsToSpend == 0 {
        WalkSettled(t0, transactions, k, need);
      }
      assert Drain(t0, transactions, |transactions|, need) == Drained(table, pointsToSpend);
      DrainTableOk(t0, transactions, |transactions|, need);
    }

    /** `spend_points`: the amount and availability checks, then the walk
        over every row in scan order; a walk that cannot cover the amount
        is answered with the "unexpected" error. */
    method SpendPoints(points: int) returns (r: Result<seq<Entry>>)
      requires Valid()
      modifies this
      ensures Valid()
      ensures Outcome(table, r) == Spend(old(table), points)
    {
      if points <= 0 {
        return Err(InvalidAmount);
      }
      var totalPointsAvailable := Total(table);
      if totalPointsAvailable < points {
        return Err(InsufficientFunds);
      }
      var transactions := ScanAll(table);
      var pointsToSpend, spendingTransactions := SpendWalk(transactions, points);
      if pointsToSpend == 0 {
        r := Ok(spendingTransactions);
      } else {
        r := Err(Unexpected);
      }
    }

    /** `get_balance`: read-only; each payer with a row, at its earliest
        timestamp's place, with its unspent total. */
    function GetBalance(): (r: seq<Entry>)
      reads this
      ensures Keys(r) == BalanceOrder(table)
      ensures forall p :: p in Keys(r) <==> HasPayer(table, p)
      ensures forall p :: Lookup(r, p) == PayerTotal(table, p)
      ensures SumValues(r) == Total(table)
    {
      BalancePayers(table);
      BalanceValues(table);
      BalanceSum(table);
      Balance(table)
    }
  }
}
