/** `spend_points`: a positive amount no larger than the table's unspent
    total is taken first-in-first-out from every row of the table in scan
    order, whatever its payer; the answer charges each payer touched, in the
    order in which the walk first touched it, with everything taken from its
    rows. */
module Spending {
  import opened Lists
  import opened Records
  import opened Dicts
  import opened Ordering
  import opened Fifo

  /** The `spending_transactions` dictionary after the first `n` rows of
      `ids`: each row that gives up points (`Taken` of them) charges them to
      its payer. */
  function Debits(t: seq<Txn>, ids: seq<nat>, n: nat, need: nat): seq<Entry>
    requires ValidIds(t, ids) && n <= |ids|
    decreases n
  {
    if n == 0 then []
    else if Taken(t, ids, n - 1, need) == 0 then Debits(t, ids, n - 1, need)
    else Subtract(Debits(t, ids, n - 1, need), t[ids[n - 1]].payer, Taken(t, ids, n - 1, need))
  }

  /** One more row of the walk from charges `e` with `left` still wanted:
      a row that gives up points charges them to its payer. */
  lemma DebitsNext(t: seq<Txn>, ids: seq<nat>, k: nat, need: nat, e: seq<Entry>, left: nat)
    requires TableOk(t) && ValidIds(t, ids) && Distinct(ids) && k < |ids|
    requires Debits(t, ids, k, need) == e && Drain(t, ids, k, need).left == left
    ensures Debits(t, ids, k + 1, need)
         == if left == 0 || t[ids[k]].current <= 0 then e
            else Subtract(e, t[ids[k]].payer, Min(t[ids[k]].current, left))
  {
    DrainTaken(t, ids, k, need, left);
  }

  /** The request: refused with the table unchanged when the amount is not
      positive or exceeds the unspent total; otherwise the walk over every
      row in scan order, which answers the debits once it has covered the
      amount. */
  function Spend(t: seq<Txn>, amount: int): (o: Outcome<seq<Entry>>)
    ensures |o.table| == |t|
  {
    if amount <= 0 then Outcome(t, Err(InvalidAmount))
    else if Total(t) < amount then Outcome(t, Err(InsufficientFunds))
    else
      var d := Drain(t, ScanAll(t), |t|, amount);
      if d.left == 0 then Outcome(d.table, Ok(Debits(t, ScanAll(t), |t|, amount)))
      else Outcome(d.table, Err(Unexpected))
  }

  /** The payers of the rows listed in `ids` whose unspent amount is lower in
      `after` than in `before`, in list order, repeats included. */
  function DebitedPayers(before: seq<Txn>, after: seq<Txn>, ids: seq<nat>): (r: seq<string>)
    requires ValidIds(before, ids) && |after| == |before|
    ensures forall x :: x in r <==>
      (exists k :: 0 <= k < |ids| && after[ids[k]].current < before[ids[k]].current && before[ids[k]].payer == x)
    decreases |ids|
  {
    if ids == [] then []
    else
      var n := |ids| - 1;
      var i := ids[n];
      var r0 := DebitedPayers(before, after, ids[..n]);
      assert forall k :: 0 <= k < n ==> ids[..n][k] == ids[k];
      if after[i].current < before[i].current then r0 + [before[i].payer] else r0
  }

  /** The payers debited among the first `n` listed rows: those among the
      first `n - 1`, then the payer of row `n - 1` if it was debited. */
  lemma DebitedPayersSnoc(before: seq<Txn>, after: seq<Txn>, ids: seq<nat>, n: nat)
    requires ValidIds(before, ids) && |after| == |before| && 0 < n <= |ids|
    ensures var i := ids[n - 1];
      DebitedPayers(before, after, ids[..n])
      == DebitedPayers(before, after, ids[..n - 1])
         + (if after[i].current < before[i].current then [before[i].payer] else [])
  {
    assert ids[..n][..n - 1] == ids[..n - 1];
  }

  /** Each payer is charged exactly what its rows have lost so far. */
  lemma {:induction false} DebitsLookup(t: seq<Txn>, ids: seq<nat>, n: nat, need: nat, q: string)
    requires TableOk(t) && ValidIds(t, ids) && Distinct(ids) && n <= |ids|
    ensures Lookup(Debits(t, ids, n, need), q) == PayerTotal(Drain(t, ids, n, need).table, q) - PayerTotal(t, q)
    decreases n
  {
    if n > 0 {
      DebitsLookup(t, ids, n - 1, need, q);
      var d0 := Drain(t, ids, n - 1, need);
      var i := ids[n - 1];
      var x := Taken(t, ids, n - 1, need);
      var row := t[i].(current := t[i].current - x);
      assert d0.table[i] == t[i] && Drain(t, ids, n, need).table == d0.table[i := row] by {
        DrainStep(t, ids, n, need);
      }
      PayerTotalUpdate(d0.table, i, row, q);
      if x > 0 {
        SubtractLookup(Debits(t, ids, n - 1, need), t[i].payer, x, q);
      }
      assert Lookup(Debits(t, ids, n, need), q) == Lookup(Debits(t, ids, n - 1, need), q) - (if t[i].payer == q then x else 0);
    }
  }

  /** The charges add up to minus what the walk has covered so far. */
  lemma {:induction false} DebitsSum(t: seq<Txn>, ids: seq<nat>, n: nat, need: nat)
    requires TableOk(t) && ValidIds(t, ids) && Distinct(ids) && n <= |ids|
    ensures SumValues(Debits(t, ids, n, need)) == -(need - Drain(t, ids, n, need).left)
    decreases n
  {
    if n > 0 {
      DebitsSum(t, ids, n - 1, need);
      DrainStep(t, ids, n, need);
      var x := Taken(t, ids, n - 1, need);
      if x > 0 {
        SubtractSum(Debits(t, ids, n - 1, need), t[ids[n - 1]].payer, x);
      }
    }
  }

  /** Every charge is negative and no payer is charged in two entries. */
  lemma {:induction false} DebitsShape(t: seq<Txn>, ids: seq<nat>, n: nat, need: nat)
    requires ValidIds(t, ids) && n <= |ids|
    ensures var e := Debits(t, ids, n, need);
      (forall k :: 0 <= k < |e| ==> e[k].points < 0) && Distinct(Keys(e))
    decreases n
  {
    if n > 0 {
      DebitsShape(t, ids, n - 1, need);
      var e0 := Debits(t, ids, n - 1, need);
      var x := Taken(t, ids, n - 1, need);
      var p := t[ids[n - 1]].payer;
      if x > 0 {
        SubtractNegative(e0, p, x);
        SubtractKeys(e0, p, x);
      }
    }
  }

  /** The keys of the dictionary after `n` rows are the payers of the rows
      the walk has lowered so far, each at its first occurrence: a payer is
      added when one of its rows is first debited and keeps its place after. */
  lemma {:induction false} DebitsFirstTouch(t: seq<Txn>, ids: seq<nat>, n: nat, need: nat)
    requires TableOk(t) && ValidIds(t, ids) && Distinct(ids) && n <= |ids|
    ensures Keys(Debits(t, ids, n, need))
         == FirstOccurrences(DebitedPayers(t, Drain(t, ids, |ids|, need).table, ids[..n]))
    decreases n
  {
    var fin := Drain(t, ids, |ids|, need).table;
    if n == 0 {
      assert ids[..0] == [];
    } else {
      DebitsFirstTouch(t, ids, n - 1, need);
      var i := ids[n - 1];
      var taken := Taken(t, ids, n - 1, need);
      assert fin[i].current == t[i].current - taken by {
        DrainAt(t, ids, |ids|, need);
      }
      DebitedPayersSnoc(t, fin, ids, n);
      var s0 := DebitedPayers(t, fin, ids[..n - 1]);
      if taken > 0 {
        FirstOccurrencesSnoc(s0, t[i].payer);
        SubtractKeys(Debits(t, ids, n - 1, need), t[i].payer, taken);
      } else {
        assert s0 + [] == s0;
        DebitsSkip(t, ids, n, need);
      }
    }
  }

  /** A row that gives up nothing leaves the charges as they were. */
  lemma DebitsSkip(t: seq<Txn>, ids: seq<nat>, n: nat, need: nat)
    requires ValidIds(t, ids) && 0 < n <= |ids| && Taken(t, ids, n - 1, need) == 0
    ensures Debits(t, ids, n, need) == Debits(t, ids, n - 1, need)
  {
  }

  /** Once the rows before position `k` hold the whole need, the later rows
      are charged nothing. */
  lemma {:induction false} DebitsDone(t: seq<Txn>, ids: seq<nat>, k: nat, n: nat, need: nat)
    requires TableOk(t) && ValidIds(t, ids) && k <= n <= |ids|
    requires need <= Prior(t, ids, k)
    ensures Debits(t, ids, n, need) == Debits(t, ids, k, need)
    decreases n - k
  {
    if k < n {
      assert RecordOk(t[ids[k]]);
      DebitsSkip(t, ids, k + 1, need);
      DebitsDone(t, ids, k + 1, n, need);
    }
  }

  /** Once the walk has covered the need after `k` rows, neither the table
      nor the charges change over the rest of the list. */
  lemma WalkSettled(t: seq<Txn>, ids: seq<nat>, k: nat, need: nat)
    requires TableOk(t) && ValidIds(t, ids) && Distinct(ids) && k <= |ids|
    requires Drain(t, ids, k, need).left == 0
    ensures Drain(t, ids, |ids|, need) == Drain(t, ids, k, need)
    ensures Debits(t, ids, |ids|, need) == Debits(t, ids, k, need)
  {
    DrainDone(t, ids, k, |ids|, need);
    DrainLeft(t, ids, k, need);
    DebitsDone(t, ids, k, |ids|, need);
  }

  /** After the availability check passes, the walk always covers the
      amount, so the "unexpected error" answer is never given. */
  lemma SpendCovers(t: seq<Txn>, amount: int)
    requires TableOk(t) && 0 < amount <= Total(t)
    ensures Drain(t, ScanAll(t), |t|, amount).left == 0
  {
    DrainLeftAll(t, ScanAll(t), amount);
    ScanAllSum(t);
  }

  /** A spend succeeds exactly when the amount is positive and no larger than
      the unspent total; a refused spend changes nothing and says why. */
  lemma SpendOutcome(t: seq<Txn>, amount: int)
    requires TableOk(t)
    ensures Spend(t, amount).result.Ok? <==> 0 < amount <= Total(t)
    ensures amount <= 0 ==> Spend(t, amount) == Outcome(t, Err(InvalidAmount))
    ensures 0 < amount && Total(t) < amount ==> Spend(t, amount) == Outcome(t, Err(InsufficientFunds))
  {
    if 0 < amount <= Total(t) {
      SpendCovers(t, amount);
    }
  }

  /** A successful spend lowers the unspent total by exactly the amount, keeps
      the field invariant, and changes no row but for lowering its unspent
      amount. */
  lemma SpendConserves(t: seq<Txn>, amount: int)
    requires TableOk(t) && 0 < amount <= Total(t)
    ensures var o := Spend(t, amount);
      o.result.Ok? && |o.table| == |t| && TableOk(o.table)
      && Total(o.table) == Total(t) - amount
      && forall i :: 0 <= i < |t| ==> SameGrant(t[i], o.table[i]) && o.table[i].current <= t[i].current
  {
    var scan := ScanAll(t);
    SpendCovers(t, amount);
    assert Spend(t, amount).table == Drain(t, scan, |scan|, amount).table;
    DrainTotal(t, scan, |scan|, amount);
    DrainKeepsGrants(t, scan, |scan|, amount);
  }

  /** The answer of a successful spend: one negative entry per payer, adding
      up to minus the amount, each payer charged exactly what its rows lost. */
  lemma SpendCharges(t: seq<Txn>, amount: int)
    requires TableOk(t) && 0 < amount <= Total(t)
    ensures var o := Spend(t, amount);
      o.result.Ok?
      && (forall k :: 0 <= k < |o.result.value| ==> o.result.value[k].points < 0)
      && Distinct(Keys(o.result.value))
      && SumValues(o.result.value) == -amount
      && forall q :: Lookup(o.result.value, q) == PayerTotal(o.table, q) - PayerTotal(t, q)
  {
    var scan := ScanAll(t);
    SpendCovers(t, amount);
    assert Spend(t, amount) == Outcome(Drain(t, scan, |scan|, amount).table, Ok(Debits(t, scan, |scan|, amount)));
    DebitsShape(t, scan, |scan|, amount);
    DebitsSum(t, scan, |scan|, amount);
    forall q {
      DebitsLookup(t, scan, |scan|, amount, q);
    }
  }

  /** The payers of a successful spend's answer come in the order in which
      the walk first debited one of their rows. */
  lemma SpendFirstTouch(t: seq<Txn>, amount: int)
    requires TableOk(t) && 0 < amount <= Total(t)
    ensures var o := Spend(t, amount);
      o.result.Ok? && |o.table| == |t|
      && Keys(o.result.value) == FirstOccurrences(DebitedPayers(t, o.table, ScanAll(t)))
  {
    var scan := ScanAll(t);
    SpendCovers(t, amount);
    assert Spend(t, amount) == Outcome(Drain(t, scan, |scan|, amount).table, Ok(Debits(t, scan, |scan|, amount)));
    DebitsFirstTouch(t, scan, |scan|, amount);
    assert scan[..|scan|] == scan;
  }

  /** Spending is first-in-first-out across all payers: a row loses points
      only if every row before it in scan order ends with nothing unspent. */
  lemma SpendOldestFirst(t: seq<Txn>, amount: int, i: nat, j: nat)
    requires TableOk(t) && i < |t| && j < |t| && Before(t, i, j)
    requires Spend(t, amount).table[j].current < t[j].current
    ensures Spend(t, amount).table[i].current == 0
  {
    var scan := ScanAll(t);
    assert 0 < amount <= Total(t);
    assert Spend(t, amount).table == Drain(t, scan, |scan|, amount).table;
    assert i in scan && j in scan;
    var a :| 0 <= a < |scan| && scan[a] == i;
    var b :| 0 <= b < |scan| && scan[b] == j;
    ScanAllSorted(t);
    SortedPositions(t, scan, a, b);
    DrainFifo(t, scan, amount);
  }
}
