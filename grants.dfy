/** `create_transaction`: a non-negative amount is a grant stored with all of
    its points unspent; a negative amount is a clawback that takes its size,
    oldest first, from the same payer's unspent grants, followed by a row of
    its own with nothing unspent. */
module Grants {
  import opened Lists
  import opened Records
  import opened Ordering
  import opened Fifo

  /** The clawback walk over payer `p`'s unspent rows in scan order. */
  function Clawback(t: seq<Txn>, p: string, need: nat): Drained
  {
    Drain(t, PayerScan(t, p), |PayerScan(t, p)|, need)
  }

  /** The row a request stores: a grant keeps everything unspent, a clawback
      nothing. */
  function NewRow(payer: string, points: int, timestamp: int): Txn {
    Txn(payer, points, if points < 0 then 0 else points, timestamp)
  }

  /** The request as written: the clawback walk commits row by row, so a
      clawback that cannot be covered still leaves the rows it has drained. */
  function Create(t: seq<Txn>, payer: string, points: int, timestamp: int): (o: Outcome<nat>)
  {
    if points < 0 then
      var d := Clawback(t, payer, -points);
      if d.left != 0 then Outcome(d.table, Err(InsufficientFunds))
      else Outcome(d.table + [NewRow(payer, points, timestamp)], Ok(|t| + 1))
    else Outcome(t + [NewRow(payer, points, timestamp)], Ok(|t| + 1))
  }

  /** The request as evidently intended: a clawback that cannot be covered
      leaves the table as it was. */
  function CreateAtomic(t: seq<Txn>, payer: string, points: int, timestamp: int): (o: Outcome<nat>)
  {
    if points < 0 && Clawback(t, payer, -points).left != 0 then Outcome(t, Err(InsufficientFunds))
    else Create(t, payer, points, timestamp)
  }

  /** What the walk could not cover: the clawback minus what payer `p` holds. */
  lemma ClawbackLeft(t: seq<Txn>, p: string, need: nat)
    requires TableOk(t)
    ensures Clawback(t, p, need).left == Max(0, need - PayerTotal(t, p))
  {
    PayerDrainLeft(t, p, need);
  }

  lemma PayerDrainLeft(t: seq<Txn>, p: string, need: nat)
    requires TableOk(t)
    ensures Drain(t, PayerScan(t, p), |PayerScan(t, p)|, need).left == Max(0, need - PayerTotal(t, p))
  {
    DrainLeftAll(t, PayerScan(t, p), need);
    PayerScanSum(t, p);
  }

  /** A clawback only moves its own payer's total, by what it covered. */
  lemma ClawbackTotals(t: seq<Txn>, p: string, need: nat, q: string)
    ensures PayerTotal(Clawback(t, p, need).table, q)
         == PayerTotal(t, q) - (if q == p then need - Clawback(t, p, need).left else 0)
  {
    var scan := PayerScan(t, p);
    DrainScoped(t, scan, |scan|, need, p, q);
  }

  /** A clawback touches only rows of its own payer, and of those only the
      unspent amount, which it lowers and never takes below 0. */
  lemma ClawbackScope(t: seq<Txn>, p: string, need: nat)
    requires TableOk(t)
    ensures TableOk(Clawback(t, p, need).table)
    ensures forall i :: 0 <= i < |t| ==>
      SameGrant(t[i], Clawback(t, p, need).table[i])
      && Clawback(t, p, need).table[i].current <= t[i].current
    ensures forall i :: 0 <= i < |t| && t[i].payer != p ==> Clawback(t, p, need).table[i] == t[i]
  {
    var scan := PayerScan(t, p);
    DrainKeepsGrants(t, scan, |scan|, need);
    DrainFrame(t, scan, |scan|, need);
  }

  /** A row whose unspent amount the clawback lowered is one of the scanned rows. */
  lemma ClawbackTouchedScanned(t: seq<Txn>, p: string, need: nat, i: nat)
    requires i < |t| && Clawback(t, p, need).table[i].current < t[i].current
    ensures i in PayerScan(t, p)
  {
    var scan := PayerScan(t, p);
    DrainFrame(t, scan, |scan|, need);
  }

  /** Oldest first: a row of the payer loses points only once every row of
      that payer before it in scan order has nothing left. */
  lemma ClawbackOldestFirst(t: seq<Txn>, p: string, need: nat, i: nat, j: nat)
    requires TableOk(t) && i < |t| && j < |t|
    requires t[i].payer == p && Before(t, i, j)
    requires Clawback(t, p, need).table[j].current < t[j].current
    ensures Clawback(t, p, need).table[i].current == 0
  {
    var scan := PayerScan(t, p);
    var d := Clawback(t, p, need);
    ClawbackScope(t, p, need);
    ClawbackTouchedScanned(t, p, need, j);
    if t[i].current > 0 {
      assert i in scan;
      var a :| 0 <= a < |scan| && scan[a] == i;
      var b :| 0 <= b < |scan| && scan[b] == j;
      PayerScanSorted(t, p);
      SortedPositions(t, scan, a, b);
      DrainFifo(t, scan, need);
    } else {
      assert RecordOk(d.table[i]);
    }
  }

  /** At most one row ends partly consumed by a clawback. */
  lemma ClawbackOnePartial(t: seq<Txn>, p: string, need: nat, i: nat, j: nat)
    requires TableOk(t) && i < |t| && j < |t|
    requires 0 < Clawback(t, p, need).table[i].current < t[i].current
    requires 0 < Clawback(t, p, need).table[j].current < t[j].current
    ensures i == j
  {
    var scan := PayerScan(t, p);
    ClawbackTouchedScanned(t, p, need, i);
    ClawbackTouchedScanned(t, p, need, j);
    var a :| 0 <= a < |scan| && scan[a] == i;
    var b :| 0 <= b < |scan| && scan[b] == j;
    DrainOnePartial(t, scan, need);
  }

  /** A grant appends its row with every point unspent, answers its id, and
      leaves every existing row as it was. */
  lemma CreateGrant(t: seq<Txn>, payer: string, points: int, timestamp: int)
    requires points >= 0
    ensures var o := Create(t, payer, points, timestamp);
      o.result == Ok(|t| + 1) && |o.table| == |t| + 1 && o.table[..|t|] == t
      && o.table[|t|] == Txn(payer, points, points, timestamp)
  {
  }

  /** A clawback succeeds exactly when its payer holds enough unspent points;
      then it appends its own row with nothing unspent, answers its id, and
      the payer's total drops by its size while every other payer's stays put. */
  lemma CreateClawback(t: seq<Txn>, payer: string, points: int, timestamp: int)
    requires TableOk(t) && points < 0
    ensures Create(t, payer, points, timestamp).result.Ok? <==> -points <= PayerTotal(t, payer)
    ensures Create(t, payer, points, timestamp).result.Ok? ==>
      var o := Create(t, payer, points, timestamp);
      o.result.value == |t| + 1 && |o.table| == |t| + 1
      && o.table[|t|] == Txn(payer, points, 0, timestamp)
      && PayerTotal(o.table, payer) == PayerTotal(t, payer) + points
      && forall q :: q != payer ==> PayerTotal(o.table, q) == PayerTotal(t, q)
  {
    ClawbackLeft(t, payer, -points);
    var d := Clawback(t, payer, -points);
    if d.left == 0 {
      var o := Create(t, payer, points, timestamp);
      assert o.table == d.table + [NewRow(payer, points, timestamp)];
      TotalAppend(d.table, NewRow(payer, points, timestamp));
      forall q {
        ClawbackTotals(t, payer, -points, q);
      }
    }
  }

  /** Every successful request moves the table's total, and its payer's, by
      exactly the amount asked for. */
  lemma CreateMovesTotals(t: seq<Txn>, payer: string, points: int, timestamp: int)
    requires TableOk(t)
    ensures var o := Create(t, payer, points, timestamp);
      o.result.Ok? ==> (Total(o.table) == Total(t) + points
                        && PayerTotal(o.table, payer) == PayerTotal(t, payer) + points)
  {
    var row := NewRow(payer, points, timestamp);
    if points < 0 {
      var scan := PayerScan(t, payer);
      var d := Clawback(t, payer, -points);
      DrainTotal(t, scan, |scan|, -points);
      ClawbackTotals(t, payer, -points, payer);
      TotalAppend(d.table, row);
    } else {
      TotalAppend(t, row);
    }
  }

  /** Every request keeps the field invariant of every row, and changes no
      existing row but for lowering its unspent amount. */
  lemma CreateKeepsFields(t: seq<Txn>, payer: string, points: int, timestamp: int)
    requires TableOk(t)
    ensures var o := Create(t, payer, points, timestamp);
      TableOk(o.table) && |t| <= |o.table|
      && forall i :: 0 <= i < |t| ==> SameGrant(t[i], o.table[i]) && o.table[i].current <= t[i].current
  {
    if points < 0 {
      ClawbackScope(t, payer, -points);
      var d := Clawback(t, payer, -points);
      var o := Create(t, payer, points, timestamp);
      if d.left == 0 {
        assert o.table == d.table + [NewRow(payer, points, timestamp)];
        assert forall i :: 0 <= i < |t| ==> o.table[i] == d.table[i];
      }
    }
  }

  /** As written, a clawback the payer cannot cover is refused and appends no
      row, yet it has already emptied every one of that payer's rows. */
  lemma FailedClawbackDrains(t: seq<Txn>, payer: string, points: int, timestamp: int)
    requires TableOk(t) && points < 0 && PayerTotal(t, payer) < -points
    ensures Create(t, payer, points, timestamp).result == Err(InsufficientFunds)
    ensures |Create(t, payer, points, timestamp).table| == |t|
    ensures forall i :: 0 <= i < |t| && t[i].payer == payer ==> Create(t, payer, points, timestamp).table[i].current == 0
  {
    var need: nat := -points;
    assert Clawback(t, payer, need).left > 0 by {
      ClawbackLeft(t, payer, need);
    }
    assert Create(t, payer, points, timestamp) == Outcome(Clawback(t, payer, need).table, Err(InsufficientFunds));
    ClawbackEmptiesPayer(t, payer, need);
  }

  /** A clawback walk that fell short has emptied every row of its payer. */
  lemma ClawbackEmptiesPayer(t: seq<Txn>, p: string, need: nat)
    requires TableOk(t) && Clawback(t, p, need).left > 0
    ensures forall i :: 0 <= i < |t| && t[i].payer == p ==> Clawback(t, p, need).table[i].current == 0
  {
    forall i | 0 <= i < |t| && t[i].payer == p
      ensures Clawback(t, p, need).table[i].current == 0
    {
      ClawbackExhausts(t, p, need, i);
    }
  }

  lemma ClawbackExhausts(t: seq<Txn>, p: string, need: nat, i: nat)
    requires TableOk(t) && i < |t| && t[i].payer == p
    requires Clawback(t, p, need).left > 0
    ensures Clawback(t, p, need).table[i].current == 0
  {
    var scan := PayerScan(t, p);
    assert Clawback(t, p, need) == Drain(t, scan, |scan|, need);
    if t[i].current > 0 {
      assert i in scan;
      var k :| 0 <= k < |scan| && scan[k] == i;
      DrainExhausts(t, scan, need);
    } else {
      ClawbackScope(t, p, need);
      assert RecordOk(Clawback(t, p, need).table[i]);
    }
  }

  /** A concrete case: 5 points granted, a clawback of 10 refused, and the 5
      points gone all the same. */
  lemma FailedClawbackExample()
    ensures var t := [Txn("DANNON", 5, 5, 0)];
      Create(t, "DANNON", -10, 1) == Outcome([Txn("DANNON", 5, 0, 0)], Err(InsufficientFunds))
  {
    var t := [Txn("DANNON", 5, 5, 0)];
    var scan := PayerScan(t, "DANNON");
    assert 0 in scan;
    assert scan == [0];
    assert Drain(t, scan, 0, 10) == Drained(t, 10);
  }

  /** Corrected: a refused request leaves the table exactly as it was, and an
      accepted one is the request as written. */
  lemma CreateAtomicAllOrNothing(t: seq<Txn>, payer: string, points: int, timestamp: int)
    requires TableOk(t)
    ensures var o := CreateAtomic(t, payer, points, timestamp);
      (o.result.Err? <==> points < 0 && PayerTotal(t, payer) < -points)
      && (o.result.Err? ==> o.table == t && o.result.error == InsufficientFunds)
      && (o.result.Ok? ==> o == Create(t, payer, points, timestamp))
  {
    if points < 0 {
      ClawbackLeft(t, payer, -points);
      var d := Clawback(t, payer, -points);
      if d.left != 0 {
        assert CreateAtomic(t, payer, points, timestamp) == Outcome(t, Err(InsufficientFunds));
      } else {
        assert CreateAtomic(t, payer, points, timestamp) == Create(t, payer, points, timestamp);
        assert Create(t, payer, points, timestamp).result == Ok(|t| + 1);
      }
    }
  }
}
