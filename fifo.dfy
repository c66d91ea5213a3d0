/** First-in-first-out consumption of unspent points along an ordered scan.
    Both the clawback loop and the spend loop walk a list of rows and take
    `min(need, current)` from each row until nothing more is needed; `Drain`
    is that walk, and `Taken` is an independent closed form of what it takes
    from each row. */
module Fifo {
  import opened Lists
  import opened Records

  /** The table after a walk and the amount the walk could not cover. */
  datatype Drained = Drained(table: seq<Txn>, left: nat)

  /** The walk over the first `n` rows of `ids` wanting `need` points. A row
      that is reached after the need is met, or that has nothing unspent, is
      left alone. */
  function Drain(t: seq<Txn>, ids: seq<nat>, n: nat, need: nat): (d: Drained)
    requires ValidIds(t, ids) && n <= |ids|
    ensures |d.table| == |t| && d.left <= need
    decreases n
  {
    if n == 0 then Drained(t, need)
    else
      var d0 := Drain(t, ids, n - 1, need);
      var i := ids[n - 1];
      var cur := d0.table[i].current;
      if d0.left == 0 || cur <= 0 then d0
      else
        var x := Min(cur, d0.left);
        Drained(d0.table[i := d0.table[i].(current := cur - x)], d0.left - x)
  }

  /** What the rows at positions 0 .. k-1 of `ids` hold between them. */
  function Prior(t: seq<Txn>, ids: seq<nat>, k: nat): int
    requires ValidIds(t, ids) && k <= |ids|
  {
    if k == 0 then 0 else Prior(t, ids, k - 1) + t[ids[k - 1]].current
  }

  /** What FIFO consumption takes from the row at position `k` of `ids`: all
      of it, or whatever part of `need` the rows before it left over. */
  function Taken(t: seq<Txn>, ids: seq<nat>, k: nat, need: nat): nat
    requires ValidIds(t, ids) && k < |ids|
  {
    Min(Max(t[ids[k]].current, 0), Max(0, need - Prior(t, ids, k)))
  }

  /** One step of the walk, written without case split: the row at position
      n-1 gives `min(current, left)` (nothing when either is 0). */
  lemma DrainLast(t: seq<Txn>, ids: seq<nat>, n: nat, need: nat)
    requires ValidIds(t, ids) && 0 < n <= |ids|
    ensures var d0 := Drain(t, ids, n - 1, need);
      var i := ids[n - 1];
      var x := Min(Max(d0.table[i].current, 0), d0.left);
      Drain(t, ids, n, need) == Drained(d0.table[i := d0.table[i].(current := d0.table[i].current - x)], d0.left - x)
  {
    var d0 := Drain(t, ids, n - 1, need);
    var i := ids[n - 1];
    if d0.left == 0 || d0.table[i].current <= 0 {
      assert d0.table[i := d0.table[i].(current := d0.table[i].current - 0)] == d0.table;
    }
  }

  /** The walk only lowers `current`, never below 0, and leaves every other
      field of every row alone; so it keeps the field invariant. */
  lemma {:induction false} DrainKeepsGrants(t: seq<Txn>, ids: seq<nat>, n: nat, need: nat)
    requires ValidIds(t, ids) && n <= |ids|
    ensures forall i :: 0 <= i < |t| ==>
      SameGrant(t[i], Drain(t, ids, n, need).table[i]) && Drain(t, ids, n, need).table[i].current <= t[i].current
    ensures forall i :: 0 <= i < |t| && RecordOk(t[i]) ==> RecordOk(Drain(t, ids, n, need).table[i])
    decreases n
  {
    if n > 0 {
      DrainKeepsGrants(t, ids, n - 1, need);
      DrainLast(t, ids, n, need);
    }
  }

  /** The walk keeps the field invariant of the whole table. */
  lemma DrainTableOk(t: seq<Txn>, ids: seq<nat>, n: nat, need: nat)
    requires TableOk(t) && ValidIds(t, ids) && n <= |ids|
    ensures TableOk(Drain(t, ids, n, need).table)
  {
    DrainKeepsGrants(t, ids, n, need);
  }

  /** Rows the list does not name are left as they were. */
  lemma {:induction false} DrainFrame(t: seq<Txn>, ids: seq<nat>, n: nat, need: nat)
    requires ValidIds(t, ids) && n <= |ids|
    ensures forall j :: 0 <= j < |t| && j !in ids ==> Drain(t, ids, n, need).table[j] == t[j]
    decreases n
  {
    if n > 0 {
      DrainFrame(t, ids, n - 1, need);
      DrainLast(t, ids, n, need);
      assert ids[n - 1] in ids;
    }
  }

  /** Rows the walk has not reached yet are left as they were. */
  lemma {:induction false} DrainAhead(t: seq<Txn>, ids: seq<nat>, n: nat, need: nat)
    requires ValidIds(t, ids) && Distinct(ids) && n <= |ids|
    ensures forall k :: n <= k < |ids| ==> Drain(t, ids, n, need).table[ids[k]] == t[ids[k]]
    decreases n
  {
    if n > 0 {
      DrainAhead(t, ids, n - 1, need);
      DrainLast(t, ids, n, need);
    }
  }

  /** After `n` rows the walk still lacks `need` minus what those rows held, or 0. */
  lemma {:induction false} DrainLeft(t: seq<Txn>, ids: seq<nat>, n: nat, need: nat)
    requires TableOk(t) && ValidIds(t, ids) && Distinct(ids) && n <= |ids|
    ensures Drain(t, ids, n, need).left == Max(0, need - Prior(t, ids, n))
    decreases n
  {
    if n > 0 {
      DrainLeft(t, ids, n - 1, need);
      DrainAhead(t, ids, n - 1, need);
      DrainLast(t, ids, n, need);
      assert RecordOk(t[ids[n - 1]]);
    }
  }

  /** The walk agrees with the closed form: it takes `Taken` from each row it
      has passed. */
  lemma {:induction false} DrainAt(t: seq<Txn>, ids: seq<nat>, n: nat, need: nat)
    requires TableOk(t) && ValidIds(t, ids) && Distinct(ids) && n <= |ids|
    ensures forall k {:trigger Drain(t, ids, n, need).table[ids[k]]} :: 0 <= k < n ==>
      Drain(t, ids, n, need).table[ids[k]].current == t[ids[k]].current - Taken(t, ids, k, need)
    decreases n
  {
    if n > 0 {
      DrainAt(t, ids, n - 1, need);
      DrainLeft(t, ids, n - 1, need);
      DrainAhead(t, ids, n - 1, need);
      DrainLast(t, ids, n, need);
      forall k | 0 <= k < n - 1
        ensures ids[k] != ids[n - 1]
      {
      }
    }
  }

  /** One step of the walk from a known state (`tbl`, `left`) after `k`
      rows: the next row is still as it was in `t`; it is skipped when the
      need is met or it has nothing unspent, and otherwise gives up
      `min(current, left)`. */
  lemma DrainNext(t: seq<Txn>, ids: seq<nat>, k: nat, need: nat, tbl: seq<Txn>, left: nat)
    requires ValidIds(t, ids) && Distinct(ids) && k < |ids|
    requires Drain(t, ids, k, need) == Drained(tbl, left)
    ensures ids[k] < |tbl| && tbl[ids[k]] == t[ids[k]]
    ensures left == 0 || t[ids[k]].current <= 0 ==> Drain(t, ids, k + 1, need) == Drained(tbl, left)
    ensures left > 0 && t[ids[k]].current > 0 ==>
      var i := ids[k];
      var x := Min(t[i].current, left);
      Drain(t, ids, k + 1, need) == Drained(tbl[i := t[i].(current := t[i].current - x)], left - x)
  {
    DrainAhead(t, ids, k, need);
  }

  /** What the next row gives up, in terms of what is still wanted. */
  lemma DrainTaken(t: seq<Txn>, ids: seq<nat>, k: nat, need: nat, left: nat)
    requires TableOk(t) && ValidIds(t, ids) && Distinct(ids) && k < |ids|
    requires Drain(t, ids, k, need).left == left
    ensures Taken(t, ids, k, need) == if left == 0 || t[ids[k]].current <= 0 then 0 else Min(t[ids[k]].current, left)
  {
    DrainLeft(t, ids, k, need);
  }

  /** One step of the walk in closed form: row `ids[n-1]`, still as it was
      in `t`, gives up `Taken`, and the need drops by as much. */
  lemma DrainStep(t: seq<Txn>, ids: seq<nat>, n: nat, need: nat)
    requires TableOk(t) && ValidIds(t, ids) && Distinct(ids) && 0 < n <= |ids|
    ensures var d0 := Drain(t, ids, n - 1, need);
      var i := ids[n - 1];
      d0.table[i] == t[i]
      && Drain(t, ids, n, need).table == d0.table[i := t[i].(current := t[i].current - Taken(t, ids, n - 1, need))]
      && Drain(t, ids, n, need).left == d0.left - Taken(t, ids, n - 1, need)
  {
    DrainAhead(t, ids, n - 1, need);
    DrainLeft(t, ids, n - 1, need);
    DrainLast(t, ids, n, need);
  }

  lemma {:induction false} PriorIsSum(t: seq<Txn>, ids: seq<nat>, k: nat)
    requires ValidIds(t, ids) && k <= |ids|
    ensures Prior(t, ids, k) == SumCur(t, ids[..k])
  {
    if k > 0 {
      PriorIsSum(t, ids, k - 1);
      SumCurSnoc(t, ids, k - 1);
    }
  }

  /** A full walk lacks `need` minus everything the listed rows hold, or 0. */
  lemma DrainLeftAll(t: seq<Txn>, ids: seq<nat>, need: nat)
    requires TableOk(t) && ValidIds(t, ids) && Distinct(ids)
    ensures Drain(t, ids, |ids|, need).left == Max(0, need - SumCur(t, ids))
  {
    DrainLeft(t, ids, |ids|, need);
    PriorIsSum(t, ids, |ids|);
    assert ids[..|ids|] == ids;
  }

  /** With no negative row, what the rows before position `j` hold covers
      what those before `k` hold plus row `k` itself, for `k < j`. */
  lemma {:induction false} PriorGrows(t: seq<Txn>, ids: seq<nat>, k: nat, j: nat)
    requires TableOk(t) && ValidIds(t, ids) && k < j <= |ids|
    ensures Prior(t, ids, k) + t[ids[k]].current <= Prior(t, ids, j)
    decreases j
  {
    if k < j - 1 {
      PriorGrows(t, ids, k, j - 1);
    }
  }

  /** The unspent total drops by exactly what the walk covered. */
  lemma {:induction false} DrainTotal(t: seq<Txn>, ids: seq<nat>, n: nat, need: nat)
    requires ValidIds(t, ids) && n <= |ids|
    ensures Total(Drain(t, ids, n, need).table) == Total(t) - (need - Drain(t, ids, n, need).left)
    decreases n
  {
    if n > 0 {
      DrainTotal(t, ids, n - 1, need);
      DrainLast(t, ids, n, need);
      var d0 := Drain(t, ids, n - 1, need);
      var i := ids[n - 1];
      var x := Min(Max(d0.table[i].current, 0), d0.left);
      TotalUpdate(d0.table, i, d0.table[i].(current := d0.table[i].current - x));
    }
  }

  /** A walk over rows of payer `p` only moves `p`'s total, by what it
      covered; every other payer's total stays put. */
  lemma {:induction false} DrainScoped(t: seq<Txn>, ids: seq<nat>, n: nat, need: nat, p: string, q: string)
    requires ValidIds(t, ids) && n <= |ids|
    requires forall k :: 0 <= k < |ids| ==> t[ids[k]].payer == p
    ensures PayerTotal(Drain(t, ids, n, need).table, q)
         == PayerTotal(t, q) - (if q == p then need - Drain(t, ids, n, need).left else 0)
    decreases n
  {
    if n > 0 {
      DrainScoped(t, ids, n - 1, need, p, q);
      DrainLast(t, ids, n, need);
      var d0 := Drain(t, ids, n - 1, need);
      var i := ids[n - 1];
      var x := Min(Max(d0.table[i].current, 0), d0.left);
      DrainKeepsGrants(t, ids, n - 1, need);
      assert d0.table[i].payer == p;
      PayerTotalUpdate(d0.table, i, d0.table[i].(current := d0.table[i].current - x), q);
    }
  }

  /** Consumption is first-in-first-out along the list: a row loses points
      only if every row listed before it ends with nothing unspent. */
  lemma DrainFifo(t: seq<Txn>, ids: seq<nat>, need: nat)
    requires TableOk(t) && ValidIds(t, ids) && Distinct(ids)
    ensures forall a, b :: 0 <= a < b < |ids|
              && Drain(t, ids, |ids|, need).table[ids[b]].current < t[ids[b]].current
              ==> Drain(t, ids, |ids|, need).table[ids[a]].current == 0
  {
    DrainAt(t, ids, |ids|, need);
    var d := Drain(t, ids, |ids|, need);
    forall a, b | 0 <= a < b < |ids| && d.table[ids[b]].current < t[ids[b]].current
      ensures d.table[ids[a]].current == 0
    {
      PriorGrows(t, ids, a, b);
    }
  }

  /** A walk that could not cover the need has emptied every listed row. */
  lemma DrainExhausts(t: seq<Txn>, ids: seq<nat>, need: nat)
    requires TableOk(t) && ValidIds(t, ids) && Distinct(ids)
    requires Drain(t, ids, |ids|, need).left > 0
    ensures forall k :: 0 <= k < |ids| ==> Drain(t, ids, |ids|, need).table[ids[k]].current == 0
  {
    DrainAt(t, ids, |ids|, need);
    DrainLeft(t, ids, |ids|, need);
    var d := Drain(t, ids, |ids|, need);
    forall k | 0 <= k < |ids|
      ensures d.table[ids[k]].current == 0
    {
      PriorGrows(t, ids, k, |ids|);
    }
  }

  /** At most one listed row ends partly consumed. */
  lemma DrainOnePartial(t: seq<Txn>, ids: seq<nat>, need: nat)
    requires TableOk(t) && ValidIds(t, ids) && Distinct(ids)
    ensures forall a, b :: 0 <= a < |ids| && 0 <= b < |ids|
              && 0 < Drain(t, ids, |ids|, need).table[ids[a]].current < t[ids[a]].current
              && 0 < Drain(t, ids, |ids|, need).table[ids[b]].current < t[ids[b]].current
              ==> a == b
  {
    DrainFifo(t, ids, need);
  }

  /** Once the need is met after `k` rows the rest of the walk changes nothing. */
  lemma {:induction false} DrainDone(t: seq<Txn>, ids: seq<nat>, k: nat, n: nat, need: nat)
    requires ValidIds(t, ids) && k <= n <= |ids|
    requires Drain(t, ids, k, need).left == 0
    ensures Drain(t, ids, n, need) == Drain(t, ids, k, need)
    decreases n
  {
    if k < n {
      DrainDone(t, ids, k, n - 1, need);
    }
  }
}
