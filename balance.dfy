/** `get_balance`: the unspent points of each payer that has at least one
    row, payers ordered by their earliest timestamp. Grouping by payer keeps
    each payer at its first row in scan order, which is its earliest row
    (ties between equal timestamps go to the lower id). */
module Balances {
  import opened Lists
  import opened Records
  import opened Dicts
  import opened Ordering

  /** The payer of each listed row, in list order. */
  function ScanPayers(t: seq<Txn>, ids: seq<nat>): (r: seq<string>)
    requires ValidIds(t, ids)
    ensures |r| == |ids| && forall k :: 0 <= k < |ids| ==> r[k] == t[ids[k]].payer
  {
    if ids == [] then [] else [t[ids[0]].payer] + ScanPayers(t, ids[1..])
  }

  /** One entry per listed payer, holding that payer's unspent total. */
  function Tally(t: seq<Txn>, ps: seq<string>): (r: seq<Entry>)
    ensures Keys(r) == ps
  {
    if ps == [] then [] else [Entry(ps[0], PayerTotal(t, ps[0]))] + Tally(t, ps[1..])
  }

  /** The payers in the order the balance lists them. */
  function BalanceOrder(t: seq<Txn>): seq<string> {
    FirstOccurrences(ScanPayers(t, ScanAll(t)))
  }

  /** The answer: payer to unspent total, in `BalanceOrder`. */
  function Balance(t: seq<Txn>): seq<Entry> {
    Tally(t, BalanceOrder(t))
  }

  /** A payer that owns no row has nothing unspent. */
  lemma {:induction false} PayerTotalAbsent(t: seq<Txn>, p: string)
    requires !HasPayer(t, p)
    ensures PayerTotal(t, p) == 0
  {
    if t != [] {
      var n := |t| - 1;
      assert !HasPayer(t[..n], p) by {
        forall i | 0 <= i < n
          ensures t[..n][i].payer != p
        {
          assert t[..n][i] == t[i];
        }
      }
      PayerTotalAbsent(t[..n], p);
    }
  }

  /** The rows' payers in scan order name exactly the payers with a row. */
  lemma ScanPayersCover(t: seq<Txn>, p: string)
    ensures p in ScanPayers(t, ScanAll(t)) <==> HasPayer(t, p)
  {
    var scan := ScanAll(t);
    var sp := ScanPayers(t, scan);
    if HasPayer(t, p) {
      var i :| 0 <= i < |t| && t[i].payer == p;
      assert i in scan;
      var k :| 0 <= k < |scan| && scan[k] == i;
      assert sp[k] == p;
    }
    if p in sp {
      var k :| 0 <= k < |sp| && sp[k] == p;
      assert t[scan[k]].payer == p;
    }
  }

  /** Every payer with at least one row is listed once, a payer whose rows are
      all spent included, and no other payer is listed. */
  lemma BalancePayers(t: seq<Txn>)
    ensures Distinct(Keys(Balance(t)))
    ensures forall p :: p in Keys(Balance(t)) <==> HasPayer(t, p)
  {
    forall p
      ensures p in Keys(Balance(t)) <==> HasPayer(t, p)
    {
      ScanPayersCover(t, p);
    }
  }

  lemma {:induction false} TallyLookup(t: seq<Txn>, ps: seq<string>, p: string)
    requires p in ps
    ensures Lookup(Tally(t, ps), p) == PayerTotal(t, p)
  {
    if ps[0] != p {
      TallyLookup(t, ps[1..], p);
    }
  }

  lemma {:induction false} TallyLookupAbsent(t: seq<Txn>, ps: seq<string>, p: string)
    requires p !in ps
    ensures Lookup(Tally(t, ps), p) == 0
  {
    if ps != [] {
      TallyLookupAbsent(t, ps[1..], p);
    }
  }

  /** The balance of every payer is the sum of its rows' unspent points (0
      for a payer with no row). */
  lemma BalanceValues(t: seq<Txn>)
    ensures forall p :: Lookup(Balance(t), p) == PayerTotal(t, p)
  {
    forall p
      ensures Lookup(Balance(t), p) == PayerTotal(t, p)
    {
      ScanPayersCover(t, p);
      if p in BalanceOrder(t) {
        TallyLookup(t, BalanceOrder(t), p);
      } else {
        TallyLookupAbsent(t, BalanceOrder(t), p);
        PayerTotalAbsent(t, p);
      }
    }
  }

  /** Adding a row to the table adds its unspent points to the tally of
      distinct payers once, if its payer is listed. */
  lemma {:induction false} TallyAppend(t: seq<Txn>, r: Txn, ps: seq<string>)
    requires Distinct(ps)
    ensures SumValues(Tally(t + [r], ps)) == SumValues(Tally(t, ps)) + (if r.payer in ps then r.current else 0)
  {
    if ps != [] {
      assert Distinct(ps[1..]) by {
        forall a, b | 0 <= a < b < |ps[1..]| ensures ps[1..][a] != ps[1..][b] {
          assert ps[a + 1] != ps[b + 1];
        }
      }
      assert ps[0] !in ps[1..] by {
        forall k | 0 <= k < |ps[1..]| ensures ps[1..][k] != ps[0] {
          assert ps[k + 1] != ps[0];
        }
      }
      TallyAppend(t, r, ps[1..]);
      TotalAppend(t, r);
      assert r.payer in ps <==> r.payer == ps[0] || r.payer in ps[1..];
    }
  }

  /** Over distinct payers that cover every row, the tally adds up to the
      table's unspent total. */
  lemma {:induction false} TallyTotal(t: seq<Txn>, ps: seq<string>)
    requires Distinct(ps) && forall i :: 0 <= i < |t| ==> t[i].payer in ps
    ensures SumValues(Tally(t, ps)) == Total(t)
  {
    if t == [] {
      TallyZero(ps);
    } else {
      var n := |t| - 1;
      assert t == t[..n] + [t[n]];
      TallyTotal(t[..n], ps);
      TallyAppend(t[..n], t[n], ps);
    }
  }

  lemma {:induction false} TallyZero(ps: seq<string>)
    ensures SumValues(Tally([], ps)) == 0
  {
    if ps != [] {
      TallyZero(ps[1..]);
    }
  }

  /** The balances add up to the table's unspent total. */
  lemma BalanceSum(t: seq<Txn>)
    ensures SumValues(Balance(t)) == Total(t)
  {
    forall i | 0 <= i < |t|
      ensures t[i].payer in BalanceOrder(t)
    {
      ScanPayersCover(t, t[i].payer);
    }
    TallyTotal(t, BalanceOrder(t));
  }

  /** A payer's first row in scan order carries its earliest timestamp. */
  lemma FirstRowEarliest(t: seq<Txn>, p: string)
    requires p in ScanPayers(t, ScanAll(t))
    ensures HasPayer(t, p)
    ensures t[ScanAll(t)[FirstIndex(ScanPayers(t, ScanAll(t)), p)]].timestamp == EarliestTimestamp(t, p)
  {
    var scan := ScanAll(t);
    var sp := ScanPayers(t, scan);
    ScanPayersCover(t, p);
    var f := FirstIndex(sp, p);
    var m :| 0 <= m < |t| && t[m].payer == p && t[m].timestamp == EarliestTimestamp(t, p);
    assert m in scan;
    var pm :| 0 <= pm < |scan| && scan[pm] == m;
    assert sp[pm] == p;
    if f < pm {
      ScanAllSorted(t);
      assert Before(t, scan[f], scan[pm]);
    }
  }

  /** Every listed payer has a row. */
  lemma BalanceOrderHasPayer(t: seq<Txn>)
    ensures forall a :: 0 <= a < |BalanceOrder(t)| ==> HasPayer(t, BalanceOrder(t)[a])
  {
    var ks := BalanceOrder(t);
    forall a | 0 <= a < |ks|
      ensures HasPayer(t, ks[a])
    {
      assert ks[a] in ks;
      ScanPayersCover(t, ks[a]);
    }
  }

  /** Payers are listed by ascending earliest timestamp. */
  lemma BalanceOrdered(t: seq<Txn>)
    ensures forall a :: 0 <= a < |BalanceOrder(t)| ==> HasPayer(t, BalanceOrder(t)[a])
    ensures forall a, b :: 0 <= a < b < |BalanceOrder(t)| ==>
      EarliestTimestamp(t, BalanceOrder(t)[a]) <= EarliestTimestamp(t, BalanceOrder(t)[b])
  {
    var scan := ScanAll(t);
    var sp := ScanPayers(t, scan);
    var ks := BalanceOrder(t);
    BalanceOrderHasPayer(t);
    FirstOccurrencesOrdered(sp);
    forall a, b | 0 <= a < b < |ks|
      ensures EarliestTimestamp(t, ks[a]) <= EarliestTimestamp(t, ks[b])
    {
      assert ks[a] in ks && ks[b] in ks;
      FirstRowEarliest(t, ks[a]);
      FirstRowEarliest(t, ks[b]);
      var fa := FirstIndex(sp, ks[a]);
      var fb := FirstIndex(sp, ks[b]);
      assert fa < fb;
      ScanAllSorted(t);
      assert Before(t, scan[fa], scan[fb]);
    }
  }
}
