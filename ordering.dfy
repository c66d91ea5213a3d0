/** The ordered scans the ledger relies on: `ORDER BY timestamp`, with ties
    between equal timestamps broken by row id so that the order is total. */
module Ordering {
  import opened Lists
  import opened Records

  /** Row `i` comes before row `j` in scan order. */
  predicate Before(t: seq<Txn>, i: nat, j: nat)
    requires i < |t| && j < |t|
  {
    t[i].timestamp < t[j].timestamp || (t[i].timestamp == t[j].timestamp && i < j)
  }

  predicate Sorted(t: seq<Txn>, ids: seq<nat>)
    requires ValidIds(t, ids)
  {
    forall a, b :: 0 <= a < b < |ids| ==> Before(t, ids[a], ids[b])
  }

  /** Inserts row `x` into an already ordered list of rows. */
  function Insert(t: seq<Txn>, x: nat, s: seq<nat>): (r: seq<nat>)
    requires x < |t| && ValidIds(t, s)
    ensures ValidIds(t, r) && |r| == |s| + 1
    ensures forall y :: y in r <==> y == x || y in s
  {
    if s == [] then [x]
    else if Before(t, x, s[0]) then [x] + s
    else
      assert s == [s[0]] + s[1..];
      [s[0]] + Insert(t, x, s[1..])
  }

  lemma {:induction false} InsertSorted(t: seq<Txn>, x: nat, s: seq<nat>)
    requires x < |t| && ValidIds(t, s) && Sorted(t, s) && x !in s
    ensures Sorted(t, Insert(t, x, s))
  {
    if s != [] && !Before(t, x, s[0]) {
      assert s == [s[0]] + s[1..];
      var rest := Insert(t, x, s[1..]);
      InsertSorted(t, x, s[1..]);
      var r := [s[0]] + rest;
      forall b | 1 <= b < |r|
        ensures Before(t, s[0], r[b])
      {
        assert r[b] == rest[b - 1] && rest[b - 1] in rest;
        if r[b] != x {
          var j :| 0 <= j < |s[1..]| && s[1..][j] == r[b];
          assert s[1..][j] == s[j + 1];
        }
      }
    }
  }

  lemma {:induction false} InsertSum(t: seq<Txn>, x: nat, s: seq<nat>)
    requires x < |t| && ValidIds(t, s)
    ensures SumCur(t, Insert(t, x, s)) == t[x].current + SumCur(t, s)
  {
    if s != [] && !Before(t, x, s[0]) {
      InsertSum(t, x, s[1..]);
      var r := [s[0]] + Insert(t, x, s[1..]);
      assert r[1..] == Insert(t, x, s[1..]);
    }
  }

  /** Inserting a row not yet listed keeps the rows distinct. */
  lemma {:induction false} InsertDistinct(t: seq<Txn>, x: nat, s: seq<nat>)
    requires x < |t| && ValidIds(t, s) && Distinct(s) && x !in s
    ensures Distinct(Insert(t, x, s))
  {
    if s != [] {
      assert s == [s[0]] + s[1..];
      assert Distinct(s[1..]) by {
        forall a, b | 0 <= a < b < |s[1..]| ensures s[1..][a] != s[1..][b] {
          assert s[a + 1] != s[b + 1];
        }
      }
      if !Before(t, x, s[0]) {
        InsertDistinct(t, x, s[1..]);
        var rest := Insert(t, x, s[1..]);
        assert s[0] !in s[1..] by {
          forall j | 0 <= j < |s[1..]| ensures s[1..][j] != s[0] {
            assert s[j + 1] != s[0];
          }
        }
        assert s[0] !in rest;
      }
    }
  }

  /** A sorted list lists its rows in scan order: positions follow `Before`. */
  lemma SortedPositions(t: seq<Txn>, ids: seq<nat>, a: nat, b: nat)
    requires ValidIds(t, ids) && Sorted(t, ids) && a < |ids| && b < |ids|
    requires Before(t, ids[a], ids[b])
    ensures a < b
  {
  }

  /** The rows 0 .. n-1, each once, built by inserting one row at a time in
      scan order. */
  function ScanUpTo(t: seq<Txn>, n: nat): (r: seq<nat>)
    requires n <= |t|
    ensures ValidIds(t, r) && Distinct(r) && |r| == n
    ensures forall k :: 0 <= k < |r| ==> r[k] < n
    ensures forall i :: 0 <= i < n ==> i in r
    decreases n
  {
    if n == 0 then []
    else
      var r0 := ScanUpTo(t, n - 1);
      assert n - 1 !in r0;
      InsertDistinct(t, n - 1, r0);
      var r := Insert(t, n - 1, r0);
      assert forall k :: 0 <= k < |r| ==> r[k] < n by {
        forall k | 0 <= k < |r| ensures r[k] < n {
          assert r[k] in r;
        }
      }
      r
  }

  /** `ScanUpTo` lists its rows in scan order. */
  lemma {:induction false} ScanUpToSorted(t: seq<Txn>, n: nat)
    requires n <= |t|
    ensures Sorted(t, ScanUpTo(t, n))
  {
    if n > 0 {
      ScanUpToSorted(t, n - 1);
      var r0 := ScanUpTo(t, n - 1);
      assert n - 1 !in r0;
      InsertSorted(t, n - 1, r0);
    }
  }

  /** The rows 0 .. n-1 of payer `p` with unspent points, each once:
      `filter(payer == p, current_points > 0)`, inserted in scan order. */
  function PayerScanUpTo(t: seq<Txn>, p: string, n: nat): (r: seq<nat>)
    requires n <= |t|
    ensures PayerRows(t, p, n, r)
    decreases n
  {
    if n == 0 then []
    else
      var r0 := PayerScanUpTo(t, p, n - 1);
      if t[n - 1].payer == p && t[n - 1].current > 0 then
        PayerRowsInsert(t, p, n, r0);
        Insert(t, n - 1, r0)
      else
        PayerRowsSkip(t, p, n, r0);
        r0
  }

  /** Row `i` belongs to payer `p` and has points unspent. */
  predicate Pending(t: seq<Txn>, p: string, i: nat)
    requires i < |t|
  {
    t[i].payer == p && t[i].current > 0
  }

  /** `r` lists each row 0 .. n-1 of payer `p` with unspent points once, and
      nothing else. */
  predicate PayerRows(t: seq<Txn>, p: string, n: nat, r: seq<nat>)
    requires n <= |t|
  {
    ValidIds(t, r) && Distinct(r)
    && (forall k :: 0 <= k < |r| ==> r[k] < n && Pending(t, p, r[k]))
    && (forall i :: 0 <= i < n && Pending(t, p, i) ==> i in r)
  }

  lemma PayerRowsInsert(t: seq<Txn>, p: string, n: nat, r0: seq<nat>)
    requires 0 < n <= |t| && PayerRows(t, p, n - 1, r0)
    requires t[n - 1].payer == p && t[n - 1].current > 0
    ensures PayerRows(t, p, n, Insert(t, n - 1, r0))
  {
    assert n - 1 !in r0;
    InsertDistinct(t, n - 1, r0);
    var r := Insert(t, n - 1, r0);
    forall k | 0 <= k < |r| ensures r[k] < n && Pending(t, p, r[k]) {
      assert r[k] in r;
    }
  }

  lemma PayerRowsSkip(t: seq<Txn>, p: string, n: nat, r0: seq<nat>)
    requires 0 < n <= |t| && PayerRows(t, p, n - 1, r0)
    requires !(t[n - 1].payer == p && t[n - 1].current > 0)
    ensures PayerRows(t, p, n, r0)
  {
  }

  /** `PayerScanUpTo` lists its rows in scan order. */
  lemma {:induction false} PayerScanUpToSorted(t: seq<Txn>, p: string, n: nat)
    requires n <= |t|
    ensures Sorted(t, PayerScanUpTo(t, p, n))
  {
    if n > 0 {
      var r0 := PayerScanUpTo(t, p, n - 1);
      if t[n - 1].payer == p && t[n - 1].current > 0 {
        assert Sorted(t, Insert(t, n - 1, r0)) by {
          PayerScanUpToSorted(t, p, n - 1);
          InsertLastSorted(t, n - 1, r0);
        }
        assert PayerScanUpTo(t, p, n) == Insert(t, n - 1, r0);
      } else {
        PayerScanUpToSorted(t, p, n - 1);
        assert PayerScanUpTo(t, p, n) == r0;
      }
    }
  }

  /** Inserting a row later than every listed one keeps the list sorted. */
  lemma InsertLastSorted(t: seq<Txn>, x: nat, s: seq<nat>)
    requires x < |t| && ValidIds(t, s) && Sorted(t, s)
    requires forall k :: 0 <= k < |s| ==> s[k] < x
    ensures Sorted(t, Insert(t, x, s))
  {
    assert x !in s;
    InsertSorted(t, x, s);
  }

  lemma {:induction false} ScanUpToSum(t: seq<Txn>, n: nat)
    requires n <= |t|
    ensures SumCur(t, ScanUpTo(t, n)) == Total(t[..n])
  {
    if n > 0 {
      ScanUpToSum(t, n - 1);
      InsertSum(t, n - 1, ScanUpTo(t, n - 1));
      assert t[..n][..n - 1] == t[..n - 1];
    }
  }

  lemma {:induction false} PayerScanUpToSum(t: seq<Txn>, p: string, n: nat)
    requires TableOk(t) && n <= |t|
    ensures SumCur(t, PayerScanUpTo(t, p, n)) == PayerTotal(t[..n], p)
  {
    if n > 0 {
      var r0 := PayerScanUpTo(t, p, n - 1);
      PayerScanUpToSum(t, p, n - 1);
      assert PayerTotal(t[..n], p)
          == PayerTotal(t[..n - 1], p) + (if t[n - 1].payer == p then t[n - 1].current else 0) by {
        assert t[..n][..n - 1] == t[..n - 1];
      }
      if Pending(t, p, n - 1) {
        InsertSum(t, n - 1, r0);
        assert PayerScanUpTo(t, p, n) == Insert(t, n - 1, r0);
      } else {
        assert RecordOk(t[n - 1]);
        assert PayerScanUpTo(t, p, n) == r0;
      }
    }
  }

  /** Every row of the table, each once: the spend query. */
  function ScanAll(t: seq<Txn>): (r: seq<nat>)
    ensures ValidIds(t, r) && Distinct(r) && |r| == |t|
    ensures forall i :: 0 <= i < |t| ==> i in r
  {
    ScanUpTo(t, |t|)
  }

  /** The spend query lists the rows in scan order. */
  lemma ScanAllSorted(t: seq<Txn>)
    ensures Sorted(t, ScanAll(t))
  {
    ScanUpToSorted(t, |t|);
  }

  /** The spend query holds everything the table has unspent. */
  lemma ScanAllSum(t: seq<Txn>)
    ensures SumCur(t, ScanAll(t)) == Total(t)
  {
    ScanUpToSum(t, |t|);
    assert t[..|t|] == t;
  }

  /** The rows of payer `p` with unspent points, each once: the clawback query. */
  function PayerScan(t: seq<Txn>, p: string): (r: seq<nat>)
    ensures PayerRows(t, p, |t|, r)
  {
    PayerScanUpTo(t, p, |t|)
  }

  /** The clawback query lists the rows in scan order. */
  lemma PayerScanSorted(t: seq<Txn>, p: string)
    ensures Sorted(t, PayerScan(t, p))
  {
    PayerScanUpToSorted(t, p, |t|);
  }

  /** The clawback query holds everything payer `p` has unspent. */
  lemma PayerScanSum(t: seq<Txn>, p: string)
    requires TableOk(t)
    ensures SumCur(t, PayerScan(t, p)) == PayerTotal(t, p)
  {
    PayerScanUpToSum(t, p, |t|);
    assert t[..|t|] == t;
  }
}
