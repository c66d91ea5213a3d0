/** The ledger table: one `Txn` per transaction row, kept in insertion order.
    A record's position in the sequence is its row id minus one, so the
    position doubles as the stable tie-break of every ordered scan. */
module Records {

  /** One transaction row: who granted the points, the amount asked for
      (negative for a clawback), the part still unspent, and the caller's
      logical timestamp. Only `current` ever changes after creation. */
  datatype Txn = Txn(payer: string, points: int, current: int, timestamp: int)

  /** Why a request was refused: a non-positive spend, a clawback or spend
      the unspent points cannot cover, or the spend loop ending short. */
  datatype Error = InvalidAmount | InsufficientFunds | Unexpected

  datatype Result<T> = Ok(value: T) | Err(error: Error)

  /** The table a request leaves behind and what it answers. */
  datatype Outcome<T> = Outcome(table: seq<Txn>, result: Result<T>)

  function Min(a: int, b: int): int { if a <= b then a else b }

  function Max(a: int, b: int): int { if a <= b then b else a }

  /** The field invariant of a row: 0 <= current <= max(points, 0). */
  predicate RecordOk(r: Txn) {
    0 <= r.current <= Max(r.points, 0)
  }

  predicate TableOk(t: seq<Txn>) {
    forall i :: 0 <= i < |t| ==> RecordOk(t[i])
  }

  /** `b` is the row `a` with at most its unspent amount changed. */
  predicate SameGrant(a: Txn, b: Txn) {
    a.payer == b.payer && a.points == b.points && a.timestamp == b.timestamp
  }

  predicate HasPayer(t: seq<Txn>, p: string) {
    exists i :: 0 <= i < |t| && t[i].payer == p
  }

  /** A list of row positions that all point into `t`. */
  predicate ValidIds(t: seq<Txn>, ids: seq<nat>) {
    forall k :: 0 <= k < |ids| ==> ids[k] < |t|
  }

  /** `SUM(current_points)` over the whole table; an empty table sums to 0. */
  function Total(t: seq<Txn>): int {
    if t == [] then 0 else Total(t[..|t| - 1]) + t[|t| - 1].current
  }

  /** Sum of `current` over the rows of payer `p`. */
  function PayerTotal(t: seq<Txn>, p: string): int {
    if t == [] then 0
    else PayerTotal(t[..|t| - 1], p) + (if t[|t| - 1].payer == p then t[|t| - 1].current else 0)
  }

  /** Sum of `current` over the rows listed in `ids`, in list order. */
  function SumCur(t: seq<Txn>, ids: seq<nat>): int
    requires ValidIds(t, ids)
  {
    if ids == [] then 0 else t[ids[0]].current + SumCur(t, ids[1..])
  }

  /** The earliest timestamp among the rows of payer `p`: `MIN(timestamp)` of its group. */
  function EarliestTimestamp(t: seq<Txn>, p: string): (m: int)
    requires HasPayer(t, p)
    ensures exists i :: 0 <= i < |t| && t[i].payer == p && t[i].timestamp == m
    ensures forall i :: 0 <= i < |t| && t[i].payer == p ==> m <= t[i].timestamp
    decreases |t|
  {
    var n := |t| - 1;
    if t[n].payer == p then
      if HasPayer(t[..n], p) then Min(EarliestTimestamp(t[..n], p), t[n].timestamp)
      else t[n].timestamp
    else
      HasPayerDropLast(t, p);
      EarliestTimestamp(t[..n], p)
  }

  lemma HasPayerDropLast(t: seq<Txn>, p: string)
    requires HasPayer(t, p) && t[|t| - 1].payer != p
    ensures HasPayer(t[..|t| - 1], p)
  {
    var i :| 0 <= i < |t| && t[i].payer == p;
    assert t[..|t| - 1][i] == t[i];
  }

  /** Under the field invariant no sum of unspent points is negative: not the
      table's, and not any payer's. */
  lemma {:induction false} TotalNonNegative(t: seq<Txn>)
    requires TableOk(t)
    ensures Total(t) >= 0
    ensures forall p :: PayerTotal(t, p) >= 0
  {
    if t != [] {
      TotalNonNegative(t[..|t| - 1]);
    }
  }

  lemma {:induction false} SumCurConcat(t: seq<Txn>, a: seq<nat>, b: seq<nat>)
    requires ValidIds(t, a) && ValidIds(t, b)
    ensures ValidIds(t, a + b)
    ensures SumCur(t, a + b) == SumCur(t, a) + SumCur(t, b)
  {
    if a != [] {
      assert (a + b)[1..] == a[1..] + b;
      SumCurConcat(t, a[1..], b);
    } else {
      assert a + b == b;
    }
  }

  /** Summing a prefix one row longer adds that row's unspent amount. */
  lemma SumCurSnoc(t: seq<Txn>, ids: seq<nat>, k: nat)
    requires ValidIds(t, ids) && k < |ids|
    ensures SumCur(t, ids[..k + 1]) == SumCur(t, ids[..k]) + t[ids[k]].current
  {
    assert ids[..k + 1] == ids[..k] + [ids[k]];
    SumCurConcat(t, ids[..k], [ids[k]]);
  }

  lemma TotalAppend(t: seq<Txn>, r: Txn)
    ensures Total(t + [r]) == Total(t) + r.current
    ensures forall p :: PayerTotal(t + [r], p) == PayerTotal(t, p) + (if r.payer == p then r.current else 0)
  {
    assert (t + [r])[..|t|] == t;
  }

  /** Replacing one row changes the total by the difference of the two rows' unspent amounts. */
  lemma {:induction false} TotalUpdate(t: seq<Txn>, i: nat, r: Txn)
    requires i < |t|
    ensures Total(t[i := r]) == Total(t) - t[i].current + r.current
  {
    var n := |t| - 1;
    if i == n {
      assert t[i := r][..n] == t[..n];
    } else {
      assert t[i := r][..n] == t[..n][i := r];
      TotalUpdate(t[..n], i, r);
    }
  }

  /** Replacing one row changes each payer's total by that row's contribution only. */
  lemma {:induction false} PayerTotalUpdate(t: seq<Txn>, i: nat, r: Txn, p: string)
    requires i < |t|
    ensures PayerTotal(t[i := r], p)
         == PayerTotal(t, p) - (if t[i].payer == p then t[i].current else 0)
                             + (if r.payer == p then r.current else 0)
  {
    var n := |t| - 1;
    if i == n {
      assert t[i := r][..n] == t[..n];
    } else {
      assert t[i := r][..n] == t[..n][i := r];
      PayerTotalUpdate(t[..n], i, r, p);
    }
  }

  /** The points every row granted, a clawback counting 0. */
  function Granted(t: seq<Txn>): int {
    if t == [] then 0 else Granted(t[..|t| - 1]) + Max(t[|t| - 1].points, 0)
  }

  /** The table's unspent total never exceeds the points ever granted. */
  lemma {:induction false} TotalWithinGranted(t: seq<Txn>)
    requires TableOk(t)
    ensures 0 <= Total(t) <= Granted(t)
  {
    if t != [] {
      TotalWithinGranted(t[..|t| - 1]);
    }
  }
}
