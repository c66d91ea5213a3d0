/** The insertion-ordered dictionaries the endpoints answer with, keyed by
    payer: a list of entries with no key twice, where a new key goes at the
    end and an existing key keeps its place. */
module Dicts {
  import opened Lists

  datatype Entry = Entry(payer: string, points: int)

  /** The keys in insertion order. */
  function Keys(d: seq<Entry>): (r: seq<string>)
    ensures |r| == |d| && forall k :: 0 <= k < |d| ==> r[k] == d[k].payer
  {
    if d == [] then [] else [d[0].payer] + Keys(d[1..])
  }

  /** The value stored under payer `p`, or 0 when `p` is not a key. */
  function Lookup(d: seq<Entry>, p: string): int {
    if d == [] then 0
    else if d[0].payer == p then d[0].points
    else Lookup(d[1..], p)
  }

  /** The sum of all values. */
  function SumValues(d: seq<Entry>): int {
    if d == [] then 0 else d[0].points + SumValues(d[1..])
  }

  /** `if p not in d: d[p] = 0` followed by `d[p] -= x`: charges `x` points
      to payer `p`. */
  function Subtract(d: seq<Entry>, p: string, x: int): seq<Entry> {
    if d == [] then [Entry(p, -x)]
    else if d[0].payer == p then [Entry(p, d[0].points - x)] + d[1..]
    else [d[0]] + Subtract(d[1..], p, x)
  }

  /** A new payer goes at the end; a payer already present keeps its place. */
  lemma {:induction false} SubtractKeys(d: seq<Entry>, p: string, x: int)
    ensures Keys(Subtract(d, p, x)) == if p in Keys(d) then Keys(d) else Keys(d) + [p]
  {
    if d != [] && d[0].payer != p {
      SubtractKeys(d[1..], p, x);
      assert Keys(d) == [d[0].payer] + Keys(d[1..]);
      assert Subtract(d, p, x)[1..] == Subtract(d[1..], p, x);
    }
  }

  /** The values drop by `x` in total. */
  lemma {:induction false} SubtractSum(d: seq<Entry>, p: string, x: int)
    ensures SumValues(Subtract(d, p, x)) == SumValues(d) - x
  {
    if d != [] && d[0].payer != p {
      SubtractSum(d[1..], p, x);
      assert Subtract(d, p, x)[1..] == Subtract(d[1..], p, x);
    } else if d != [] {
      assert ([Entry(p, d[0].points - x)] + d[1..])[1..] == d[1..];
    }
  }

  /** Charging `x` to `p` lowers `p`'s value by `x` and no other value. */
  lemma {:induction false} SubtractLookup(d: seq<Entry>, p: string, x: int, q: string)
    ensures Lookup(Subtract(d, p, x), q) == Lookup(d, q) - (if q == p then x else 0)
  {
    if d != [] && d[0].payer != p {
      SubtractLookup(d[1..], p, x, q);
    }
  }

  /** A positive charge keeps every value negative. */
  lemma {:induction false} SubtractNegative(d: seq<Entry>, p: string, x: int)
    requires x > 0 && forall k :: 0 <= k < |d| ==> d[k].points < 0
    ensures forall k :: 0 <= k < |Subtract(d, p, x)| ==> Subtract(d, p, x)[k].points < 0
  {
    if d != [] && d[0].payer != p {
      SubtractNegative(d[1..], p, x);
      assert Subtract(d, p, x) == [d[0]] + Subtract(d[1..], p, x);
    }
  }
}
