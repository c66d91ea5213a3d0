/** Facts about plain sequences used by every part of the ledger. */
module Lists {

  predicate Distinct<T(==)>(s: seq<T>) {
    forall a, b :: 0 <= a < b < |s| ==> s[a] != s[b]
  }

  /** `s` with every value kept at its first occurrence only, in order: the
      keys of an insertion-ordered dictionary filled from `s`. */
  function FirstOccurrences(s: seq<string>): (r: seq<string>)
    ensures Distinct(r)
    ensures forall x :: x in r <==> x in s
    decreases |s|
  {
    if s == [] then []
    else
      var n := |s| - 1;
      var r0 := FirstOccurrences(s[..n]);
      assert s == s[..n] + [s[n]];
      if s[n] in r0 then r0 else r0 + [s[n]]
  }

  /** One more value is kept only if it is new. */
  lemma FirstOccurrencesSnoc(s: seq<string>, x: string)
    ensures FirstOccurrences(s + [x])
         == if x in FirstOccurrences(s) then FirstOccurrences(s) else FirstOccurrences(s) + [x]
  {
    assert (s + [x])[..|s|] == s;
  }

  /** The position of the first occurrence of `x` in `s`. */
  function FirstIndex(s: seq<string>, x: string): (k: nat)
    requires x in s
    ensures k < |s| && s[k] == x
    ensures forall j :: 0 <= j < k ==> s[j] != x
    decreases |s|
  {
    var n := |s| - 1;
    if x in s[..n] then
      var k := FirstIndex(s[..n], x);
      assert s[..n][k] == s[k];
      assert forall j :: 0 <= j < k ==> s[..n][j] == s[j];
      k
    else
      assert s == s[..n] + [s[n]];
      assert forall j :: 0 <= j < n ==> s[..n][j] == s[j];
      n
  }

  /** The values `FirstOccurrences` keeps come in the order in which they
      first occur. */
  lemma {:induction false} FirstOccurrencesOrdered(s: seq<string>)
    ensures forall a, b :: 0 <= a < b < |FirstOccurrences(s)| ==>
      FirstIndex(s, FirstOccurrences(s)[a]) < FirstIndex(s, FirstOccurrences(s)[b])
    decreases |s|
  {
    if s != [] {
      var n := |s| - 1;
      var r0 := FirstOccurrences(s[..n]);
      FirstOccurrencesOrdered(s[..n]);
      forall k | 0 <= k < |r0|
        ensures r0[k] in s[..n] && FirstIndex(s, r0[k]) == FirstIndex(s[..n], r0[k])
      {
        assert r0[k] in r0;
      }
    }
  }
}
