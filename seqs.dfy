/** Positions in sequences and the "listed in the order of" relation. */
module Seqs {

  /** `s.index(x)` when present, -1 otherwise. */
  function IndexOf<T(==)>(s: seq<T>, x: T): (r: int)
    ensures -1 <= r
    ensures r == -1 <==> x !in s
    ensures 0 <= r ==> r < |s| && s[r] == x && x !in s[..r]
  {
    if |s| == 0 then -1
    else if s[0] == x then 0
    else
      assert s == [s[0]] + s[1..];
      var k := IndexOf(s[1..], x);
      if k == -1 then -1 else k + 1
  }

  /** The first `x` of `a + [x] + b` is the one after `a` when `a` holds none. */
  lemma IndexOfPast<T>(a: seq<T>, x: T, b: seq<T>)
    requires x !in a
    ensures IndexOf(a + [x] + b, x) == |a|
  {
    var s := a + [x] + b;
    assert s[|a|] == x;
    if IndexOf(s, x) < |a| {
      assert s[IndexOf(s, x)] in a;
    }
  }

  /** The elements of `s` are distinct. */
  predicate Distinct<T(==)>(s: seq<T>)
  {
    forall i, j :: 0 <= i < j < |s| ==> s[i] != s[j]
  }

  /** In a sequence of distinct elements, the position of an element is its index. */
  lemma IndexOfDistinct<T>(s: seq<T>, i: int)
    requires Distinct(s) && 0 <= i < |s|
    ensures IndexOf(s, s[i]) == i
  {
  }

  /**
   * Every element of `r` is taken from `u`, at strictly increasing positions of `u`:
   * `r` lists some of `u`'s elements, each at most once, in `u`'s order.
   */
  predicate InOrderOf<T(==)>(r: seq<T>, u: seq<T>)
  {
    (forall i :: 0 <= i < |r| ==> r[i] in u)
    && (forall i, j :: 0 <= i < j < |r| ==> IndexOf(u, r[i]) < IndexOf(u, r[j]))
  }
}
