/** The LINQ shapes the services are written in: `Where` and `Count` over a list. */
module Seqs {

  /** `Where(p)`: the elements satisfying `p`, in their original order. */
  function Filter<T>(s: seq<T>, p: T -> bool): (r: seq<T>)
    ensures |r| <= |s|
    ensures forall i :: 0 <= i < |r| ==> r[i] in s && p(r[i])
    ensures forall i :: 0 <= i < |s| && p(s[i]) ==> s[i] in r
  {
    if |s| == 0 then []
    else
      var init := s[..|s| - 1];
      assert s == init + [s[|s| - 1]];
      Filter(init, p) + (if p(s[|s| - 1]) then [s[|s| - 1]] else [])
  }

  /** Filtering distributes over concatenation, so the filter keeps the store order. */
  lemma {:induction false} FilterAppend<T>(s: seq<T>, t: seq<T>, p: T -> bool)
    ensures Filter(s + t, p) == Filter(s, p) + Filter(t, p)
  {
    if |t| == 0 {
      assert s + t == s;
    } else {
      var last := t[|t| - 1];
      var init := t[..|t| - 1];
      assert s + t == (s + init) + [last];
      assert (s + t)[..|s + t| - 1] == s + init;
      FilterAppend(s, init, p);
    }
  }

  /** A filter keeps every element exactly when every element satisfies the predicate, and then it is the identity. */
  lemma {:induction false} FilterKeepsAll<T>(s: seq<T>, p: T -> bool)
    ensures |Filter(s, p)| == |s| <==> forall i :: 0 <= i < |s| ==> p(s[i])
    ensures (forall i :: 0 <= i < |s| ==> p(s[i])) ==> Filter(s, p) == s
  {
    if |s| > 0 {
      var init := s[..|s| - 1];
      FilterKeepsAll(init, p);
      assert forall i :: 0 <= i < |init| ==> init[i] == s[i];
      assert s == init + [s[|s| - 1]];
    }
  }

  /** A filter is empty exactly when no element satisfies the predicate. */
  lemma FilterEmpty<T>(s: seq<T>, p: T -> bool)
    ensures |Filter(s, p)| == 0 <==> forall i :: 0 <= i < |s| ==> !p(s[i])
  {
    var r := Filter(s, p);
    if |r| > 0 {
      var i :| 0 <= i < |s| && s[i] == r[0];
    }
  }

  /** Every element satisfies `p`, checked from the last one back, the way the sums here are built. */
  predicate Every<T>(s: seq<T>, p: T -> bool)
  {
    |s| == 0 || (p(s[|s| - 1]) && Every(s[..|s| - 1], p))
  }

  /** `Count(p)`. */
  function Count<T>(s: seq<T>, p: T -> bool): nat
  {
    |Filter(s, p)|
  }

  /** Counting over a concatenation adds up, and a count never exceeds the length. */
  lemma CountAppend<T>(s: seq<T>, t: seq<T>, p: T -> bool)
    ensures Count(s + t, p) == Count(s, p) + Count(t, p)
    ensures Count(s, p) <= |s|
  {
    FilterAppend(s, t, p);
  }

  /** Replacing one element changes a count by what the old element and the new one contribute. */
  lemma {:induction false} CountUpdate<T>(s: seq<T>, k: int, x: T, p: T -> bool)
    requires 0 <= k < |s|
    ensures Count(s[k := x], p) == Count(s, p) - (if p(s[k]) then 1 else 0) + (if p(x) then 1 else 0)
  {
    var n := |s|;
    if k == n - 1 {
      assert s[k := x][..n - 1] == s[..n - 1];
    } else {
      assert s[k := x][..n - 1] == s[..n - 1][k := x];
      CountUpdate(s[..n - 1], k, x, p);
    }
  }
}
