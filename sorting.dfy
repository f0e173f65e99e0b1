/**
  `list.sort(reverse=True)` on font sizes, which both threshold calculators
  call.  It is a library call, so it is modelled as a function: an insertion
  sort proved to return a descending permutation of its input, together with
  the fact that such a permutation is unique, so that anything computed from
  the sorted list depends only on the multiset of sizes.
*/
module Sorting {

  predicate Descending(s: seq<real>) {
    forall i, j :: 0 <= i < j < |s| ==> s[i] >= s[j]
  }

  function Insert(x: real, s: seq<real>): (r: seq<real>)
    requires Descending(s)
    ensures |r| == |s| + 1
    ensures multiset(r) == multiset(s) + multiset{x}
    ensures Descending(r)
  {
    if s == [] || x >= s[0] then [x] + s
    else
      var t := Insert(x, s[1..]);
      assert s == [s[0]] + s[1..];
      AtMostHead(s, x, t);
      [s[0]] + t
  }

  /** Every element of `t`, a rearrangement of `s[1..]` plus a smaller `x`,
      is at most the head of `s`, so putting that head in front keeps the
      order. */
  lemma {:induction false} AtMostHead(s: seq<real>, x: real, t: seq<real>)
    requires Descending(s) && s != [] && x < s[0]
    requires Descending(t) && multiset(t) == multiset(s[1..]) + multiset{x}
    ensures Descending([s[0]] + t)
  {
    forall k | 0 <= k < |t| ensures s[0] >= t[k] {
      assert t[k] in multiset(t);
      if t[k] != x {
        assert t[k] in multiset(s[1..]);
        var j :| 0 <= j < |s[1..]| && s[1..][j] == t[k];
        assert s[j + 1] == t[k];
      }
    }
  }

  /** `sorted(s, reverse=True)` */
  function SortDescending(s: seq<real>): (r: seq<real>)
    ensures |r| == |s|
    ensures multiset(r) == multiset(s)
    ensures Descending(r)
  {
    if s == [] then []
    else
      assert s == [s[0]] + s[1..];
      Insert(s[0], SortDescending(s[1..]))
  }

  /** The head of a descending list is at least every element of it. */
  lemma {:induction false} HeadIsMax(s: seq<real>, x: real)
    requires Descending(s) && x in multiset(s)
    ensures s != [] && s[0] >= x
  {
    var i :| 0 <= i < |s| && s[i] == x;
  }

  /** Two descending lists with the same elements are equal: sorting
      forgets the order in which sizes were collected. */
  lemma {:induction false} DescendingUnique(a: seq<real>, b: seq<real>)
    requires Descending(a) && Descending(b)
    requires multiset(a) == multiset(b)
    ensures a == b
    decreases |a|
  {
    if a != [] {
      assert a[0] in multiset(a);
      HeadIsMax(b, a[0]);
      assert b[0] in multiset(b);
      HeadIsMax(a, b[0]);
      assert a[0] == b[0];
      assert a == [a[0]] + a[1..];
      assert b == [b[0]] + b[1..];
      assert multiset(a) == multiset{a[0]} + multiset(a[1..]);
      assert multiset(b) == multiset{b[0]} + multiset(b[1..]);
      assert multiset(a[1..]) == multiset(a) - multiset{a[0]};
      assert multiset(b[1..]) == multiset(b) - multiset{b[0]};
      DescendingUnique(a[1..], b[1..]);
    } else {
      assert |b| == |multiset(b)| == 0;
    }
  }

  /** Sorting two lists with the same elements gives the same list. */
  lemma {:induction false} SortPermutationInvariant(a: seq<real>, b: seq<real>)
    requires multiset(a) == multiset(b)
    ensures SortDescending(a) == SortDescending(b)
  {
    DescendingUnique(SortDescending(a), SortDescending(b));
  }

  lemma {:induction false} SortedMember(all: seq<real>, sorted: seq<real>, k: nat)
    requires multiset(sorted) == multiset(all) && k < |sorted|
    ensures sorted[k] in all
  {
    assert sorted[k] in multiset(sorted);
  }

  /** The indices int(n*0.05) <= int(n*0.15) <= int(n*0.30) <= n//2 < n. */
  lemma {:induction false} PercentileIndices(n: nat)
    requires n > 0
    ensures 0 <= n * 5 / 100 <= n * 15 / 100 <= n * 30 / 100 <= n / 2 < n
  {
  }
}
