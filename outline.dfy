/**
  The outline vocabulary shared by both heading engines: a heading level,
  an outline entry (level, text, page) and an optional level, which is what
  the per-block classifiers return (`"H1"`, `"H2"`, `"H3"` or `None`).
*/
module Outline {

  datatype Option<+T> = None | Some(value: T)

  datatype Level = H1 | H2 | H3

  /** One outline entry: `{"level": ..., "text": ..., "page": ...}` (the
      richer engine calls the level field "type"). */
  datatype Heading = Heading(level: Level, text: string, page: int)

  /** Strength of a classification: no heading < H3 < H2 < H1. */
  function Rank(l: Option<Level>): nat {
    match l
    case None => 0
    case Some(H3) => 1
    case Some(H2) => 2
    case Some(H1) => 3
  }

  /** Some entry of `hs` has level `l`. */
  predicate HasLevel(hs: seq<Heading>, l: Level) {
    exists j :: 0 <= j < |hs| && hs[j].level == l
  }

  /** The four font-size cut points `{"h1", "h2", "h3", "body"}`. */
  datatype Thresholds = Thresholds(h1: real, h2: real, h3: real, body: real)

  /** What both engines use when the document has no font sizes at all. */
  const DefaultThresholds := Thresholds(16.0, 14.0, 12.0, 10.0)

  /** Size score: 3, 2, 1 or 0 by the first of h1, h2, h3 (tested top-down)
      that the size reaches. */
  function SizeScore(size: real, t: Thresholds): (r: nat)
    ensures r <= 3
    ensures r == 3 <==> size >= t.h1
    ensures r == 0 <==> size < t.h1 && size < t.h2 && size < t.h3
  {
    if size >= t.h1 then 3 else if size >= t.h2 then 2 else if size >= t.h3 then 1 else 0
  }

  /** A larger size never scores lower, whatever the thresholds (they need
      not be ordered). */
  lemma {:induction false} SizeScoreMonotone(small: real, large: real, t: Thresholds)
    requires small <= large
    ensures SizeScore(small, t) <= SizeScore(large, t)
  {
  }

  /** Both engines agree on how a combined score maps to a level:
      4 or more is H1, 3 is H2, 2 is H3, anything lower is no heading. */
  function LevelForTotal(total: int): Option<Level> {
    if total >= 4 then Some(H1) else if total == 3 then Some(H2) else if total == 2 then Some(H3) else None
  }

  /** A higher total never gives a weaker level. */
  lemma {:induction false} LevelForTotalMonotone(low: int, high: int)
    requires low <= high
    ensures Rank(LevelForTotal(low)) <= Rank(LevelForTotal(high))
  {
  }

  /** The present values of `os`, in order. */
  function Somes<T>(os: seq<Option<T>>): seq<T> {
    if os == [] then []
    else
      var rest := Somes(os[..|os| - 1]);
      match os[|os| - 1]
      case None => rest
      case Some(h) => rest + [h]
  }

  lemma {:induction false} SomesMember<T>(os: seq<Option<T>>, x: T)
    requires x in Somes(os)
    ensures Some(x) in os
  {
    if os != [] {
      var init := os[..|os| - 1];
      if x in Somes(init) {
        SomesMember(init, x);
        var i :| 0 <= i < |init| && init[i] == Some(x);
        assert os[i] == Some(x);
      } else {
        assert os[|os| - 1] == Some(x);
      }
    }
  }

  /** One more optional value. */
  lemma {:induction false} SomesStep<T>(os: seq<Option<T>>, b: nat)
    requires b < |os|
    ensures Somes(os[..b + 1]) == Somes(os[..b]) + (if os[b].Some? then [os[b].value] else [])
  {
    assert os[..b + 1][..b] == os[..b];
  }

  /** The outline's page numbers never go down. */
  predicate PagesNonDecreasing(hs: seq<Heading>) {
    forall i, j :: 0 <= i < j < |hs| ==> hs[i].page <= hs[j].page
  }

  lemma {:induction false} PagesNonDecreasingConcat(a: seq<Heading>, b: seq<Heading>, q: int)
    requires PagesNonDecreasing(a)
    requires forall h | h in a :: h.page <= q
    requires forall h | h in b :: h.page == q
    ensures PagesNonDecreasing(a + b)
  {
    var c := a + b;
    forall i, j | 0 <= i < j < |c| ensures c[i].page <= c[j].page {
      if j >= |a| {
        assert c[j] == b[j - |a|] && b[j - |a|] in b;
        if i < |a| {
          assert c[i] == a[i] && a[i] in a;
        } else {
          assert c[i] == b[i - |a|] && b[i - |a|] in b;
        }
      }
    }
  }
}
