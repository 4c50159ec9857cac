/** Re-ranking order: `concept_scores.sort(key=lambda x: x[1], reverse=True)`
    on a list of (item, score) pairs. Python's sort is stable also with
    `reverse=True`: pairs with equal scores keep their original order. The
    sort is modelled as a stable insertion sort on the sequence and is
    characterised by three lemmas: the result is ordered by descending score,
    it is a permutation of the input, and for each score value the pairs with
    that score appear in input order. */
module Ranking {

  type Scored<T> = (T, real)

  /** Inserts `x` before the first pair whose score is not greater than its own. */
  function InsertDesc<T>(x: Scored<T>, s: seq<Scored<T>>): (r: seq<Scored<T>>)
    ensures |r| == |s| + 1
  {
    if |s| == 0 || x.1 >= s[0].1 then [x] + s else [s[0]] + InsertDesc(x, s[1..])
  }

  /** The list after the stable descending sort by score. */
  function SortDesc<T>(s: seq<Scored<T>>): (r: seq<Scored<T>>)
    ensures |r| == |s|
  {
    if |s| == 0 then [] else InsertDesc(s[0], SortDesc(s[1..]))
  }

  predicate SortedDesc<T>(s: seq<Scored<T>>)
  {
    forall i, j :: 0 <= i < j < |s| ==> s[i].1 >= s[j].1
  }

  /** The pairs of `s` whose score is `v`, in order. */
  function WithScore<T>(s: seq<Scored<T>>, v: real): (r: seq<Scored<T>>)
    ensures |r| <= |s|
  {
    if |s| == 0 then []
    else (if s[0].1 == v then [s[0]] else []) + WithScore(s[1..], v)
  }

  lemma {:induction false} InsertDescSorted<T>(x: Scored<T>, s: seq<Scored<T>>)
    requires SortedDesc(s)
    ensures SortedDesc(InsertDesc(x, s))
    ensures forall i :: 0 <= i < |InsertDesc(x, s)| ==> InsertDesc(x, s)[i] == x || InsertDesc(x, s)[i] in s
  {
    if |s| > 0 && x.1 < s[0].1 {
      InsertDescSorted(x, s[1..]);
      var r := InsertDesc(x, s[1..]);
      forall i | 0 <= i < |r| ensures r[i].1 <= s[0].1 {
        if r[i] != x {
          assert r[i] in s[1..];
        }
      }
    }
  }

  /** The sorted list is ordered by descending score. */
  lemma {:induction false} SortDescSorted<T>(s: seq<Scored<T>>)
    ensures SortedDesc(SortDesc(s))
  {
    if |s| > 0 {
      SortDescSorted(s[1..]);
      InsertDescSorted(s[0], SortDesc(s[1..]));
    }
  }

  lemma {:induction false} InsertDescPerm<T>(x: Scored<T>, s: seq<Scored<T>>)
    ensures multiset(InsertDesc(x, s)) == multiset([x]) + multiset(s)
  {
    if |s| > 0 && x.1 < s[0].1 {
      InsertDescPerm(x, s[1..]);
      assert s == [s[0]] + s[1..];
    }
  }

  /** The sorted list holds exactly the pairs of the input, each as often. */
  lemma {:induction false} SortDescPerm<T>(s: seq<Scored<T>>)
    ensures multiset(SortDesc(s)) == multiset(s)
  {
    if |s| > 0 {
      SortDescPerm(s[1..]);
      InsertDescPerm(s[0], SortDesc(s[1..]));
      assert s == [s[0]] + s[1..];
    }
  }

  lemma {:induction false} InsertDescStable<T>(x: Scored<T>, s: seq<Scored<T>>, v: real)
    ensures WithScore(InsertDesc(x, s), v) == (if x.1 == v then [x] else []) + WithScore(s, v)
  {
    var r := InsertDesc(x, s);
    if |s| > 0 && x.1 < s[0].1 {
      InsertDescStable(x, s[1..], v);
      assert r[0] == s[0] && r[1..] == InsertDesc(x, s[1..]);
      assert WithScore(r, v) == (if s[0].1 == v then [s[0]] else []) + WithScore(r[1..], v);
      assert WithScore(s, v) == (if s[0].1 == v then [s[0]] else []) + WithScore(s[1..], v);
      if x.1 == v {
        assert s[0].1 != v;
      }
    } else {
      assert r == [x] + s;
      assert r[0] == x && r[1..] == s;
    }
  }

  /** Stability: the pairs that share a score keep their input order. */
  lemma {:induction false} SortDescStable<T>(s: seq<Scored<T>>, v: real)
    ensures WithScore(SortDesc(s), v) == WithScore(s, v)
  {
    if |s| > 0 {
      SortDescStable(s[1..], v);
      InsertDescStable(s[0], SortDesc(s[1..]), v);
    }
  }
}
