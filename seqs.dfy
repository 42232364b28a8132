/** The two list primitives the store and the catalogue are built from:
    JavaScript's `Array.prototype.find` and `Array.prototype.filter`,
    together with the subsequence relation that says `filter` keeps order. */
module Seqs {

  datatype Option<+T> = None | Some(value: T)

  /** `r` can be obtained from `xs` by deleting elements (greedy matching). */
  predicate IsSubsequence<T(==)>(r: seq<T>, xs: seq<T>)
    decreases |xs|
  {
    if r == [] then true
    else if xs == [] then false
    else if r[0] == xs[0] then IsSubsequence(r[1..], xs[1..])
    else IsSubsequence(r, xs[1..])
  }

  /** `xs.find(p)`: the first element satisfying `p`, or nothing. */
  function Find<T(==)>(xs: seq<T>, p: T -> bool): (r: Option<T>)
    ensures r.None? <==> forall i :: 0 <= i < |xs| ==> !p(xs[i])
    ensures r.Some? ==> exists i :: 0 <= i < |xs| && xs[i] == r.value && p(r.value)
                                    && forall j :: 0 <= j < i ==> !p(xs[j])
  {
    if xs == [] then None
    else if p(xs[0]) then Some(xs[0])
    else
      var r := Find(xs[1..], p);
      assert forall i :: 1 <= i < |xs| ==> xs[i] == xs[1..][i - 1];
      if r.Some? then
        var k :| 0 <= k < |xs[1..]| && xs[1..][k] == r.value && p(r.value)
                 && forall j :: 0 <= j < k ==> !p(xs[1..][j]);
        assert xs[k + 1] == r.value && forall j :: 0 <= j < k + 1 ==> !p(xs[j]);
        r
      else r
  }

  /** `xs.filter(keep)`: exactly the elements satisfying `keep`, each as often
      as in `xs`, in their original order. */
  function Filter<T(==)>(xs: seq<T>, keep: T -> bool): (r: seq<T>)
    ensures forall i :: 0 <= i < |r| ==> r[i] in xs && keep(r[i])
    ensures forall i :: 0 <= i < |xs| && keep(xs[i]) ==> xs[i] in r
    ensures |r| <= |xs|
    ensures IsSubsequence(r, xs)
  {
    if xs == [] then []
    else
      var rest := Filter(xs[1..], keep);
      if keep(xs[0]) then
        assert ([xs[0]] + rest)[1..] == rest;
        [xs[0]] + rest
      else
        assert rest != [] ==> rest[0] in rest && rest[0] != xs[0];
        rest
  }

  /** `filter` keeps every matching element as often as it occurs in `xs`,
      and nothing else. */
  lemma {:induction false} FilterCounts<T>(xs: seq<T>, keep: T -> bool)
    ensures multiset(Filter(xs, keep)) <= multiset(xs)
    ensures forall i :: 0 <= i < |xs| && keep(xs[i]) ==> multiset(Filter(xs, keep))[xs[i]] == multiset(xs)[xs[i]]
  {
    if xs != [] {
      var rest := Filter(xs[1..], keep);
      FilterCounts(xs[1..], keep);
      assert xs == [xs[0]] + xs[1..];
      assert multiset(xs) == multiset{xs[0]} + multiset(xs[1..]);
      forall i | 1 <= i < |xs| && keep(xs[i])
        ensures multiset(rest)[xs[i]] == multiset(xs[1..])[xs[i]]
      {
        assert xs[i] == xs[1..][i - 1];
      }
      if keep(xs[0]) {
        assert Filter(xs, keep) == [xs[0]] + rest;
        assert multiset([xs[0]] + rest) == multiset{xs[0]} + multiset(rest);
        if xs[0] !in xs[1..] {
          assert multiset(rest)[xs[0]] == 0;
        } else {
          var j :| 0 <= j < |xs[1..]| && xs[1..][j] == xs[0];
        }
      }
    }
  }

  /** Filtering with a predicate that keeps everything is the identity. */
  lemma {:induction false} FilterKeepsAll<T>(xs: seq<T>, keep: T -> bool)
    requires forall i :: 0 <= i < |xs| ==> keep(xs[i])
    ensures Filter(xs, keep) == xs
  {
    if xs != [] {
      FilterKeepsAll(xs[1..], keep);
      assert [xs[0]] + xs[1..] == xs;
    }
  }

  /** Filtering with a predicate that keeps nothing removes everything. */
  lemma {:induction false} FilterKeepsNone<T>(xs: seq<T>, keep: T -> bool)
    requires forall i :: 0 <= i < |xs| ==> !keep(xs[i])
    ensures Filter(xs, keep) == []
  {
    if xs != [] {
      FilterKeepsNone(xs[1..], keep);
    }
  }

  /** When exactly one position fails `keep`, filtering removes exactly one element. */
  lemma {:induction false} FilterDropsOne<T>(xs: seq<T>, keep: T -> bool, k: nat)
    requires k < |xs| && !keep(xs[k])
    requires forall i :: 0 <= i < |xs| && i != k ==> keep(xs[i])
    ensures |Filter(xs, keep)| == |xs| - 1
  {
    if k == 0 {
      FilterKeepsAll(xs[1..], keep);
    } else {
      FilterDropsOne(xs[1..], keep, k - 1);
    }
  }
}
