/** Sequence helpers shared by the components: JavaScript's `Array.prototype.filter`,
    the image of a sequence under a key (what `new Set(xs.map(f))` holds), order-preserving
    subsequences and sums. */
module Seqs {

  /** `s.filter(p)`: the elements of `s` that satisfy `p`, in their original order. */
  function Filter<T(!new)>(s: seq<T>, p: T -> bool): (r: seq<T>)
    ensures |r| <= |s|
    ensures forall i :: 0 <= i < |r| ==> p(r[i])
    ensures forall x :: x in r <==> x in s && p(x)
  {
    if s == [] then []
    else if p(s[0]) then [s[0]] + Filter(s[1..], p)
    else Filter(s[1..], p)
  }

  /** A filter keeps every copy of what it keeps: each element occurs in the result as often as
      in `s` when it satisfies `p`, and not at all otherwise. */
  lemma {:induction false} FilterMultiplicity<T(!new)>(s: seq<T>, p: T -> bool)
    ensures forall x :: multiset(Filter(s, p))[x] == if p(x) then multiset(s)[x] else 0
  {
    if s != [] {
      FilterMultiplicity(s[1..], p);
      assert s == [s[0]] + s[1..];
      if p(s[0]) {
        assert multiset(Filter(s, p)) == multiset([s[0]]) + multiset(Filter(s[1..], p));
      }
    }
  }

  /** `idx` picks out `r` from `s` at strictly increasing positions. */
  ghost predicate PicksOut<T>(r: seq<T>, s: seq<T>, idx: seq<int>)
  {
    && |idx| == |r|
    && (forall k :: 0 <= k < |idx| ==> 0 <= idx[k] < |s| && r[k] == s[idx[k]])
    && (forall k, l :: 0 <= k < l < |idx| ==> idx[k] < idx[l])
  }

  /** `r` is an order-preserving subsequence of `s`. */
  ghost predicate IsSubsequence<T>(r: seq<T>, s: seq<T>)
  {
    exists idx :: PicksOut(r, s, idx)
  }

  /** A subsequence of a subsequence is a subsequence. */
  lemma SubsequenceTransitive<T>(a: seq<T>, b: seq<T>, c: seq<T>)
    requires IsSubsequence(a, b) && IsSubsequence(b, c)
    ensures IsSubsequence(a, c)
  {
    var ab :| PicksOut(a, b, ab);
    var bc :| PicksOut(b, c, bc);
    var ac := seq(|ab|, k requires 0 <= k < |ab| => bc[ab[k]]);
    assert PicksOut(a, c, ac);
  }

  /** Positions picked out of `s[1..]`, moved up by one, pick the same elements out of `s`, and
      `s[0]` can go in front of them. */
  lemma PicksOutPastHead<T>(r: seq<T>, s: seq<T>, idx: seq<int>) returns (shifted: seq<int>)
    requires |s| > 0 && PicksOut(r, s[1..], idx)
    ensures PicksOut(r, s, shifted) && PicksOut([s[0]] + r, s, [0] + shifted)
  {
    shifted := seq(|idx|, k requires 0 <= k < |idx| => idx[k] + 1);
    forall k | 0 <= k < |idx|
      ensures 0 < shifted[k] < |s| && r[k] == s[shifted[k]]
    {
      assert s[1..][idx[k]] == s[idx[k] + 1];
    }
    assert PicksOut(r, s, shifted);
    var front := [0] + shifted;
    assert forall k :: 0 < k < |front| ==> front[k] == shifted[k - 1];
  }

  /** The positions at which `Filter` picks its elements. */
  lemma {:induction false} FilterPositions<T(!new)>(s: seq<T>, p: T -> bool) returns (idx: seq<int>)
    ensures PicksOut(Filter(s, p), s, idx)
  {
    if s == [] {
      idx := [];
    } else {
      var rest := FilterPositions(s[1..], p);
      var shifted := PicksOutPastHead(Filter(s[1..], p), s, rest);
      if p(s[0]) {
        idx := [0] + shifted;
      } else {
        idx := shifted;
      }
    }
  }

  /** A filter keeps the order of what it keeps. */
  lemma FilterIsSubsequence<T(!new)>(s: seq<T>, p: T -> bool)
    ensures IsSubsequence(Filter(s, p), s)
  {
    var idx := FilterPositions(s, p);
  }

  /** Filtering distributes over concatenation. */
  lemma {:induction false} FilterAppend<T(!new)>(a: seq<T>, b: seq<T>, p: T -> bool)
    ensures Filter(a + b, p) == Filter(a, p) + Filter(b, p)
  {
    if a == [] {
      assert a + b == b;
    } else {
      assert (a + b)[1..] == a[1..] + b;
      FilterAppend(a[1..], b, p);
    }
  }

  /** Filtering a sequence extended by one element. */
  lemma FilterSnoc<T(!new)>(s: seq<T>, x: T, p: T -> bool)
    ensures Filter(s + [x], p) == if p(x) then Filter(s, p) + [x] else Filter(s, p)
  {
    FilterAppend(s, [x], p);
    assert [x][1..] == [];
  }

  /** A predicate that holds of every element keeps the whole sequence. */
  lemma {:induction false} FilterAll<T(!new)>(s: seq<T>, p: T -> bool)
    requires forall x :: x in s ==> p(x)
    ensures Filter(s, p) == s
  {
    if s != [] {
      FilterAll(s[1..], p);
    }
  }

  /** A filter keeps the whole length exactly when every element passes. */
  lemma {:induction false} FilterKeepsAllIff<T(!new)>(s: seq<T>, p: T -> bool)
    ensures |Filter(s, p)| == |s| <==> forall x :: x in s ==> p(x)
  {
    if s != [] {
      FilterKeepsAllIff(s[1..], p);
      assert forall x :: x in s <==> x == s[0] || x in s[1..];
    }
  }

  /** A predicate that holds of no element keeps nothing. */
  lemma {:induction false} FilterNone<T(!new)>(s: seq<T>, p: T -> bool)
    requires forall x :: x in s ==> !p(x)
    ensures Filter(s, p) == []
  {
    if s != [] {
      FilterNone(s[1..], p);
    }
  }

  /** Two tests that agree everywhere filter alike. */
  lemma {:induction false} FilterSameTest<T(!new)>(s: seq<T>, p: T -> bool, q: T -> bool)
    requires forall x :: p(x) == q(x)
    ensures Filter(s, p) == Filter(s, q)
  {
    if s != [] {
      FilterSameTest(s[1..], p, q);
    }
  }

  /** Counting by a predicate and by its negation accounts for every element once. */
  lemma {:induction false} FilterSplit<T(!new)>(s: seq<T>, p: T -> bool, q: T -> bool)
    requires forall x :: q(x) == !p(x)
    ensures |Filter(s, p)| + |Filter(s, q)| == |s|
  {
    if s != [] {
      FilterSplit(s[1..], p, q);
    }
  }

  /** Counting by a disjunction of exclusive predicates adds the two counts. */
  lemma {:induction false} FilterDisjoint<T(!new)>(s: seq<T>, p: T -> bool, q: T -> bool, pq: T -> bool)
    requires forall x :: !(p(x) && q(x))
    requires forall x :: pq(x) == (p(x) || q(x))
    ensures |Filter(s, pq)| == |Filter(s, p)| + |Filter(s, q)|
  {
    if s != [] {
      FilterDisjoint(s[1..], p, q, pq);
    }
  }

  /** The set of keys `f(x)` over the elements `x` of `s`: what `new Set(s.map(f))` holds. */
  function Image<T(!new), K(==,!new)>(s: seq<T>, f: T -> K): (r: set<K>)
    ensures |r| <= |s|
    ensures r == {} <==> s == []
    ensures forall k :: k in r <==> exists x :: x in s && f(x) == k
  {
    if s == [] then {}
    else
      var rest := Image(s[1..], f);
      assert forall x :: x in s <==> x == s[0] || x in s[1..];
      {f(s[0])} + rest
  }

  /** The sum of a sequence of naturals. */
  function Sum(s: seq<nat>): nat
  {
    if s == [] then 0 else s[0] + Sum(s[1..])
  }

  /** The size of each element, element by element. */
  function Sizes<T>(s: seq<T>, size: T -> nat): (r: seq<nat>)
    ensures |r| == |s|
    ensures forall i :: 0 <= i < |s| ==> r[i] == size(s[i])
  {
    if s == [] then [] else [size(s[0])] + Sizes(s[1..], size)
  }

  /** Dropping the elements of size zero leaves the total size unchanged. */
  lemma {:induction false} SumDropZeros<T(!new)>(s: seq<T>, size: T -> nat, nonEmpty: T -> bool)
    requires forall x :: nonEmpty(x) == (size(x) > 0)
    ensures Sum(Sizes(Filter(s, nonEmpty), size)) == Sum(Sizes(s, size))
  {
    if s != [] {
      SumDropZeros(s[1..], size, nonEmpty);
      var kept := Filter(s[1..], nonEmpty);
      if nonEmpty(s[0]) {
        assert ([s[0]] + kept)[1..] == kept;
      }
    }
  }

  /** The reverse of a sequence: what `s.slice().reverse()` returns. */
  function Reverse<T>(s: seq<T>): (r: seq<T>)
    ensures |r| == |s|
    ensures forall k :: 0 <= k < |s| ==> r[k] == s[|s| - 1 - k]
  {
    if s == [] then [] else Reverse(s[1..]) + [s[0]]
  }
}
