/**
 * Sequence operations in the shape of the JavaScript array methods the site
 * uses (`filter`, `find`, `includes`, `new Set(...)`), each with the facts the
 * rest of the model relies on.
 */
module Seqs {
  import opened Wrappers

  /** `a` occurs in `b` in order, possibly with other elements in between. */
  predicate IsSubseq<T(==)>(a: seq<T>, b: seq<T>)
    decreases |b|
  {
    if |a| == 0 then true
    else if |b| == 0 then false
    else (a[0] == b[0] && IsSubseq(a[1..], b[1..])) || IsSubseq(a, b[1..])
  }

  /** No element occurs twice. */
  predicate NoDuplicates<T(==)>(s: seq<T>)
  {
    forall i, j :: 0 <= i < j < |s| ==> s[i] != s[j]
  }

  /** `Array.prototype.filter`: the elements of `s` that satisfy `p`, in their original order. */
  function Filter<T>(p: T -> bool, s: seq<T>): (r: seq<T>)
    ensures |r| <= |s|
    ensures forall i :: 0 <= i < |r| ==> p(r[i]) && r[i] in s
    ensures forall x :: x in s && p(x) ==> x in r
    ensures (forall i :: 0 <= i < |s| ==> p(s[i])) ==> r == s
  {
    if |s| == 0 then []
    else if p(s[0]) then [s[0]] + Filter(p, s[1..])
    else Filter(p, s[1..])
  }

  /** Filtering keeps the survivors in order: the result is a subsequence of the input. */
  lemma {:induction false} FilterIsSubseq<T>(p: T -> bool, s: seq<T>)
    ensures IsSubseq(Filter(p, s), s)
  {
    if |s| > 0 {
      FilterIsSubseq(p, s[1..]);
      var r := Filter(p, s[1..]);
      if !p(s[0]) {
        if |r| > 0 {
          assert IsSubseq(r, s[1..]);
        }
      }
    }
  }

  /** Filtering distributes over concatenation. */
  lemma {:induction false} FilterConcat<T>(p: T -> bool, a: seq<T>, b: seq<T>)
    ensures Filter(p, a + b) == Filter(p, a) + Filter(p, b)
  {
    if |a| > 0 {
      assert (a + b)[0] == a[0];
      assert (a + b)[1..] == a[1..] + b;
      FilterConcat(p, a[1..], b);
    } else {
      assert a + b == b;
    }
  }

  /**
   * A test and its complement split a sequence: the two filters together hold
   * every element exactly as often as the sequence does.
   */
  lemma {:induction false} FilterSplit<T>(p: T -> bool, q: T -> bool, s: seq<T>)
    requires forall i :: 0 <= i < |s| ==> (q(s[i]) <==> !p(s[i]))
    ensures multiset(Filter(p, s)) + multiset(Filter(q, s)) == multiset(s)
    ensures |Filter(p, s)| + |Filter(q, s)| == |s|
  {
    if |s| > 0 {
      var t := s[1..];
      assert s == [s[0]] + t;
      FilterSplit(p, q, t);
      var fp, fq := Filter(p, t), Filter(q, t);
      if p(s[0]) {
        assert multiset(Filter(p, s)) == multiset{s[0]} + multiset(fp);
        assert Filter(q, s) == fq;
      } else {
        assert multiset(Filter(q, s)) == multiset{s[0]} + multiset(fq);
        assert Filter(p, s) == fp;
      }
      assert multiset(s) == multiset{s[0]} + multiset(t);
    }
  }

  /** Filters by tests that agree on every element are equal. */
  lemma {:induction false} FilterExt<T>(p: T -> bool, q: T -> bool, s: seq<T>)
    requires forall i :: 0 <= i < |s| ==> p(s[i]) == q(s[i])
    ensures Filter(p, s) == Filter(q, s)
  {
    if |s| > 0 {
      FilterExt(p, q, s[1..]);
    }
  }

  /** The conjunction of two tests. */
  function And<T>(p: T -> bool, q: T -> bool): T -> bool
  {
    x => p(x) && q(x)
  }

  /** Filtering twice is filtering once by both tests. */
  lemma {:induction false} FilterTwice<T>(p: T -> bool, q: T -> bool, s: seq<T>)
    ensures Filter(q, Filter(p, s)) == Filter(And(p, q), s)
  {
    if |s| > 0 {
      FilterTwice(p, q, s[1..]);
      if p(s[0]) {
        assert Filter(p, s) == [s[0]] + Filter(p, s[1..]);
        assert Filter(p, s)[1..] == Filter(p, s[1..]);
      }
    }
  }

  /** Filtering out an element that is present makes the sequence strictly shorter. */
  lemma {:induction false} FilterShorter<T>(p: T -> bool, s: seq<T>, i: nat)
    requires i < |s| && !p(s[i])
    ensures |Filter(p, s)| < |s|
  {
    if i > 0 {
      FilterShorter(p, s[1..], i - 1);
    }
  }

  /** Filtering out the one element that fails the test, with everything around it passing. */
  lemma FilterAround<T>(p: T -> bool, a: seq<T>, x: T, b: seq<T>)
    requires forall i :: 0 <= i < |a| ==> p(a[i])
    requires forall i :: 0 <= i < |b| ==> p(b[i])
    requires !p(x)
    ensures Filter(p, a + [x] + b) == a + b
  {
    assert Filter(p, a) == a;
    assert Filter(p, b) == b;
    assert Filter(p, [x]) == Filter(p, [x][1..]) == [];
    FilterConcat(p, a, [x]);
    assert a + [] == a;
    FilterConcat(p, a + [x], b);
  }

  /** Filtering keeps a duplicate-free sequence duplicate-free. */
  lemma {:induction false} FilterKeepsDistinct<T>(p: T -> bool, s: seq<T>)
    requires NoDuplicates(s)
    ensures NoDuplicates(Filter(p, s))
  {
    if |s| > 0 {
      FilterKeepsDistinct(p, s[1..]);
      var r := Filter(p, s[1..]);
      if p(s[0]) {
        assert s[0] !in s[1..];
        assert s[0] !in r;
        var f := [s[0]] + r;
        forall i, j | 0 <= i < j < |f|
          ensures f[i] != f[j]
        {
          if i > 0 {
            assert f[i] == r[i - 1] && f[j] == r[j - 1];
          } else {
            assert f[j] == r[j - 1];
          }
        }
      }
    }
  }

  /** Filtering by a stronger predicate after a weaker one is filtering by the stronger one alone. */
  lemma {:induction false} FilterNarrow<T>(p: T -> bool, q: T -> bool, s: seq<T>)
    requires forall x :: p(x) ==> q(x)
    ensures Filter(p, Filter(q, s)) == Filter(p, s)
  {
    if |s| > 0 {
      FilterNarrow(p, q, s[1..]);
      if q(s[0]) {
        assert Filter(q, s) == [s[0]] + Filter(q, s[1..]);
        assert (Filter(q, s))[1..] == Filter(q, s[1..]);
      }
    }
  }

  /** Index of the first element satisfying `p` (`Array.prototype.findIndex`), or `None`. */
  function FindIndex<T>(p: T -> bool, s: seq<T>): (r: Option<nat>)
    ensures r.None? <==> forall i :: 0 <= i < |s| ==> !p(s[i])
    ensures r.Some? ==> r.value < |s| && p(s[r.value]) && forall j :: 0 <= j < r.value ==> !p(s[j])
  {
    if |s| == 0 then None
    else if p(s[0]) then Some(0)
    else match FindIndex(p, s[1..])
      case None => None
      case Some(i) => Some(i + 1)
  }

  /** `Array.prototype.find`: the first element satisfying `p`, or `None` (JavaScript's `undefined`). */
  function Find<T>(p: T -> bool, s: seq<T>): (r: Option<T>)
    ensures r.None? <==> forall i :: 0 <= i < |s| ==> !p(s[i])
    ensures r.Some? ==> p(r.value) && r.value in s
    ensures r.Some? ==> exists i :: 0 <= i < |s| && s[i] == r.value && forall j :: 0 <= j < i ==> !p(s[j])
  {
    match FindIndex(p, s)
    case None => None
    case Some(i) => Some(s[i])
  }

  /** `Array.prototype.map`. */
  function Map<T, U>(f: T -> U, s: seq<T>): (r: seq<U>)
    ensures |r| == |s|
    ensures forall i :: 0 <= i < |s| ==> r[i] == f(s[i])
  {
    if |s| == 0 then [] else [f(s[0])] + Map(f, s[1..])
  }

  /** The number of elements of `s` satisfying `p`. */
  function Count<T>(p: T -> bool, s: seq<T>): (n: nat)
    ensures n <= |s|
    ensures n == 0 <==> forall i :: 0 <= i < |s| ==> !p(s[i])
  {
    if |s| == 0 then 0 else (if p(s[0]) then 1 else 0) + Count(p, s[1..])
  }

  /** Counting is the length of the filter. */
  lemma {:induction false} CountIsFilterLength<T>(p: T -> bool, s: seq<T>)
    ensures Count(p, s) == |Filter(p, s)|
  {
    if |s| > 0 {
      CountIsFilterLength(p, s[1..]);
    }
  }

  /** The number of occurrences of `x` in `s`. */
  function Occurrences<T(==)>(x: T, s: seq<T>): (n: nat)
    ensures n <= |s|
    ensures n > 0 <==> x in s
  {
    if |s| == 0 then 0 else (if s[0] == x then 1 else 0) + Occurrences(x, s[1..])
  }

  /** An element of a duplicate-free sequence occurs in it exactly once. */
  lemma {:induction false} OccursOnce<T>(x: T, s: seq<T>)
    requires NoDuplicates(s) && x in s
    ensures Occurrences(x, s) == 1
  {
    if s[0] != x {
      OccursOnce(x, s[1..]);
    } else {
      assert x !in s[1..];
    }
  }

  /** The sum, over the elements of `d`, of their occurrences in `s`. */
  function SumOccurrences<T(==)>(d: seq<T>, s: seq<T>): nat
  {
    if |d| == 0 then 0 else Occurrences(d[0], s) + SumOccurrences(d[1..], s)
  }

  /** Putting `a` in front of `s` adds the number of times `a` occurs in `d` to the sum. */
  lemma {:induction false} SumOccurrencesCons<T>(d: seq<T>, a: T, s: seq<T>)
    ensures SumOccurrences(d, [a] + s) == Occurrences(a, d) + SumOccurrences(d, s)
  {
    assert ([a] + s)[1..] == s;
    if |d| > 0 {
      SumOccurrencesCons(d[1..], a, s);
    }
  }

  /**
   * Counting each element of a duplicate-free `d` in `s`, where `d` covers
   * every element of `s`, accounts for all of `s`.
   */
  lemma {:induction false} SumOccurrencesCovers<T>(d: seq<T>, s: seq<T>)
    requires NoDuplicates(d)
    requires forall i :: 0 <= i < |s| ==> s[i] in d
    ensures SumOccurrences(d, s) == |s|
  {
    if |s| == 0 {
      SumNoOccurrences(d, s);
    } else {
      assert s == [s[0]] + s[1..];
      SumOccurrencesCons(d, s[0], s[1..]);
      OccursOnce(s[0], d);
      SumOccurrencesCovers(d, s[1..]);
    }
  }

  /** Nothing occurs in the empty sequence. */
  lemma {:induction false} SumNoOccurrences<T>(d: seq<T>, s: seq<T>)
    requires |s| == 0
    ensures SumOccurrences(d, s) == 0
  {
    if |d| > 0 {
      SumNoOccurrences(d[1..], s);
    }
  }

  /**
   * `[...new Set(s)]`: the distinct elements of `s` in order of first
   * occurrence (a JavaScript `Set` iterates in insertion order).
   */
  function Dedup<T(==)>(s: seq<T>): (r: seq<T>)
    ensures NoDuplicates(r)
    ensures forall i :: 0 <= i < |r| ==> r[i] in s
    ensures forall i :: 0 <= i < |s| ==> s[i] in r
    ensures |r| <= |s|
    ensures NoDuplicates(s) ==> r == s
  {
    if |s| == 0 then []
    else
      var d := Dedup(s[..|s| - 1]);
      assert s == s[..|s| - 1] + [s[|s| - 1]];
      if s[|s| - 1] in d then d else d + [s[|s| - 1]]
  }

  /** Deduplication keeps the first occurrences in order: the result is a subsequence of the input. */
  lemma {:induction false} DedupIsSubseq<T>(s: seq<T>)
    ensures IsSubseq(Dedup(s), s)
  {
    if |s| > 0 {
      var init, x := s[..|s| - 1], s[|s| - 1];
      var d := Dedup(init);
      DedupIsSubseq(init);
      Snoc(s);
      if x in d {
        assert Dedup(s) == d;
        SubseqAppendRight(d, init, [x]);
      } else {
        assert Dedup(s) == d + [x];
        SubseqAppendBoth(d, init, x);
      }
    }
  }

  /** Extending the larger sequence keeps the subsequence relation. */
  lemma {:induction false} SubseqAppendRight<T>(a: seq<T>, b: seq<T>, c: seq<T>)
    requires IsSubseq(a, b)
    ensures IsSubseq(a, b + c)
    decreases |b|
  {
    if |a| > 0 {
      assert |b| > 0;
      assert (b + c)[1..] == b[1..] + c;
      if a[0] == b[0] && IsSubseq(a[1..], b[1..]) {
        SubseqAppendRight(a[1..], b[1..], c);
      } else {
        SubseqAppendRight(a, b[1..], c);
      }
    }
  }

  /** Appending the same element to both sides keeps the subsequence relation. */
  lemma {:induction false} SubseqAppendBoth<T>(a: seq<T>, b: seq<T>, x: T)
    requires IsSubseq(a, b)
    ensures IsSubseq(a + [x], b + [x])
    decreases |b|
  {
    if |a| == 0 {
      assert a + [x] == [x];
      SubseqSingleton(b, x);
    } else {
      assert |b| > 0;
      assert (a + [x])[0] == a[0] && (a + [x])[1..] == a[1..] + [x];
      assert (b + [x])[0] == b[0] && (b + [x])[1..] == b[1..] + [x];
      if a[0] == b[0] && IsSubseq(a[1..], b[1..]) {
        SubseqAppendBoth(a[1..], b[1..], x);
      } else {
        SubseqAppendBoth(a, b[1..], x);
      }
    }
  }

  /** A sequence ending in `x` has `[x]` as a subsequence. */
  lemma {:induction false} SubseqSingleton<T>(b: seq<T>, x: T)
    ensures IsSubseq([x], b + [x])
    decreases |b|
  {
    if |b| > 0 {
      assert (b + [x])[1..] == b[1..] + [x];
      SubseqSingleton(b[1..], x);
    } else {
      assert IsSubseq([x][1..], []);
    }
  }

  /** A subsequence of a suffix is a subsequence of the whole. */
  lemma {:induction false} SubseqOfSuffix<T>(a: seq<T>, b: seq<T>, k: nat)
    requires k <= |b| && IsSubseq(a, b[k..])
    ensures IsSubseq(a, b)
    decreases k
  {
    if k > 0 {
      assert b[k..] == b[1..][k - 1..];
      SubseqOfSuffix(a, b[1..], k - 1);
      if |a| > 0 {
        assert IsSubseq(a, b[1..]);
      }
    }
  }

  /** A non-empty sequence is its front followed by its last element. */
  lemma Snoc<T>(s: seq<T>)
    requires |s| > 0
    ensures s == s[..|s| - 1] + [s[|s| - 1]]
  {
  }

  /** Re-associating a split-off head element. */
  lemma ConsConcat<T>(g: seq<T>, k: seq<T>)
    requires |g| > 0
    ensures [g[0]] + (g[1..] + k) == g + k
  {
    assert g == [g[0]] + g[1..];
  }

  /** Regrouping a concatenation of six parts after the second. */
  lemma RegroupAfterTwo<T>(a: seq<T>, b: seq<T>, c: seq<T>, d: seq<T>, e: seq<T>, f: seq<T>)
    ensures a + b + c + d + e + f == a + b + (c + d + e + f)
  {
  }

  /** Regrouping a concatenation of six parts around the fourth. */
  lemma RegroupAroundFourth<T>(a: seq<T>, b: seq<T>, c: seq<T>, d: seq<T>, e: seq<T>, f: seq<T>)
    ensures a + b + c + d + e + f == (a + b + c) + d + (e + f)
  {
  }

  /** Regrouping a nested concatenation of six parts after the third. */
  lemma RegroupAfterThird<T>(a: seq<T>, b: seq<T>, c: seq<T>, d: seq<T>, e: seq<T>, f: seq<T>)
    ensures a + (b + (c + d) + e) + f == a + b + c + (d + e + f)
  {
  }

  /** Regrouping two tags split after their first part, around a middle part. */
  lemma RegroupTag<T>(a: seq<T>, b: seq<T>, c: seq<T>, d: seq<T>, e: seq<T>, f: seq<T>)
    ensures (a + b) + c + (d + e) + f == a + ((b + c) + (d + (e + f)))
  {
  }

  /** A suffix splits at any later index. */
  lemma SuffixSplit<T>(s: seq<T>, i: nat, j: nat)
    requires i <= j <= |s|
    ensures s[i..] == [] + s[i..j] + s[j..]
  {
  }

  /** A suffix is a given middle followed by the rest. */
  lemma SuffixAround<T>(s: seq<T>, i: nat, j: nat, m: seq<T>)
    requires i <= j <= |s| && m == s[i..j]
    ensures s[i..] == [] + m + s[j..]
  {
  }

  /** Regrouping a concatenation of three parts. */
  lemma Regroup3<T>(a: seq<T>, b: seq<T>, c: seq<T>)
    ensures a + b + c == a + (b + c)
  {
  }
}
