/** Order-preserving filtering of sequences, the shape of JavaScript's
    `Array.prototype.filter`, with an independent specification of what a
    filter result is and a proof that the specification pins it down. */
module Seqs {

  /** `a` can be obtained from `b` by deleting elements, without reordering. */
  predicate IsSubsequence<T(==)>(a: seq<T>, b: seq<T>)
    decreases |b|
  {
    || |a| == 0
    || (|b| > 0 && ((a[0] == b[0] && IsSubsequence(a[1..], b[1..])) || IsSubsequence(a, b[1..])))
  }

  /** The specification of a filter: `r` keeps the relative order of `s`
      and holds every element satisfying `p` as often as `s` does, and no
      element failing `p` (being a subsequence, it holds nothing else). */
  ghost predicate IsFilterOf<T>(r: seq<T>, s: seq<T>, p: T -> bool) {
    && IsSubsequence(r, s)
    && forall x :: x in s ==> multiset(r)[x] == (if p(x) then multiset(s)[x] else 0)
  }

  /** `s.filter(p)`. */
  function Filter<T>(s: seq<T>, p: T -> bool): (r: seq<T>)
    ensures |r| <= |s|
    ensures forall i :: 0 <= i < |r| ==> r[i] in s && p(r[i])
    ensures forall i :: 0 <= i < |s| && p(s[i]) ==> s[i] in r
  {
    if |s| == 0 then []
    else (if p(s[0]) then [s[0]] else []) + Filter(s[1..], p)
  }

  /** `Filter` meets the filter specification. */
  lemma {:induction false} FilterMeetsSpec<T>(s: seq<T>, p: T -> bool)
    ensures IsFilterOf(Filter(s, p), s, p)
  {
    if |s| > 0 {
      var x, s' := s[0], s[1..];
      var rest := Filter(s', p);
      FilterMeetsSpec(s', p);
      assert s == [x] + s';
      assert multiset(s) == multiset{x} + multiset(s');
      if p(x) {
        var r := [x] + rest;
        assert r[1..] == rest;
        assert multiset(r) == multiset{x} + multiset(rest);
        assert IsSubsequence(r, s);
        forall y | y in s ensures multiset(r)[y] == (if p(y) then multiset(s)[y] else 0) {
          if y !in s' {
            assert y == x;
            assert multiset(s')[y] == 0;
            SubsequenceCounts(rest, s');
          }
        }
      } else {
        assert Filter(s, p) == rest;
        if |rest| > 0 {
          assert IsSubsequence(rest, s);
        }
        forall y | y in s ensures multiset(rest)[y] == (if p(y) then multiset(s)[y] else 0) {
          if y !in s' {
            assert y == x;
            assert multiset(s')[y] == 0;
            SubsequenceCounts(rest, s');
          }
        }
      }
    }
  }

  /** A subsequence holds each element at most as often as the original. */
  lemma {:induction false} SubsequenceCounts<T>(a: seq<T>, b: seq<T>)
    requires IsSubsequence(a, b)
    ensures forall x :: multiset(a)[x] <= multiset(b)[x]
    decreases |b|
  {
    if |a| > 0 {
      assert b == [b[0]] + b[1..];
      if a[0] == b[0] && IsSubsequence(a[1..], b[1..]) {
        assert a == [a[0]] + a[1..];
        SubsequenceCounts(a[1..], b[1..]);
      } else {
        SubsequenceCounts(a, b[1..]);
      }
    }
  }

  /** The filter specification has exactly one solution: any sequence that
      meets `IsFilterOf` is the one `Filter` computes. */
  lemma {:induction false} FilterUnique<T>(r: seq<T>, s: seq<T>, p: T -> bool)
    requires IsFilterOf(r, s, p)
    ensures r == Filter(s, p)
    decreases |s|
  {
    if |s| == 0 {
      assert |r| == 0;
    } else {
      var x := s[0];
      var s' := s[1..];
      assert s == [x] + s';
      if p(x) {
        // `x` is counted once more in `r` than in `s'`, so `r` must begin with it
        assert |r| > 0 && r[0] == x && IsSubsequence(r[1..], s') by {
          assert multiset(r)[x] == multiset(s')[x] + 1;
          if |r| == 0 || !(r[0] == x && IsSubsequence(r[1..], s')) {
            assert IsSubsequence(r, s');
            SubsequenceCounts(r, s');
            assert false;
          }
        }
        assert r == [x] + r[1..];
        assert multiset(r) == multiset{x} + multiset(r[1..]);
        assert multiset(s) == multiset{x} + multiset(s');
        assert forall y :: y in s' ==> multiset(r[1..])[y] == (if p(y) then multiset(s')[y] else 0);
        FilterUnique(r[1..], s', p);
      } else {
        // `x` does not occur in `r`, so `r` fits inside the tail
        assert IsSubsequence(r, s') by {
          if |r| > 0 && r[0] == x {
            assert false;
          }
        }
        assert multiset(s) == multiset{x} + multiset(s');
        assert forall y :: y in s' ==> multiset(r)[y] == (if p(y) then multiset(s')[y] else 0);
        FilterUnique(r, s', p);
      }
    }
  }

  /** Two filters commute. */
  lemma {:induction false} FilterCommutes<T>(s: seq<T>, p: T -> bool, q: T -> bool)
    ensures Filter(Filter(s, p), q) == Filter(Filter(s, q), p)
  {
    var both := (x: T) => p(x) && q(x);
    FilterTwice(s, p, q, both);
    FilterTwice(s, q, p, both);
  }

  /** Filtering by `p` and then by `q` filters by their conjunction. */
  lemma {:induction false} FilterTwice<T>(s: seq<T>, p: T -> bool, q: T -> bool, both: T -> bool)
    requires forall x :: both(x) == (p(x) && q(x))
    ensures Filter(Filter(s, p), q) == Filter(s, both)
  {
    var inner := Filter(s, p);
    var outer := Filter(inner, q);
    FilterMeetsSpec(s, p);
    FilterMeetsSpec(inner, q);
    SubsequenceTransitive(outer, inner, s);
    SubsequenceCounts(outer, inner);
    forall x | x in s ensures multiset(outer)[x] == (if both(x) then multiset(s)[x] else 0) {
      if x !in inner {
        assert multiset(inner)[x] == 0;
      }
    }
    FilterUnique(outer, s, both);
  }

  /** Being a subsequence is transitive. */
  lemma {:induction false} SubsequenceTransitive<T>(a: seq<T>, b: seq<T>, c: seq<T>)
    requires IsSubsequence(a, b) && IsSubsequence(b, c)
    ensures IsSubsequence(a, c)
    decreases |c|
  {
    if |a| > 0 {
      assert |b| > 0 && |c| > 0;
      if b[0] == c[0] && IsSubsequence(b[1..], c[1..]) {
        if a[0] == b[0] && IsSubsequence(a[1..], b[1..]) {
          SubsequenceTransitive(a[1..], b[1..], c[1..]);
        } else {
          SubsequenceTransitive(a, b[1..], c[1..]);
        }
      } else {
        SubsequenceTransitive(a, b, c[1..]);
      }
    }
  }

  /** Every sequence is a subsequence of itself. */
  lemma {:induction false} SubsequenceReflexive<T>(s: seq<T>)
    ensures IsSubsequence(s, s)
  {
    if |s| > 0 {
      SubsequenceReflexive(s[1..]);
    }
  }

  /** Filtering with a callback every element satisfies changes nothing. */
  lemma {:induction false} FilterKeepsAll<T>(s: seq<T>, p: T -> bool)
    requires forall i :: 0 <= i < |s| ==> p(s[i])
    ensures Filter(s, p) == s
  {
    if |s| > 0 {
      FilterKeepsAll(s[1..], p);
      assert s == [s[0]] + s[1..];
    }
  }
}
