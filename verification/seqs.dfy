/** Generic sequence operations standing for `Array.prototype.find` and `filter`. */
module Seqs {
  import opened Wrappers

  /** `a` is `b` with some elements dropped, the rest kept in order. */
  predicate IsSubsequence<T(==)>(a: seq<T>, b: seq<T>)
    decreases |b|
  {
    if |a| == 0 then true
    else if |b| == 0 then false
    else if a[0] == b[0] then IsSubsequence(a[1..], b[1..])
    else IsSubsequence(a, b[1..])
  }

  /** `xs.find(p)`: the first element satisfying `p`. */
  function FindFirst<T(==)>(xs: seq<T>, p: T -> bool): (r: Option<T>)
    ensures r.None? <==> forall i :: 0 <= i < |xs| ==> !p(xs[i])
    ensures r.Some? ==> exists i :: 0 <= i < |xs| && xs[i] == r.value && p(xs[i])
                                   && forall j :: 0 <= j < i ==> !p(xs[j])
  {
    if |xs| == 0 then None
    else if p(xs[0]) then
      Some(xs[0])
    else
      var r := FindFirst(xs[1..], p);
      if r.Some? then
        var i :| 0 <= i < |xs[1..]| && xs[1..][i] == r.value && p(xs[1..][i])
                 && forall j :: 0 <= j < i ==> !p(xs[1..][j]);
        assert xs[i + 1] == r.value;
        assert forall j :: 0 <= j < i + 1 ==> !p(xs[j]) by {
          forall j | 0 <= j < i + 1 ensures !p(xs[j]) {
            if j > 0 { assert xs[j] == xs[1..][j - 1]; }
          }
        }
        r
      else
        assert forall i :: 0 <= i < |xs| ==> !p(xs[i]) by {
          forall i | 0 <= i < |xs| ensures !p(xs[i]) {
            if i > 0 { assert xs[i] == xs[1..][i - 1]; }
          }
        }
        r
  }

  /** `xs.filter(p)`: the elements satisfying `p`, in their original order. */
  function Filter<T>(xs: seq<T>, p: T -> bool): (r: seq<T>)
    ensures |r| <= |xs|
    ensures forall i :: 0 <= i < |r| ==> p(r[i])
    ensures forall i :: 0 <= i < |xs| && p(xs[i]) ==> xs[i] in r
    ensures forall x :: x in r ==> x in xs
  {
    if |xs| == 0 then []
    else
      var rest := Filter(xs[1..], p);
      assert forall i :: 1 <= i < |xs| ==> xs[i] == xs[1..][i - 1];
      if p(xs[0]) then [xs[0]] + rest else rest
  }

  /** Filtering keeps every passing element as many times as it occurs and no failing one:
      `Filter` drops nothing but what fails the test. */
  lemma {:induction false} FilterCounts<T(!new)>(xs: seq<T>, p: T -> bool)
    ensures forall x :: multiset(Filter(xs, p))[x] == if p(x) then multiset(xs)[x] else 0
  {
    if |xs| > 0 {
      FilterCounts(xs[1..], p);
      assert xs == [xs[0]] + xs[1..];
      assert multiset(xs) == multiset([xs[0]]) + multiset(xs[1..]);
    }
  }

  /** Filtering a list with a first element: that element is kept exactly when it passes. */
  lemma FilterCons<T>(x: T, xs: seq<T>, p: T -> bool)
    ensures Filter([x] + xs, p) == if p(x) then [x] + Filter(xs, p) else Filter(xs, p)
  {
    assert ([x] + xs)[1..] == xs;
  }

  /** Filtering five elements of which only the fourth may fail the test. */
  lemma FilterFive<T>(a: T, b: T, c: T, d: T, e: T, p: T -> bool)
    requires p(a) && p(b) && p(c) && p(e)
    ensures Filter([a, b, c, d, e], p) == if p(d) then [a, b, c, d, e] else [a, b, c, e]
  {
    FilterKeptThree(a, b, c, [d, e], p);
    FilterLastTwo(d, e, p);
    ConsThree(a, b, c, [d, e]);
    ConsThree(a, b, c, [e]);
    assert [a, b, c] + [d, e] == [a, b, c, d, e];
    assert [a, b, c] + [e] == [a, b, c, e];
  }

  /** Three passing elements in front survive filtering. */
  lemma FilterKeptThree<T>(a: T, b: T, c: T, rest: seq<T>, p: T -> bool)
    requires p(a) && p(b) && p(c)
    ensures Filter([a, b, c] + rest, p) == [a] + ([b] + ([c] + Filter(rest, p)))
  {
    FilterCons(c, rest, p);
    FilterCons(b, [c] + rest, p);
    FilterCons(a, [b] + ([c] + rest), p);
    ConsThree(a, b, c, rest);
  }

  /** Filtering two elements of which the second passes. */
  lemma FilterLastTwo<T>(d: T, e: T, p: T -> bool)
    requires p(e)
    ensures Filter([d, e], p) == if p(d) then [d, e] else [e]
  {
    FilterCons(d, [e], p);
    assert [d] + [e] == [d, e];
  }

  /** Three elements put in front of a list one at a time. */
  lemma ConsThree<T>(a: T, b: T, c: T, rest: seq<T>)
    ensures [a] + ([b] + ([c] + rest)) == [a, b, c] + rest
  {
  }

  /** Filtering keeps the survivors in their original order. */
  lemma {:induction false} FilterIsSubsequence<T>(xs: seq<T>, p: T -> bool)
    ensures IsSubsequence(Filter(xs, p), xs)
  {
    if |xs| > 0 {
      FilterIsSubsequence(xs[1..], p);
      var rest := Filter(xs[1..], p);
      if !p(xs[0]) {
        SubsequenceOfTail(rest, xs);
      }
    }
  }

  /** A subsequence of the tail is a subsequence of the whole. */
  lemma {:induction false} SubsequenceOfTail<T>(a: seq<T>, b: seq<T>)
    requires |b| > 0 && IsSubsequence(a, b[1..])
    ensures IsSubsequence(a, b)
    decreases |b|, 0
  {
    if |a| > 0 && a[0] == b[0] {
      SubsequenceDropHead(a, b[1..]);
    }
  }

  /** Dropping the first element of a subsequence keeps it a subsequence. */
  lemma {:induction false} SubsequenceDropHead<T>(a: seq<T>, b: seq<T>)
    requires |a| > 0 && IsSubsequence(a, b)
    ensures IsSubsequence(a[1..], b)
    decreases |b|, 1
  {
    if |b| > 0 {
      if a[0] == b[0] {
        if |a[1..]| > 0 {
          SubsequenceOfTail(a[1..], b);
        }
      } else {
        SubsequenceDropHead(a, b[1..]);
        if |a[1..]| > 0 {
          SubsequenceOfTail(a[1..], b);
        }
      }
    }
  }

  /** Filtering with a predicate every element satisfies changes nothing. */
  lemma {:induction false} FilterAll<T>(xs: seq<T>, p: T -> bool)
    requires forall i :: 0 <= i < |xs| ==> p(xs[i])
    ensures Filter(xs, p) == xs
  {
    if |xs| > 0 {
      assert forall i :: 0 <= i < |xs[1..]| ==> p(xs[1..][i]) by {
        forall i | 0 <= i < |xs[1..]| ensures p(xs[1..][i]) { assert xs[1..][i] == xs[i + 1]; }
      }
      FilterAll(xs[1..], p);
      FilterCons(xs[0], xs[1..], p);
      assert [xs[0]] + xs[1..] == xs;
    }
  }

  /** Filtering distributes over concatenation. */
  lemma {:induction false} FilterAppend<T>(xs: seq<T>, ys: seq<T>, p: T -> bool)
    ensures Filter(xs + ys, p) == Filter(xs, p) + Filter(ys, p)
  {
    if |xs| == 0 {
      assert xs + ys == ys;
    } else {
      assert (xs + ys)[1..] == xs[1..] + ys;
      FilterAppend(xs[1..], ys, p);
    }
  }
}
