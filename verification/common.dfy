/** Generic building blocks shared by every page of the park front-end:
    optional values, the order-preserving `Array.prototype.filter`, the
    `slice(0, n)` prefix and the add-or-remove membership toggle. */
module Common {

  /** A value that may be absent (`undefined`, `null` or `NaN` in the source). */
  datatype Option<+T> = None | Some(value: T)
  {
    /** The value, or `default` when absent: the source's `x || default`. */
    function GetOr(default: T): T
    {
      match this
      case Some(v) => v
      case None => default
    }
  }

  /** `a` is an order-preserving sub-list of `b`: `a` is obtained from `b`
      by deleting zero or more elements, without moving the others. */
  predicate IsSublist<T(==)>(a: seq<T>, b: seq<T>)
    decreases |b|
  {
    if |a| == 0 then true
    else if |b| == 0 then false
    else (a[0] == b[0] && IsSublist(a[1..], b[1..])) || IsSublist(a, b[1..])
  }

  /** Every sequence is a sub-list of itself. */
  lemma {:induction false} IsSublistRefl<T>(xs: seq<T>)
    ensures IsSublist(xs, xs)
  {
    if |xs| > 0 {
      IsSublistRefl(xs[1..]);
    }
  }

  /** Every element of the sequence satisfies `p`. */
  ghost predicate AllSatisfy<T>(xs: seq<T>, p: T -> bool)
  {
    forall i :: 0 <= i < |xs| ==> p(xs[i])
  }

  /** `Array.prototype.filter`: keeps the elements satisfying `p`, in order. */
  function Filter<T(==,!new)>(xs: seq<T>, p: T -> bool): (r: seq<T>)
    ensures |r| <= |xs|
    ensures IsSublist(r, xs)
  {
    if |xs| == 0 then []
    else if p(xs[0]) then
      var rest := Filter(xs[1..], p);
      assert ([xs[0]] + rest)[1..] == rest;
      [xs[0]] + rest
    else Filter(xs[1..], p)
  }

  /** An element survives filtering exactly when it is in the input and
      satisfies the predicate. */
  lemma {:induction false} FilterMembers<T(!new)>(xs: seq<T>, p: T -> bool)
    ensures forall x :: x in Filter(xs, p) <==> x in xs && p(x)
  {
    if |xs| > 0 {
      FilterMembers(xs[1..], p);
      assert xs == [xs[0]] + xs[1..];
    }
  }

  /** Every element that survives filtering satisfies the predicate. */
  lemma {:induction false} FilterSatisfies<T(!new)>(xs: seq<T>, p: T -> bool)
    ensures AllSatisfy(Filter(xs, p), p)
  {
    if |xs| > 0 {
      FilterSatisfies(xs[1..], p);
    }
  }

  /** Filtering twice with the same predicate is filtering once. */
  lemma {:induction false} FilterIdempotent<T(!new)>(xs: seq<T>, p: T -> bool)
    ensures Filter(Filter(xs, p), p) == Filter(xs, p)
  {
    if |xs| > 0 {
      FilterIdempotent(xs[1..], p);
      if p(xs[0]) {
        assert ([xs[0]] + Filter(xs[1..], p))[1..] == Filter(xs[1..], p);
      }
    }
  }

  /** Filtering keeps the input unchanged exactly when every element passes. */
  lemma {:induction false} FilterKeepsAll<T(!new)>(xs: seq<T>, p: T -> bool)
    ensures Filter(xs, p) == xs <==> AllSatisfy(xs, p)
  {
    if |xs| > 0 {
      FilterKeepsAll(xs[1..], p);
      if !p(xs[0]) {
        assert |Filter(xs, p)| <= |xs[1..]| < |xs|;
      } else {
        assert xs == [xs[0]] + xs[1..];
      }
    }
  }

  /** Predicates that agree on every element filter alike. */
  lemma {:induction false} FilterSameOn<T(!new)>(xs: seq<T>, p: T -> bool, q: T -> bool)
    requires forall x :: x in xs ==> (p(x) <==> q(x))
    ensures Filter(xs, p) == Filter(xs, q)
  {
    if |xs| > 0 {
      assert xs[0] in xs;
      assert forall x :: x in xs[1..] ==> x in xs;
      FilterSameOn(xs[1..], p, q);
    }
  }

  /** Filtering with a predicate no element can satisfy gives the empty list. */
  lemma FilterNone<T(!new)>(xs: seq<T>, p: T -> bool)
    requires forall x :: x in xs ==> !p(x)
    ensures Filter(xs, p) == []
  {
    FilterMembers(xs, p);
    if Filter(xs, p) != [] {
      assert Filter(xs, p)[0] in Filter(xs, p);
    }
  }

  /** Filtering distributes over concatenation. */
  lemma {:induction false} FilterAppend<T(!new)>(xs: seq<T>, ys: seq<T>, p: T -> bool)
    ensures Filter(xs + ys, p) == Filter(xs, p) + Filter(ys, p)
  {
    if |xs| == 0 {
      assert xs + ys == ys;
    } else {
      assert (xs + ys)[1..] == xs[1..] + ys;
      FilterAppend(xs[1..], ys, p);
    }
  }

  /** Filtering out one element whose neighbours all pass deletes just it. */
  lemma FilterDropsOne<T(!new)>(pre: seq<T>, x: T, post: seq<T>, p: T -> bool)
    requires AllSatisfy(pre, p) && AllSatisfy(post, p) && !p(x)
    ensures Filter(pre + [x] + post, p) == pre + post
  {
    calc {
      Filter(pre + [x] + post, p);
    == { FilterAppend(pre + [x], post, p); }
      Filter(pre + [x], p) + Filter(post, p);
    == { FilterAppend(pre, [x], p); }
      Filter(pre, p) + Filter([x], p) + Filter(post, p);
    == { FilterKeepsAll(pre, p); FilterKeepsAll(post, p); assert Filter([x], p) == []; }
      pre + [] + post;
    }
  }

  /** The position of the first element satisfying `p`, if any. */
  function FindIndex<T>(xs: seq<T>, p: T -> bool): (r: Option<nat>)
    ensures r.Some? ==> r.value < |xs| && p(xs[r.value])
    ensures r.Some? ==> forall j :: 0 <= j < r.value ==> !p(xs[j])
    ensures r.None? <==> forall j :: 0 <= j < |xs| ==> !p(xs[j])
  {
    if |xs| == 0 then None
    else if p(xs[0]) then Some(0)
    else match FindIndex(xs[1..], p)
      case None => None
      case Some(i) => Some(i + 1)
  }

  /** `Array.prototype.find`: the first element satisfying `p`, if any. */
  function Find<T>(xs: seq<T>, p: T -> bool): (r: Option<T>)
    ensures r.Some? ==> r.value in xs && p(r.value)
    ensures r.Some? ==>
      exists i :: 0 <= i < |xs| && xs[i] == r.value && p(xs[i]) && forall j :: 0 <= j < i ==> !p(xs[j])
    ensures r.None? <==> forall j :: 0 <= j < |xs| ==> !p(xs[j])
  {
    match FindIndex(xs, p)
    case None => None
    case Some(i) => Some(xs[i])
  }

  /** `slice(0, n)`: the first `n` elements, or all of them if fewer. */
  function Take<T>(xs: seq<T>, n: nat): (r: seq<T>)
    ensures |r| <= n && |r| <= |xs|
    ensures |xs| >= n ==> |r| == n
    ensures |xs| <= n ==> r == xs
    ensures r <= xs
  {
    if |xs| <= n then xs else xs[..n]
  }

  /** A sequence with no repeated element. */
  ghost predicate Distinct<T>(xs: seq<T>)
  {
    forall i, j :: 0 <= i < j < |xs| ==> xs[i] != xs[j]
  }

  /** The add-or-remove list toggle used for selected extras and favourite
      shows: an element already present is removed (every copy of it), an
      absent one is appended at the end. */
  function Toggle<T(==,!new)>(xs: seq<T>, x: T): (r: seq<T>)
    ensures x in xs ==> x !in r
    ensures x !in xs ==> r == xs + [x]
    ensures forall y :: y != x ==> (y in r <==> y in xs)
  {
    if x in xs then
      FilterMembers(xs, (y: T) => y != x);
      Filter(xs, (y: T) => y != x)
    else xs + [x]
  }

  /** A duplicate-free selection stays duplicate-free under toggling. */
  lemma ToggleKeepsDistinct<T(!new)>(xs: seq<T>, x: T)
    requires Distinct(xs)
    ensures Distinct(Toggle(xs, x))
  {
    if x in xs {
      FilterKeepsDistinct(xs, (y: T) => y != x);
    }
  }

  /** Toggling off an element that occurs once removes just that element. */
  lemma ToggleRemovesOne<T(!new)>(pre: seq<T>, x: T, post: seq<T>)
    requires x !in pre && x !in post
    ensures Toggle(pre + [x] + post, x) == pre + post
  {
    var p := (y: T) => y != x;
    assert AllSatisfy(pre, p) by {
      forall k | 0 <= k < |pre| ensures p(pre[k]) {
        assert pre[k] in pre;
      }
    }
    assert AllSatisfy(post, p) by {
      forall k | 0 <= k < |post| ensures p(post[k]) {
        assert post[k] in post;
      }
    }
    FilterDropsOne(pre, x, post, p);
  }

  /** Toggling the same element twice restores its membership, and never
      touches the membership of anything else. */
  lemma ToggleTwice<T(!new)>(xs: seq<T>, x: T)
    ensures (x in Toggle(Toggle(xs, x), x)) <==> (x in xs)
    ensures forall y :: y in Toggle(Toggle(xs, x), x) <==> y in xs
  {
  }

  /** Filtering a duplicate-free list gives a duplicate-free list. */
  lemma {:induction false} FilterKeepsDistinct<T(!new)>(xs: seq<T>, p: T -> bool)
    requires Distinct(xs)
    ensures Distinct(Filter(xs, p))
  {
    if |xs| > 0 {
      FilterKeepsDistinct(xs[1..], p);
      if p(xs[0]) {
        var rest := Filter(xs[1..], p);
        FilterMembers(xs[1..], p);
        assert xs[0] !in xs[1..];
        assert xs[0] !in rest;
        var r := [xs[0]] + rest;
        forall i, j | 0 <= i < j < |r|
          ensures r[i] != r[j]
        {
          if i == 0 {
            assert r[j] == rest[j - 1];
            assert r[j] in rest;
          } else {
            assert r[i] == rest[i - 1] && r[j] == rest[j - 1];
          }
        }
      }
    }
  }
}
