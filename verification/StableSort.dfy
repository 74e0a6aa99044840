/**
 Stable descending sort by a real key: what Python's `sorted(..., reverse=True)`
 promises, and a proof that this promise determines the result.
 */
module StableSort {
  function InsertDesc<T>(sorted: seq<T>, x: T, key: T -> real): seq<T> {
    if sorted == [] then [x]
    else if key(sorted[0]) >= key(x) then [sorted[0]] + InsertDesc(sorted[1..], x, key)
    else [x] + sorted
  }

  /** Highest key first, equal keys in their original order. */
  function StableDesc<T>(xs: seq<T>, key: T -> real): seq<T> {
    if xs == [] then [] else InsertDesc(StableDesc(xs[..|xs| - 1], key), xs[|xs| - 1], key)
  }

  function WithKey<T>(xs: seq<T>, key: T -> real, v: real): seq<T> {
    if xs == [] then [] else WithKey(xs[..|xs| - 1], key, v) + if key(xs[|xs| - 1]) == v then [xs[|xs| - 1]] else []
  }

  ghost predicate SortedDesc<T>(xs: seq<T>, key: T -> real) {
    forall i, j :: 0 <= i < j < |xs| ==> key(xs[i]) >= key(xs[j])
  }

  /** `ys` is sorted and keeps, for every key, the elements of `xs` with that key
      in their order; in particular it is a permutation. */
  ghost predicate IsStableSort<T>(ys: seq<T>, xs: seq<T>, key: T -> real) {
    SortedDesc(ys, key) && forall v :: WithKey(ys, key, v) == WithKey(xs, key, v)
  }

  lemma {:induction false} WithKeyConcat<T>(a: seq<T>, b: seq<T>, key: T -> real, v: real)
    ensures WithKey(a + b, key, v) == WithKey(a, key, v) + WithKey(b, key, v)
  {
    if b == [] {
      assert a + b == a;
    } else {
      assert (a + b)[..|a + b| - 1] == a + b[..|b| - 1];
      WithKeyConcat(a, b[..|b| - 1], key, v);
    }
  }

  lemma {:induction false} InsertDescAdds<T>(sorted: seq<T>, x: T, key: T -> real)
    ensures multiset(InsertDesc(sorted, x, key)) == multiset(sorted) + multiset{x}
  {
    if sorted != [] {
      assert sorted == [sorted[0]] + sorted[1..];
      InsertDescAdds(sorted[1..], x, key);
    }
  }

  lemma PrependSorted<T>(x: T, tail: seq<T>, key: T -> real)
    requires SortedDesc(tail, key) && forall y :: y in tail ==> key(x) >= key(y)
    ensures SortedDesc([x] + tail, key)
  {
    var all := [x] + tail;
    forall i, j | 0 <= i < j < |all|
      ensures key(all[i]) >= key(all[j])
    {
      assert all[j] == tail[j - 1] && tail[j - 1] in tail;
      assert i > 0 ==> all[i] == tail[i - 1];
    }
  }

  lemma TailSorted<T>(xs: seq<T>, key: T -> real)
    requires SortedDesc(xs, key) && xs != []
    ensures SortedDesc(xs[1..], key) && forall y :: y in xs ==> key(xs[0]) >= key(y)
  {
  }

  lemma {:induction false} InsertDescSorted<T>(sorted: seq<T>, x: T, key: T -> real)
    requires SortedDesc(sorted, key)
    ensures SortedDesc(InsertDesc(sorted, x, key), key)
  {
    if sorted != [] {
      TailSorted(sorted, key);
      if key(sorted[0]) >= key(x) {
        InsertDescSorted(sorted[1..], x, key);
        forall y | y in InsertDesc(sorted[1..], x, key)
          ensures key(sorted[0]) >= key(y)
        {
          InsertDescAdds(sorted[1..], x, key);
          assert y in multiset(InsertDesc(sorted[1..], x, key));
        }
        PrependSorted(sorted[0], InsertDesc(sorted[1..], x, key), key);
      } else {
        PrependSorted(x, sorted, key);
      }
    }
  }

  /** Insertion is invisible to the elements of any one key, except at the end. */
  lemma {:induction false} InsertDescStable<T>(sorted: seq<T>, x: T, key: T -> real, v: real)
    requires SortedDesc(sorted, key)
    ensures WithKey(InsertDesc(sorted, x, key), key, v) == WithKey(sorted, key, v) + WithKey([x], key, v)
  {
    if sorted == [] {
    } else if key(sorted[0]) >= key(x) {
      TailSorted(sorted, key);
      InsertDescStable(sorted[1..], x, key, v);
      assert sorted == [sorted[0]] + sorted[1..];
      BehindHead([sorted[0]], sorted[1..], InsertDesc(sorted[1..], x, key), [x], key, v);
    } else {
      TailSorted(sorted, key);
      HighestFirst(sorted, x, key, v);
    }
  }

  lemma BehindHead<T>(head: seq<T>, rest: seq<T>, inserted: seq<T>, one: seq<T>, key: T -> real, v: real)
    requires WithKey(inserted, key, v) == WithKey(rest, key, v) + WithKey(one, key, v)
    ensures WithKey(head + inserted, key, v) == WithKey(head + rest, key, v) + WithKey(one, key, v)
  {
    WithKeyConcat(head, inserted, key, v);
    WithKeyConcat(head, rest, key, v);
    Associative(WithKey(head, key, v), WithKey(rest, key, v), WithKey(one, key, v));
  }

  lemma Associative<T>(a: seq<T>, b: seq<T>, c: seq<T>)
    ensures a + (b + c) == (a + b) + c
  {
  }

  lemma HighestFirst<T>(sorted: seq<T>, x: T, key: T -> real, v: real)
    requires forall y :: y in sorted ==> key(x) > key(y)
    ensures WithKey([x] + sorted, key, v) == WithKey(sorted, key, v) + WithKey([x], key, v)
  {
    WithKeyConcat([x], sorted, key, v);
    if key(x) == v {
      NoneWithKey(sorted, key, v);
    } else {
      NoneWithKey([x], key, v);
    }
  }

  lemma {:induction false} NoneWithKey<T>(xs: seq<T>, key: T -> real, v: real)
    requires forall i :: 0 <= i < |xs| ==> key(xs[i]) != v
    ensures WithKey(xs, key, v) == []
  {
    if xs != [] {
      NoneWithKey(xs[..|xs| - 1], key, v);
    }
  }

  lemma {:induction false} StableDescIsStable<T>(xs: seq<T>, key: T -> real)
    ensures IsStableSort(StableDesc(xs, key), xs, key)
    ensures multiset(StableDesc(xs, key)) == multiset(xs) && |StableDesc(xs, key)| == |xs|
  {
    if xs != [] {
      var init, x := xs[..|xs| - 1], xs[|xs| - 1];
      var sorted := StableDesc(init, key);
      StableDescIsStable(init, key);
      assert xs == init + [x];
      forall v
        ensures WithKey(StableDesc(xs, key), key, v) == WithKey(xs, key, v)
      {
        InsertDescStable(sorted, x, key, v);
        WithKeyConcat(init, [x], key, v);
      }
      InsertDescSorted(sorted, x, key);
      InsertDescAdds(sorted, x, key);
      assert |multiset(StableDesc(xs, key))| == |StableDesc(xs, key)|;
    }
  }

  /** There is only one stable sort, so being one pins the result down. */
  lemma {:induction false} StableSortUnique<T>(a: seq<T>, b: seq<T>, key: T -> real)
    requires SortedDesc(a, key) && SortedDesc(b, key)
    requires forall v :: WithKey(a, key, v) == WithKey(b, key, v)
    ensures a == b
  {
    if a == [] {
      EmptyTogether(a, b, key);
    } else if b == [] {
      EmptyTogether(b, a, key);
    } else {
      SameHead(a, b, key);
      forall v
        ensures WithKey(a[1..], key, v) == WithKey(b[1..], key, v)
      {
        TailWithKey(a, key, v);
        TailWithKey(b, key, v);
        assert WithKey(a, key, v) == WithKey(b, key, v);
      }
      StableSortUnique(a[1..], b[1..], key);
      assert a == [a[0]] + a[1..] && b == [b[0]] + b[1..];
    }
  }

  lemma EmptyTogether<T>(a: seq<T>, b: seq<T>, key: T -> real)
    requires a == [] && forall v :: WithKey(a, key, v) == WithKey(b, key, v)
    ensures b == []
  {
    if b != [] {
      HeadFirst(b, key);
    }
  }

  lemma HighestHead<T>(a: seq<T>, b: seq<T>, key: T -> real)
    requires a != [] && SortedDesc(b, key) && b != []
    requires forall v :: WithKey(a, key, v) == WithKey(b, key, v)
    ensures key(a[0]) <= key(b[0])
  {
    HeadFirst(a, key);
    assert WithKey(b, key, key(a[0])) != [];
    SomeWithKey(b, key, key(a[0]));
  }

  lemma SameHead<T>(a: seq<T>, b: seq<T>, key: T -> real)
    requires SortedDesc(a, key) && SortedDesc(b, key) && a != [] && b != []
    requires forall v :: WithKey(a, key, v) == WithKey(b, key, v)
    ensures a[0] == b[0]
  {
    HighestHead(a, b, key);
    HighestHead(b, a, key);
    HeadFirst(a, key);
    HeadFirst(b, key);
    assert WithKey(a, key, key(a[0])) == WithKey(b, key, key(a[0]));
  }

  lemma TailWithKey<T>(xs: seq<T>, key: T -> real, v: real)
    requires xs != []
    ensures |WithKey([xs[0]], key, v)| <= |WithKey(xs, key, v)|
    ensures WithKey(xs[1..], key, v) == WithKey(xs, key, v)[|WithKey([xs[0]], key, v)|..]
  {
    assert xs == [xs[0]] + xs[1..];
    WithKeyConcat([xs[0]], xs[1..], key, v);
  }

  lemma HeadFirst<T>(xs: seq<T>, key: T -> real)
    requires xs != []
    ensures WithKey(xs, key, key(xs[0])) != [] && WithKey(xs, key, key(xs[0]))[0] == xs[0]
  {
    assert xs == [xs[0]] + xs[1..];
    WithKeyConcat([xs[0]], xs[1..], key, key(xs[0]));
  }

  lemma SomeWithKey<T>(xs: seq<T>, key: T -> real, v: real)
    requires WithKey(xs, key, v) != []
    ensures exists i :: 0 <= i < |xs| && key(xs[i]) == v
  {
    if forall i :: 0 <= i < |xs| ==> key(xs[i]) != v {
      NoneWithKey(xs, key, v);
    }
  }
}
