/**
 * Sequence helpers used by the aggregation pipeline and the chart derivations:
 * sums and the dashboard's `calculateAverage`, and the stable descending sort
 * that JavaScript's `Array.prototype.sort` performs with a comparator
 * `(a, b) => key(b) - key(a)`.
 */
module SeqUtil {

  /** Left-to-right sum, as `arr.reduce((sum, s) => sum + s, 0)`. */
  function Sum(s: seq<real>): real
  {
    if s == [] then 0.0 else Sum(s[..|s| - 1]) + s[|s| - 1]
  }

  /** `calculateAverage`: the mean of a non-empty list, 0 for an empty one. */
  function Mean(s: seq<real>): real
  {
    if |s| > 0 then Sum(s) / |s| as real else 0.0
  }

  lemma {:induction false} SumAppend(a: seq<real>, b: seq<real>)
    ensures Sum(a + b) == Sum(a) + Sum(b)
    decreases |b|
  {
    if b == [] {
      assert a + b == a;
    } else {
      var b' := b[..|b| - 1];
      assert (a + b)[..|a + b| - 1] == a + b';
      SumAppend(a, b');
    }
  }

  lemma {:induction false} SumBounds(s: seq<real>, lo: real, hi: real)
    requires forall k :: 0 <= k < |s| ==> lo <= s[k] <= hi
    ensures |s| as real * lo <= Sum(s) <= |s| as real * hi
    decreases |s|
  {
    if s != [] {
      SumBounds(s[..|s| - 1], lo, hi);
    }
  }

  /** The mean of values that all lie in [lo, hi] lies in [lo, hi]. */
  lemma MeanBounds(s: seq<real>, lo: real, hi: real)
    requires |s| > 0
    requires forall k :: 0 <= k < |s| ==> lo <= s[k] <= hi
    ensures lo <= Mean(s) <= hi
  {
    SumBounds(s, lo, hi);
    var n := |s| as real;
    assert Sum(s) / n >= (n * lo) / n;
    assert Sum(s) / n <= (n * hi) / n;
  }

  /** Sums do not depend on the order of the summands. */
  lemma {:induction false} SumPermutation(a: seq<real>, b: seq<real>)
    requires multiset(a) == multiset(b)
    ensures Sum(a) == Sum(b)
    decreases |a|
  {
    if a != [] {
      var x := a[|a| - 1];
      var a' := a[..|a| - 1];
      assert a == a' + [x];
      assert x in multiset(b);
      var j :| 0 <= j < |b| && b[j] == x;
      var b' := b[..j] + b[j + 1..];
      assert b == b[..j] + [x] + b[j + 1..];
      assert multiset(b) == multiset(b') + multiset{x};
      assert multiset(a) == multiset(a') + multiset{x};
      assert multiset(a') == multiset(a) - multiset{x};
      assert multiset(b') == multiset(b) - multiset{x};
      SumPermutation(a', b');
      SumAppend(b[..j] + [x], b[j + 1..]);
      SumAppend(b[..j], [x]);
      SumAppend(b[..j], b[j + 1..]);
      assert Sum([x]) == x by { assert [x][..0] == []; }
    }
  }

  /** The lists `f` gives for the elements of `xs`, concatenated in order. */
  function FlatMap<T>(xs: seq<T>, f: T -> seq<real>): seq<real>
  {
    if xs == [] then [] else FlatMap(xs[..|xs| - 1], f) + f(xs[|xs| - 1])
  }

  lemma {:induction false} FlatMapAppend<T>(a: seq<T>, b: seq<T>, f: T -> seq<real>)
    ensures FlatMap(a + b, f) == FlatMap(a, f) + FlatMap(b, f)
    decreases |b|
  {
    if b == [] {
      assert a + b == a;
    } else {
      var n := |b| - 1;
      assert (a + b)[..|a + b| - 1] == a + b[..n];
      FlatMapAppend(a, b[..n], f);
    }
  }

  /** Taking element `j` out takes its list out. */
  lemma FlatMapRemove<T>(b: seq<T>, j: nat, f: T -> seq<real>)
    requires j < |b|
    ensures multiset(FlatMap(b, f)) == multiset(FlatMap(b[..j] + b[j + 1..], f)) + multiset(f(b[j]))
  {
    var u := FlatMap(b[..j], f);
    var w := FlatMap(b[j + 1..], f);
    assert FlatMap([b[j]], f) == f(b[j]) by {
      assert [b[j]][..0] == [];
    }
    assert b == b[..j] + [b[j]] + b[j + 1..];
    FlatMapAppend(b[..j] + [b[j]], b[j + 1..], f);
    FlatMapAppend(b[..j], [b[j]], f);
    FlatMapAppend(b[..j], b[j + 1..], f);
    assert multiset(u + f(b[j]) + w) == multiset(u + w) + multiset(f(b[j]));
  }

  /** The last element of `a` sits somewhere in a permutation `b` of it; without both, the rest still match. */
  lemma PickLast<T>(a: seq<T>, b: seq<T>) returns (j: nat)
    requires a != [] && multiset(a) == multiset(b)
    ensures j < |b| && b[j] == a[|a| - 1]
    ensures multiset(a[..|a| - 1]) == multiset(b[..j] + b[j + 1..])
  {
    var n := |a| - 1;
    var x := a[n];
    assert a == a[..n] + [x];
    assert multiset(a) == multiset(a[..n]) + multiset{x};
    assert x in multiset(b);
    j :| 0 <= j < |b| && b[j] == x;
    var rest := b[..j] + b[j + 1..];
    assert b == b[..j] + [x] + b[j + 1..];
    assert multiset(b) == multiset(rest) + multiset{x} by {
      assert multiset(b[..j] + [x] + b[j + 1..]) == multiset(b[..j]) + multiset{x} + multiset(b[j + 1..]);
    }
    assert multiset(a[..n]) == multiset(a) - multiset{x};
    assert multiset(rest) == multiset(b) - multiset{x};
  }

  /** Concatenating the lists of the elements does not depend on their order, up to a permutation. */
  lemma {:induction false} FlatMapPermutation<T>(a: seq<T>, b: seq<T>, f: T -> seq<real>)
    requires multiset(a) == multiset(b)
    ensures multiset(FlatMap(a, f)) == multiset(FlatMap(b, f))
    decreases |a|
  {
    if a != [] {
      var n := |a| - 1;
      var j := PickLast(a, b);
      FlatMapPermutation(a[..n], b[..j] + b[j + 1..], f);
      FlatMapRemove(b, j, f);
      var ra := FlatMap(a[..n], f);
      assert FlatMap(a, f) == ra + f(a[n]);
      assert multiset(ra + f(a[n])) == multiset(ra) + multiset(f(a[n]));
    }
  }

  lemma ConsTail<T>(s: seq<T>)
    requires s != []
    ensures [s[0]] + s[1..] == s
  {
  }

  lemma ConcatAssoc<T>(a: seq<T>, b: seq<T>, c: seq<T>)
    ensures (a + b) + c == a + (b + c)
  {
  }

  /** `xs.filter(p)`: the elements satisfying `p`, in order. */
  function Filter<T>(xs: seq<T>, p: T -> bool): seq<T>
  {
    if xs == [] then []
    else
      var last := xs[|xs| - 1];
      Filter(xs[..|xs| - 1], p) + if p(last) then [last] else []
  }

  /** The filter keeps every element satisfying `p`, as often as it occurs, and nothing else. */
  lemma FilterMembers<T(!new)>(xs: seq<T>, p: T -> bool)
    ensures |Filter(xs, p)| <= |xs|
    ensures forall x :: x in Filter(xs, p) <==> x in xs && p(x)
    ensures forall x :: multiset(Filter(xs, p))[x] == if p(x) then multiset(xs)[x] else 0
  {
    FilterLength(xs, p);
    forall x ensures multiset(Filter(xs, p))[x] == if p(x) then multiset(xs)[x] else 0 {
      FilterCount(xs, p, x);
    }
  }

  lemma {:induction false} FilterLength<T>(xs: seq<T>, p: T -> bool)
    ensures |Filter(xs, p)| <= |xs|
    decreases |xs|
  {
    if xs != [] {
      FilterLength(xs[..|xs| - 1], p);
    }
  }

  lemma {:induction false} FilterCount<T>(xs: seq<T>, p: T -> bool, x: T)
    ensures multiset(Filter(xs, p))[x] == if p(x) then multiset(xs)[x] else 0
    decreases |xs|
  {
    if xs != [] {
      var pre, last := xs[..|xs| - 1], xs[|xs| - 1];
      FilterCount(pre, p, x);
      assert xs == pre + [last];
      assert multiset(xs) == multiset(pre) + multiset{last};
      assert multiset(Filter(xs, p)) == multiset(Filter(pre, p)) + if p(last) then multiset{last} else multiset{};
    }
  }

  /** Filtering a concatenation filters each part, so kept elements keep their order. */
  lemma {:induction false} FilterAppend<T>(a: seq<T>, b: seq<T>, p: T -> bool)
    ensures Filter(a + b, p) == Filter(a, p) + Filter(b, p)
    decreases |b|
  {
    if b == [] {
      assert a + b == a;
    } else {
      var b' := b[..|b| - 1];
      assert (a + b)[..|a + b| - 1] == a + b';
      assert (a + b)[|a + b| - 1] == b[|b| - 1];
      FilterAppend(a, b', p);
    }
  }

  /** Elements in reverse order (`[...s].reverse()`). */
  function Reverse<T>(s: seq<T>): (r: seq<T>)
    ensures |r| == |s|
    ensures forall k :: 0 <= k < |s| ==> r[k] == s[|s| - 1 - k]
  {
    if s == [] then [] else [s[|s| - 1]] + Reverse(s[..|s| - 1])
  }

  /** The elements of `s` whose key is exactly `v`, in the order of `s`. */
  function WithKey<T>(s: seq<T>, key: T -> real, v: real): seq<T>
  {
    if s == [] then []
    else WithKey(s[..|s| - 1], key, v) + (if key(s[|s| - 1]) == v then [s[|s| - 1]] else [])
  }

  lemma {:induction false} WithKeyAppend<T>(a: seq<T>, b: seq<T>, key: T -> real, v: real)
    ensures WithKey(a + b, key, v) == WithKey(a, key, v) + WithKey(b, key, v)
    decreases |b|
  {
    if b == [] {
      assert a + b == a;
    } else {
      assert (a + b)[..|a + b| - 1] == a + b[..|b| - 1];
      WithKeyAppend(a, b[..|b| - 1], key, v);
    }
  }

  lemma {:induction false} WithKeyNone<T>(s: seq<T>, key: T -> real, v: real)
    requires forall k :: 0 <= k < |s| ==> key(s[k]) != v
    ensures WithKey(s, key, v) == []
    decreases |s|
  {
    if s != [] {
      WithKeyNone(s[..|s| - 1], key, v);
    }
  }

  /** The first element carrying key `v` heads the run of such elements. */
  lemma WithKeyFirst<T>(s: seq<T>, key: T -> real, v: real, j: nat)
    requires j < |s| && key(s[j]) == v
    requires forall i :: 0 <= i < j ==> key(s[i]) != v
    ensures WithKey(s, key, v) != [] && WithKey(s, key, v)[0] == s[j]
  {
    assert s == s[..j] + [s[j]] + s[j + 1..];
    WithKeyAppend(s[..j] + [s[j]], s[j + 1..], key, v);
    WithKeyAppend(s[..j], [s[j]], key, v);
    WithKeyNone(s[..j], key, v);
    assert [s[j]][..0] == [];
  }

  /** The last element carrying key `v` ends the run of such elements. */
  lemma WithKeyLast<T>(s: seq<T>, key: T -> real, v: real, j: nat)
    requires j < |s| && key(s[j]) == v
    requires forall i :: j < i < |s| ==> key(s[i]) != v
    ensures WithKey(s, key, v) != [] && WithKey(s, key, v)[|WithKey(s, key, v)| - 1] == s[j]
  {
    assert s == s[..j] + [s[j]] + s[j + 1..];
    WithKeyAppend(s[..j] + [s[j]], s[j + 1..], key, v);
    WithKeyAppend(s[..j], [s[j]], key, v);
    WithKeyNone(s[j + 1..], key, v);
    assert [s[j]][..0] == [];
  }

  ghost predicate SortedDesc<T>(s: seq<T>, key: T -> real)
  {
    forall i, j :: 0 <= i < j < |s| ==> key(s[i]) >= key(s[j])
  }

  /** Places `x` after every element whose key is at least its own. */
  function InsertDesc<T>(x: T, s: seq<T>, key: T -> real): (r: seq<T>)
    ensures |r| == |s| + 1
  {
    if s == [] then [x]
    else if key(s[0]) >= key(x) then [s[0]] + InsertDesc(x, s[1..], key)
    else [x] + s
  }

  /**
   * Stable sort by descending key: the copy `[...s].sort((a, b) => key(b) - key(a))`.
   * Elements are inserted in input order, each after the equal keys already placed.
   */
  function SortDesc<T>(s: seq<T>, key: T -> real): (r: seq<T>)
    ensures |r| == |s|
  {
    if s == [] then [] else InsertDesc(s[|s| - 1], SortDesc(s[..|s| - 1], key), key)
  }

  lemma {:induction false} InsertDescPerm<T>(x: T, s: seq<T>, key: T -> real)
    ensures |InsertDesc(x, s, key)| == |s| + 1
    ensures multiset(InsertDesc(x, s, key)) == multiset(s) + multiset{x}
    decreases |s|
  {
    if s != [] && key(s[0]) >= key(x) {
      InsertDescPerm(x, s[1..], key);
      assert s == [s[0]] + s[1..];
    }
  }

  lemma {:induction false} InsertDescSorted<T>(x: T, s: seq<T>, key: T -> real)
    requires SortedDesc(s, key)
    ensures SortedDesc(InsertDesc(x, s, key), key)
    decreases |s|
  {
    var r := InsertDesc(x, s, key);
    if s != [] && key(s[0]) >= key(x) {
      var t := InsertDesc(x, s[1..], key);
      InsertDescSorted(x, s[1..], key);
      InsertDescPerm(x, s[1..], key);
      assert r == [s[0]] + t;
      forall k | 0 < k < |r| ensures key(r[0]) >= key(r[k]) {
        assert r[k] == t[k - 1];
        assert t[k - 1] in multiset(t);
        if t[k - 1] != x {
          assert t[k - 1] in multiset(s[1..]);
          var p :| 0 <= p < |s[1..]| && s[1..][p] == t[k - 1];
          assert s[p + 1] == t[k - 1];
        }
      }
    }
  }

  lemma WithKeySingle<T>(x: T, key: T -> real, v: real)
    ensures WithKey([x], key, v) == if key(x) == v then [x] else []
  {
    assert [x][..0] == [];
  }

  /** In a descending sequence whose head is below `v`, nothing carries key `v`. */
  lemma WithKeyBelow<T>(s: seq<T>, key: T -> real, v: real)
    requires SortedDesc(s, key)
    requires s != [] && key(s[0]) < v
    ensures WithKey(s, key, v) == []
  {
    forall k | 0 <= k < |s| ensures key(s[k]) != v {
      assert k == 0 || key(s[0]) >= key(s[k]);
    }
    WithKeyNone(s, key, v);
  }

  lemma WithKeyConsShift<T>(y: T, s: seq<T>, t: seq<T>, key: T -> real, v: real, extra: seq<T>)
    requires WithKey(t, key, v) == WithKey(s, key, v) + extra
    ensures WithKey([y] + t, key, v) == WithKey([y] + s, key, v) + extra
  {
    WithKeyAppend([y], t, key, v);
    WithKeyAppend([y], s, key, v);
  }

  lemma {:induction false} InsertDescWithKey<T>(x: T, s: seq<T>, key: T -> real, v: real)
    requires SortedDesc(s, key)
    ensures WithKey(InsertDesc(x, s, key), key, v) == WithKey(s, key, v) + (if key(x) == v then [x] else [])
    decreases |s|
  {
    if s == [] {
      assert InsertDesc(x, s, key) == [x];
      WithKeySingle(x, key, v);
    } else if key(s[0]) >= key(x) {
      var t := InsertDesc(x, s[1..], key);
      SortedDescTail(s, key);
      InsertDescWithKey(x, s[1..], key, v);
      assert InsertDesc(x, s, key) == [s[0]] + t;
      assert s == [s[0]] + s[1..];
      WithKeyConsShift(s[0], s[1..], t, key, v, if key(x) == v then [x] else []);
    } else {
      InsertDescFront(x, s, key, v);
    }
  }

  lemma SortedDescTail<T>(s: seq<T>, key: T -> real)
    requires SortedDesc(s, key) && s != []
    ensures SortedDesc(s[1..], key)
  {
    forall i, j | 0 <= i < j < |s| - 1 ensures key(s[1..][i]) >= key(s[1..][j]) {
      assert s[1..][i] == s[i + 1] && s[1..][j] == s[j + 1];
    }
  }

  /** `x` inserted in front of a descending sequence whose head has a smaller key. */
  lemma InsertDescFront<T>(x: T, s: seq<T>, key: T -> real, v: real)
    requires SortedDesc(s, key)
    requires s != [] && key(s[0]) < key(x)
    ensures WithKey(InsertDesc(x, s, key), key, v) == WithKey(s, key, v) + (if key(x) == v then [x] else [])
  {
    assert InsertDesc(x, s, key) == [x] + s;
    WithKeyAppend([x], s, key, v);
    WithKeySingle(x, key, v);
    if key(x) == v {
      WithKeyBelow(s, key, v);
    }
  }
  lemma {:induction false} SortDescFacts<T>(s: seq<T>, key: T -> real)
    ensures |SortDesc(s, key)| == |s|
    ensures multiset(SortDesc(s, key)) == multiset(s)
    ensures SortedDesc(SortDesc(s, key), key)
    ensures forall v :: WithKey(SortDesc(s, key), key, v) == WithKey(s, key, v)
    decreases |s|
  {
    if s != [] {
      var s' := s[..|s| - 1];
      SortDescFacts(s', key);
      var x := s[|s| - 1];
      InsertDescPerm(x, SortDesc(s', key), key);
      InsertDescSorted(x, SortDesc(s', key), key);
      assert s == s' + [x];
      forall v ensures WithKey(SortDesc(s, key), key, v) == WithKey(s, key, v) {
        InsertDescWithKey(x, SortDesc(s', key), key, v);
      }
    }
  }

  /**
   * The first element of the sorted copy has the largest key, and it is the
   * first element of the input that has that key (ties keep input order).
   */
  lemma SortDescHead<T>(s: seq<T>, key: T -> real) returns (j: nat)
    requires |s| > 0
    ensures |SortDesc(s, key)| == |s|
    ensures j < |s| && SortDesc(s, key)[0] == s[j]
    ensures forall k :: 0 <= k < |s| ==> key(s[k]) <= key(s[j])
    ensures forall k :: 0 <= k < j ==> key(s[k]) < key(s[j])
  {
    var r := SortDesc(s, key);
    SortDescFacts(s, key);
    var v := key(r[0]);
    assert r[0] in multiset(s);
    forall k | 0 <= k < |s| ensures key(s[k]) <= v {
      assert s[k] in multiset(r);
      var m :| 0 <= m < |r| && r[m] == s[k];
      assert m == 0 || key(r[0]) >= key(r[m]);
    }
    j :| 0 <= j < |s| && s[j] == r[0];
    while exists i :: 0 <= i < j && key(s[i]) == v
      invariant 0 <= j < |s| && key(s[j]) == v
      decreases j
    {
      var i :| 0 <= i < j && key(s[i]) == v;
      j := i;
    }
    WithKeyFirst(s, key, v, j);
    WithKeyFirst(r, key, v, 0);
  }

  /**
   * The last element of the sorted copy has the smallest key, and it is the
   * last element of the input that has that key.
   */
  lemma SortDescLast<T>(s: seq<T>, key: T -> real) returns (j: nat)
    requires |s| > 0
    ensures |SortDesc(s, key)| == |s|
    ensures j < |s| && SortDesc(s, key)[|s| - 1] == s[j]
    ensures forall k :: 0 <= k < |s| ==> key(s[j]) <= key(s[k])
    ensures forall k :: j < k < |s| ==> key(s[j]) < key(s[k])
  {
    var r := SortDesc(s, key);
    SortDescFacts(s, key);
    var n := |s|;
    var v := key(r[n - 1]);
    assert r[n - 1] in multiset(s);
    forall k | 0 <= k < n ensures v <= key(s[k]) {
      assert s[k] in multiset(r);
      var m :| 0 <= m < n && r[m] == s[k];
      assert m == n - 1 || key(r[m]) >= key(r[n - 1]);
    }
    j :| 0 <= j < n && s[j] == r[n - 1];
    while exists i :: j < i < n && key(s[i]) == v
      invariant 0 <= j < n && key(s[j]) == v
      decreases n - j
    {
      var i :| j < i < n && key(s[i]) == v;
      j := i;
    }
    WithKeyLast(s, key, v, j);
    WithKeyLast(r, key, v, n - 1);
  }
}
