/**
 * A JavaScript object used as a dictionary, as an association list kept in
 * insertion order: `Object.keys`/`Object.entries` enumerate in that order,
 * assigning to an existing key changes its value in place and assigning to a
 * new key appends it.
 */
module Dict {
  import opened Base

  type Assoc<K, V> = seq<(K, V)>

  /** `Object.keys(d)`. */
  function Keys<K, V>(d: Assoc<K, V>): (ks: seq<K>)
    ensures |ks| == |d|
  {
    if d == [] then [] else [d[0].0] + Keys(d[1..])
  }

  lemma {:induction false} KeysAt<K, V>(d: Assoc<K, V>)
    ensures forall i :: 0 <= i < |d| ==> Keys(d)[i] == d[i].0
    decreases |d|
  {
    if d != [] {
      KeysAt(d[1..]);
    }
  }

  ghost predicate DistinctKeys<K, V>(d: Assoc<K, V>)
  {
    forall i, j :: 0 <= i < j < |d| ==> d[i].0 != d[j].0
  }

  /** `d[k]`: the value stored under `k`, `None` for `undefined`. */
  function Lookup<K(==), V>(d: Assoc<K, V>, k: K): (r: Option<V>)
    ensures r.None? <==> k !in Keys(d)
  {
    if d == [] then None
    else if d[0].0 == k then Some(d[0].1)
    else
      var r := Lookup(d[1..], k);
      assert Keys(d) == [d[0].0] + Keys(d[1..]);
      r
  }

  /** A value read under `k` is stored with `k`. */
  lemma {:induction false} LookupFound<K, V>(d: Assoc<K, V>, k: K) returns (i: nat)
    requires Lookup(d, k).Some?
    ensures i < |d| && d[i] == (k, Lookup(d, k).value)
    decreases |d|
  {
    if d[0].0 == k {
      i := 0;
    } else {
      var j := LookupFound(d[1..], k);
      i := j + 1;
    }
  }

  lemma LookupAt<K, V>(d: Assoc<K, V>, i: nat)
    requires DistinctKeys(d) && i < |d|
    ensures Lookup(d, d[i].0) == Some(d[i].1)
  {
    KeysAt(d);
    assert Keys(d)[i] == d[i].0;
    var j := LookupFound(d, d[i].0);
    assert d[j].0 == d[i].0;
  }

  lemma KeysCons<K, V>(x: (K, V), t: Assoc<K, V>)
    ensures Keys([x] + t) == [x.0] + Keys(t)
  {
    assert ([x] + t)[1..] == t;
  }

  /** `d[k] = v`: a new key is appended, an existing one keeps its place. */
  function Assign<K(==), V>(d: Assoc<K, V>, k: K, v: V): (r: Assoc<K, V>)
    ensures k in Keys(d) ==> Keys(r) == Keys(d)
    ensures k !in Keys(d) ==> Keys(r) == Keys(d) + [k]
  {
    if d == [] then [(k, v)]
    else
      KeysCons(d[0], d[1..]);
      assert d == [d[0]] + d[1..];
      if d[0].0 == k then
        KeysCons((k, v), d[1..]);
        [(k, v)] + d[1..]
      else
        var t := Assign(d[1..], k, v);
        KeysCons(d[0], t);
        [d[0]] + t
  }

  /** After `d[k] = v`, reading `d[k]` gives `v`. */
  lemma {:induction false} AssignLookup<K, V>(d: Assoc<K, V>, k: K, v: V)
    ensures Lookup(Assign(d, k, v), k) == Some(v)
  {
    if d != [] && d[0].0 != k {
      AssignLookup(d[1..], k, v);
    }
  }

  /** Assignment keeps keys distinct. */
  lemma AssignDistinct<K, V>(d: Assoc<K, V>, k: K, v: V)
    requires DistinctKeys(d)
    ensures DistinctKeys(Assign(d, k, v))
  {
    var r := Assign(d, k, v);
    KeysAt(r);
    KeysAt(d);
    forall i, j | 0 <= i < j < |r| ensures r[i].0 != r[j].0 {
      assert Keys(r)[i] == r[i].0 && Keys(r)[j] == r[j].0;
      assert j < |d| ==> Keys(d)[i] == d[i].0 && Keys(d)[j] == d[j].0;
      assert j == |d| ==> k !in Keys(d) && Keys(d)[i] == d[i].0;
    }
  }

  /** Assigning one key leaves every other key's value as it was. */
  lemma {:induction false} AssignOther<K, V>(d: Assoc<K, V>, k: K, v: V, k': K)
    requires k' != k
    ensures Lookup(Assign(d, k, v), k') == Lookup(d, k')
  {
    if d != [] && d[0].0 != k {
      AssignOther(d[1..], k, v, k');
    }
  }

  /** Every entry after `d[k] = v` is `(k, v)` or an entry that `d` already had. */
  lemma {:induction false} AssignEntries<K, V>(d: Assoc<K, V>, k: K, v: V)
    ensures forall e :: e in Assign(d, k, v) ==> e == (k, v) || e in d
    decreases |d|
  {
    if d != [] && d[0].0 != k {
      AssignEntries(d[1..], k, v);
    }
  }
}
