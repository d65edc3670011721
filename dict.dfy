/** Python's insertion-ordered `dict`, as a sequence of key/value pairs.
    Assigning to a present key replaces its value where it stands; assigning
    to a new key appends it. */
module Dict {
  import opened Wrappers

  type Dict<K, V> = seq<(K, V)>

  /** The keys in insertion order (`list(d.keys())`). */
  function Keys<K(==), V>(d: Dict<K, V>): (ks: seq<K>)
    ensures |ks| == |d|
    ensures forall i :: 0 <= i < |d| ==> ks[i] == d[i].0
  {
    if |d| == 0 then [] else [d[0].0] + Keys(d[1..])
  }

  /** No key occurs twice: what every Python dict guarantees. */
  predicate KeysDistinct<K(==), V>(d: Dict<K, V>)
  {
    forall i, j :: 0 <= i < j < |d| ==> d[i].0 != d[j].0
  }

  /** `d.get(k)`. */
  function Get<K(==), V>(d: Dict<K, V>, k: K): (r: Option<V>)
    ensures r.Some? <==> k in Keys(d)
  {
    if |d| == 0 then None else if d[0].0 == k then Some(d[0].1) else Get(d[1..], k)
  }

  /** `d[k] = v`. */
  function Set<K(==), V>(d: Dict<K, V>, k: K, v: V): Dict<K, V>
  {
    if |d| == 0 then [(k, v)]
    else if d[0].0 == k then [(k, v)] + d[1..]
    else [d[0]] + Set(d[1..], k, v)
  }

  /** A key holds the value of the position where it stands. */
  lemma {:induction false} GetAt<K, V>(d: Dict<K, V>, i: nat)
    requires KeysDistinct(d) && i < |d|
    ensures Get(d, d[i].0) == Some(d[i].1)
  {
    if i > 0 {
      GetAt(d[1..], i - 1);
    }
  }

  /** After `d[k] = v`, `k` holds `v` and every other key is unchanged. */
  lemma {:induction false} SetGet<K, V>(d: Dict<K, V>, k: K, v: V, k': K)
    ensures Get(Set(d, k, v), k') == if k' == k then Some(v) else Get(d, k')
  {
    if |d| > 0 && d[0].0 != k {
      SetGet(d[1..], k, v, k');
    }
  }

  /** `d[k] = v` keeps the key order and appends `k` only when it is new. */
  lemma {:induction false} SetKeys<K, V>(d: Dict<K, V>, k: K, v: V)
    ensures Keys(Set(d, k, v)) == if k in Keys(d) then Keys(d) else Keys(d) + [k]
  {
    if |d| > 0 && d[0].0 != k {
      SetKeys(d[1..], k, v);
      assert Keys(d) == [d[0].0] + Keys(d[1..]);
    }
  }

  /** `d[k] = v` keeps the keys distinct. */
  lemma SetDistinct<K, V>(d: Dict<K, V>, k: K, v: V)
    requires KeysDistinct(d)
    ensures KeysDistinct(Set(d, k, v))
  {
    SetKeys(d, k, v);
    var d' := Set(d, k, v);
    forall i, j | 0 <= i < j < |d'| ensures d'[i].0 != d'[j].0 {
      assert Keys(d')[i] == d'[i].0 && Keys(d')[j] == d'[j].0;
    }
  }

  /** The keys of two dicts laid end to end. */
  lemma {:induction false} KeysAppend<K, V>(a: Dict<K, V>, b: Dict<K, V>)
    ensures Keys(a + b) == Keys(a) + Keys(b)
  {
    if |a| > 0 {
      assert (a + b)[1..] == a[1..] + b;
      KeysAppend(a[1..], b);
    }
  }

  /** No element occurs twice. */
  predicate Distinct<T(==)>(s: seq<T>)
  {
    forall i, j :: 0 <= i < j < |s| ==> s[i] != s[j]
  }

  /** Assigning to a new key appends it with its value. */
  lemma {:induction false} SetAbsent<K, V>(d: Dict<K, V>, k: K, v: V)
    requires k !in Keys(d)
    ensures Set(d, k, v) == d + [(k, v)]
  {
    if |d| > 0 {
      assert Keys(d) == [d[0].0] + Keys(d[1..]);
      SetAbsent(d[1..], k, v);
      assert d == [d[0]] + d[1..];
    }
  }

  /** Assigning again to the key appended last replaces its value there. */
  lemma {:induction false} SetLast<K, V>(d: Dict<K, V>, k: K, v: V, w: V)
    requires k !in Keys(d)
    ensures Set(d + [(k, v)], k, w) == d + [(k, w)]
  {
    if |d| > 0 {
      assert Keys(d) == [d[0].0] + Keys(d[1..]);
      assert (d + [(k, v)])[1..] == d[1..] + [(k, v)];
      SetLast(d[1..], k, v, w);
      assert d == [d[0]] + d[1..];
    }
  }

  /** Assigning to a present key changes its entry where it stands and nothing else. */
  lemma {:induction false} SetAt<K, V>(d: Dict<K, V>, i: nat, v: V)
    requires KeysDistinct(d) && i < |d|
    ensures Set(d, d[i].0, v) == d[i := (d[i].0, v)]
  {
    if i > 0 {
      SetAt(d[1..], i - 1, v);
      assert d[i := (d[i].0, v)] == [d[0]] + d[1..][i - 1 := (d[i].0, v)];
    }
  }
}
