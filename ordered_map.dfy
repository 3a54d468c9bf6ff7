/**
 * PHP arrays used as dictionaries: an insertion-ordered sequence of key/value
 * pairs. Assigning to an existing key replaces its value in place; assigning
 * to a new key appends it at the end (`$a[$k] = $v`).
 */
module OrderedMap {
  import opened Wrappers

  type OMap<K, V> = seq<(K, V)>

  function Keys<K, V>(m: OMap<K, V>): (ks: seq<K>)
    ensures |ks| == |m|
    ensures forall i :: 0 <= i < |m| ==> ks[i] == m[i].0
  {
    seq(|m|, i requires 0 <= i < |m| => m[i].0)
  }

  function Values<K, V>(m: OMap<K, V>): (vs: seq<V>)
    ensures |vs| == |m|
    ensures forall i :: 0 <= i < |m| ==> vs[i] == m[i].1
  {
    seq(|m|, i requires 0 <= i < |m| => m[i].1)
  }

  ghost predicate Distinct<T>(s: seq<T>) {
    forall i, j :: 0 <= i < j < |s| ==> s[i] != s[j]
  }

  /** `$m[$k] ?? null`: the value stored under `k`, if any. */
  function Get<K(==), V>(m: OMap<K, V>, k: K): (r: Option<V>)
    ensures r.None? <==> k !in Keys(m)
  {
    if m == [] then None
    else if m[0].0 == k then Some(m[0].1)
    else Get(m[1..], k)
  }

  /** `$m[$k] = $v`. */
  function Put<K(==), V>(m: OMap<K, V>, k: K, v: V): OMap<K, V>
  {
    if m == [] then [(k, v)]
    else if m[0].0 == k then [(k, v)] + m[1..]
    else [m[0]] + Put(m[1..], k, v)
  }

  /** Position of the first occurrence of `x` in `s`, or `|s|` when it does not occur. */
  function FirstIndex<T(==)>(s: seq<T>, x: T): (r: nat)
    ensures r <= |s|
    ensures r < |s| <==> x in s
    ensures r < |s| ==> s[r] == x
    ensures forall j :: 0 <= j < r ==> s[j] != x
  {
    if s == [] then 0
    else if s[0] == x then 0
    else 1 + FirstIndex(s[1..], x)
  }

  /**
   * `keys` lists every element of `s` exactly once, ordered by where each
   * first occurs in `s`.
   */
  ghost predicate InFirstOccurrenceOrder<T>(keys: seq<T>, s: seq<T>) {
    Distinct(keys) &&
    (forall i :: 0 <= i < |keys| ==> keys[i] in s) &&
    (forall i :: 0 <= i < |s| ==> s[i] in keys) &&
    (forall i, j :: 0 <= i < j < |keys| ==> FirstIndex(s, keys[i]) < FirstIndex(s, keys[j]))
  }

  /** The lookup finds the first entry with the key. */
  lemma {:induction false} GetAt<K, V>(m: OMap<K, V>, i: nat)
    requires i < |m|
    requires forall j :: 0 <= j < i ==> m[j].0 != m[i].0
    ensures Get(m, m[i].0) == Some(m[i].1)
  {
    if i > 0 {
      GetAt(m[1..], i - 1);
    }
  }

  lemma {:induction false} GetPut<K, V>(m: OMap<K, V>, k: K, v: V, k': K)
    ensures Get(Put(m, k, v), k') == if k' == k then Some(v) else Get(m, k')
  {
    if m != [] && m[0].0 != k {
      GetPut(m[1..], k, v, k');
    }
  }

  /** Assignment keeps the key order: an existing key stays where it was, a new one goes last. */
  lemma {:induction false} KeysPut<K, V>(m: OMap<K, V>, k: K, v: V)
    ensures Keys(Put(m, k, v)) == if k in Keys(m) then Keys(m) else Keys(m) + [k]
  {
    if m == [] {
    } else if m[0].0 == k {
      assert Keys(Put(m, k, v)) == Keys(m);
    } else {
      KeysPut(m[1..], k, v);
      assert Keys(m) == [m[0].0] + Keys(m[1..]);
      assert Keys(Put(m, k, v)) == [m[0].0] + Keys(Put(m[1..], k, v));
    }
  }

  /** Assigning to a key the map does not hold appends one entry. */
  lemma {:induction false} PutFresh<K, V>(m: OMap<K, V>, k: K, v: V)
    requires k !in Keys(m)
    ensures Put(m, k, v) == m + [(k, v)]
  {
    if m != [] {
      assert Keys(m) == [m[0].0] + Keys(m[1..]);
      PutFresh(m[1..], k, v);
      assert m == [m[0]] + m[1..];
    }
  }

  /** A second assignment to the same key overrides the first and keeps its place. */
  lemma {:induction false} PutPut<K, V>(m: OMap<K, V>, k: K, v: V, w: V)
    ensures Put(Put(m, k, v), k, w) == Put(m, k, w)
  {
    if m != [] && m[0].0 != k {
      PutPut(m[1..], k, v, w);
    }
  }

  /** Assignment leaves every other entry untouched. */
  lemma {:induction false} PutOthers<K, V>(m: OMap<K, V>, k: K, v: V)
    ensures |Put(m, k, v)| == if k in Keys(m) then |m| else |m| + 1
    ensures forall i :: 0 <= i < |m| && m[i].0 != k ==> Put(m, k, v)[i] == m[i]
  {
    KeysPut(m, k, v);
    if m != [] && m[0].0 != k {
      PutOthers(m[1..], k, v);
      assert Keys(m) == [m[0].0] + Keys(m[1..]);
    }
  }

  lemma {:induction false} FirstIndexSnoc<T>(s: seq<T>, x: T, y: T)
    ensures FirstIndex(s + [x], y) == if y in s then FirstIndex(s, y) else if y == x then |s| else |s| + 1
  {
    if s != [] {
      assert (s + [x])[1..] == s[1..] + [x];
      FirstIndexSnoc(s[1..], x, y);
    }
  }

  /** Adding one more element to `s` keeps a first-occurrence key list up to date. */
  lemma FirstOccurrenceSnoc<T>(keys: seq<T>, s: seq<T>, x: T)
    requires InFirstOccurrenceOrder(keys, s)
    ensures InFirstOccurrenceOrder(if x in keys then keys else keys + [x], s + [x])
  {
    var keys' := if x in keys then keys else keys + [x];
    forall y | y in s
      ensures FirstIndex(s + [x], y) == FirstIndex(s, y)
    {
      FirstIndexSnoc(s, x, y);
    }
    if x !in keys {
      FirstIndexSnoc(s, x, x);
      forall i, j | 0 <= i < j < |keys'|
        ensures FirstIndex(s + [x], keys'[i]) < FirstIndex(s + [x], keys'[j])
      {
        assert keys'[i] in s;
        if j == |keys| {
        } else {
          assert keys'[j] in s;
        }
      }
    } else {
      forall i, j | 0 <= i < j < |keys'|
        ensures FirstIndex(s + [x], keys'[i]) < FirstIndex(s + [x], keys'[j])
      {
        assert keys'[i] in s && keys'[j] in s;
      }
    }
  }
}
