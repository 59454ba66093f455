/** Insertion-ordered dictionaries, as the learning engine builds them with
    `defaultdict`: looking up a missing key creates it with a default value,
    and iteration visits keys in the order they were first inserted.  A
    dictionary is a sequence of entries with pairwise distinct keys. */
module OrderedMap {
  import opened Wrappers

  datatype Entry<K, V> = Entry(key: K, value: V)

  ghost predicate DistinctKeys<K, V>(es: seq<Entry<K, V>>)
  {
    forall i, j :: 0 <= i < j < |es| ==> es[i].key != es[j].key
  }

  /** The keys in iteration order. */
  function Keys<K, V>(es: seq<Entry<K, V>>): (ks: seq<K>)
    ensures |ks| == |es|
    ensures forall i :: 0 <= i < |es| ==> ks[i] == es[i].key
  {
    if es == [] then [] else [es[0].key] + Keys(es[1..])
  }

  /** The value stored under `k`, if `k` is a key. */
  function Get<K(==), V>(es: seq<Entry<K, V>>, k: K): (r: Option<V>)
    ensures r.None? <==> forall i :: 0 <= i < |es| ==> es[i].key != k
    ensures r.Some? ==> exists i :: 0 <= i < |es| && es[i] == Entry(k, r.value)
  {
    if es == [] then None
    else if es[0].key == k then Some(es[0].value)
    else Get(es[1..], k)
  }

  function GetOr<K(==), V>(es: seq<Entry<K, V>>, k: K, default: V): V
  {
    match Get(es, k)
    case Some(v) => v
    case None => default
  }

  /** `d[k] = f(d[k])` on a `defaultdict` whose default is `init`: an existing
      key keeps its position and gets the updated value; a new key is added
      at the end with `f(init)`; every other key keeps its value. */
  function Update<K(==,!new), V>(es: seq<Entry<K, V>>, k: K, init: V, f: V -> V): (r: seq<Entry<K, V>>)
    ensures Get(r, k) == Some(f(GetOr(es, k, init)))
    ensures forall k' :: k' != k ==> Get(r, k') == Get(es, k')
  {
    if es == [] then [Entry(k, f(init))]
    else if es[0].key == k then [Entry(k, f(es[0].value))] + es[1..]
    else [es[0]] + Update(es[1..], k, init, f)
  }

  /** An update keeps the order of the existing keys and puts a new key last. */
  lemma {:induction false} UpdateKeys<K(!new), V>(es: seq<Entry<K, V>>, k: K, init: V, f: V -> V)
    ensures Get(es, k).Some? ==> Keys(Update(es, k, init, f)) == Keys(es)
    ensures Get(es, k).None? ==> Keys(Update(es, k, init, f)) == Keys(es) + [k]
  {
    if es != [] && es[0].key != k {
      UpdateKeys(es[1..], k, init, f);
      assert Keys(Update(es, k, init, f)) == [es[0].key] + Keys(Update(es[1..], k, init, f));
      assert Keys(es) == [es[0].key] + Keys(es[1..]);
    }
  }

  /** An update never duplicates a key. */
  lemma UpdateDistinct<K(!new), V>(es: seq<Entry<K, V>>, k: K, init: V, f: V -> V)
    requires DistinctKeys(es)
    ensures DistinctKeys(Update(es, k, init, f))
  {
    var r := Update(es, k, init, f);
    UpdateKeys(es, k, init, f);
    forall i, j | 0 <= i < j < |r|
      ensures r[i].key != r[j].key
    {
      assert Keys(r)[i] == r[i].key && Keys(r)[j] == r[j].key;
      if Get(es, k).None? && j == |es| {
        assert Keys(es)[i] == es[i].key;
      } else {
        assert Keys(es)[i] == es[i].key && Keys(es)[j] == es[j].key;
      }
    }
  }

  /** With distinct keys, the entry at any position is what lookup finds. */
  lemma {:induction false} GetAt<K, V>(es: seq<Entry<K, V>>, i: nat)
    requires DistinctKeys(es) && i < |es|
    ensures Get(es, es[i].key) == Some(es[i].value)
    decreases i
  {
    if i > 0 {
      var tail := es[1..];
      assert DistinctKeys(tail) by {
        assert forall a :: 0 <= a < |tail| ==> tail[a] == es[a + 1];
      }
      assert es[0].key != es[i].key;
      GetAt(tail, i - 1);
    }
  }

  lemma GetIn<K, V>(es: seq<Entry<K, V>>, e: Entry<K, V>)
    requires DistinctKeys(es) && e in es
    ensures Get(es, e.key) == Some(e.value)
  {
    var i :| 0 <= i < |es| && es[i] == e;
    GetAt(es, i);
  }

  /** The distinct elements of `ks` in order of first appearance: the
      reference for the key order of a dictionary filled from `ks`. */
  function FirstOccurrences<K(==,!new)>(ks: seq<K>): (r: seq<K>)
    ensures forall k :: k in r <==> k in ks
    ensures forall i, j :: 0 <= i < j < |r| ==> r[i] != r[j]
    decreases |ks|
  {
    if ks == [] then []
    else
      var front := ks[..|ks| - 1];
      var k := ks[|ks| - 1];
      assert ks == front + [k];
      var r := FirstOccurrences(front);
      if k in r then r else r + [k]
  }

  /** A key is present exactly when it is among the keys. */
  lemma KeysHas<K, V>(es: seq<Entry<K, V>>, k: K)
    ensures Get(es, k).Some? <==> k in Keys(es)
  {
    if Get(es, k).Some? {
      var i :| 0 <= i < |es| && es[i] == Entry(k, Get(es, k).value);
      assert Keys(es)[i] == k;
    }
  }

  /** A dictionary whose keys are the first occurrences of `ks`, updated at
      `k`, has the first occurrences of `ks + [k]` as its keys. */
  lemma UpdateFirstOccurrences<K(!new), V>(es: seq<Entry<K, V>>, ks: seq<K>, k: K, init: V, f: V -> V)
    requires Keys(es) == FirstOccurrences(ks)
    ensures Keys(Update(es, k, init, f)) == FirstOccurrences(ks + [k])
  {
    UpdateKeys(es, k, init, f);
    KeysHas(es, k);
    assert (ks + [k])[..|ks|] == ks;
  }

  lemma KeysAppend<K, V>(a: seq<Entry<K, V>>, b: seq<Entry<K, V>>)
    ensures Keys(a + b) == Keys(a) + Keys(b)
  {
    assert forall i :: 0 <= i < |a + b| ==> Keys(a + b)[i] == (Keys(a) + Keys(b))[i];
  }
}
