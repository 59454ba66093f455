/** Sorting by a numeric key, largest first, as the learning engine does with
    `list.sort(key=..., reverse=True)`.  The sort is stable: entries with
    equal keys keep their original order. */
module Sorting {

  /** Each entry's key is at least the next one's. */
  ghost predicate SortedDesc<T>(s: seq<T>, key: T -> real)
  {
    forall i :: 0 < i < |s| ==> key(s[i - 1]) >= key(s[i])
  }

  /** Insert `x` after every entry whose key is at least its own. */
  function Insert<T>(x: T, s: seq<T>, key: T -> real): (r: seq<T>)
    requires SortedDesc(s, key)
    ensures SortedDesc(r, key)
    ensures |r| == |s| + 1
    ensures r[0] == x || (s != [] && r[0] == s[0])
    decreases |s|
  {
    if s == [] then [x]
    else if key(s[0]) >= key(x) then
      var rest := Insert(x, s[1..], key);
      var r := [s[0]] + rest;
      assert forall i :: 0 < i < |rest| ==> r[i] == rest[i - 1] && r[i + 1] == rest[i];
      r
    else
      [x] + s
  }

  /** The stable descending sort: each entry, in order, is inserted behind all
      earlier entries with a key at least as large. */
  function SortDesc<T>(s: seq<T>, key: T -> real): (r: seq<T>)
    ensures SortedDesc(r, key)
    ensures |r| == |s|
    decreases |s|
  {
    if s == [] then []
    else Insert(s[|s| - 1], SortDesc(s[..|s| - 1], key), key)
  }

  /** Inserting adds exactly `x`: nothing is lost or duplicated. */
  lemma {:induction false} InsertPermutes<T>(x: T, s: seq<T>, key: T -> real)
    requires SortedDesc(s, key)
    ensures multiset(Insert(x, s, key)) == multiset(s) + multiset{x}
    decreases |s|
  {
    if s != [] && key(s[0]) >= key(x) {
      var tail := s[1..];
      assert SortedDesc(tail, key) by {
        assert forall i :: 0 < i < |tail| ==> tail[i - 1] == s[i] && tail[i] == s[i + 1];
      }
      InsertPermutes(x, tail, key);
      assert s == [s[0]] + tail;
      assert multiset(s) == multiset{s[0]} + multiset(tail);
      assert Insert(x, s, key) == [s[0]] + Insert(x, tail, key);
    }
  }

  /** The sort is a permutation of its input. */
  lemma {:induction false} SortPermutes<T>(s: seq<T>, key: T -> real)
    ensures multiset(SortDesc(s, key)) == multiset(s)
    decreases |s|
  {
    if s != [] {
      var front := s[..|s| - 1];
      SortPermutes(front, key);
      InsertPermutes(s[|s| - 1], SortDesc(front, key), key);
      assert s == front + [s[|s| - 1]];
      assert multiset(s) == multiset(front) + multiset{s[|s| - 1]};
    }
  }

  /** Sortedness between any two positions, not only neighbours. */
  lemma {:induction false} SortedDescAt<T>(s: seq<T>, key: T -> real, i: nat, j: nat)
    requires SortedDesc(s, key) && i <= j < |s|
    ensures key(s[i]) >= key(s[j])
    decreases j - i
  {
    if i < j {
      SortedDescAt(s, key, i, j - 1);
    }
  }

  lemma {:induction false} InsertEqualKeyAppends<T>(x: T, s: seq<T>, key: T -> real)
    requires SortedDesc(s, key)
    requires forall k :: 0 <= k < |s| ==> key(s[k]) == key(x)
    ensures Insert(x, s, key) == s + [x]
    decreases |s|
  {
    if s != [] {
      var tail := s[1..];
      TailSorted(s, key);
      forall k | 0 <= k < |tail|
        ensures key(tail[k]) == key(x)
      {
        assert tail[k] == s[k + 1];
      }
      InsertEqualKeyAppends(x, tail, key);
      assert Insert(x, s, key) == [s[0]] + Insert(x, tail, key);
      assert s == [s[0]] + tail;
    }
  }

  /** Stability in the extreme case: when every key equals `c` the sort
      leaves the sequence as it was. */
  lemma {:induction false} EqualKeysKeepOrder<T>(s: seq<T>, key: T -> real, c: real)
    requires forall k :: 0 <= k < |s| ==> key(s[k]) == c
    ensures SortDesc(s, key) == s
    decreases |s|
  {
    if s != [] {
      var front := s[..|s| - 1];
      assert forall k :: 0 <= k < |front| ==> front[k] == s[k];
      EqualKeysKeepOrder(front, key, c);
      InsertEqualKeyAppends(s[|s| - 1], front, key);
      assert front + [s[|s| - 1]] == s;
    }
  }

  /** The entries of `s` whose key is `c`, in their order in `s`. */
  function WithKey<T>(s: seq<T>, key: T -> real, c: real): seq<T>
    decreases |s|
  {
    if s == [] then []
    else (if key(s[0]) == c then [s[0]] else []) + WithKey(s[1..], key, c)
  }

  lemma {:induction false} WithKeyConcat<T>(a: seq<T>, b: seq<T>, key: T -> real, c: real)
    ensures WithKey(a + b, key, c) == WithKey(a, key, c) + WithKey(b, key, c)
    decreases |a|
  {
    if a == [] {
      assert a + b == b;
    } else {
      WithKeyConcat(a[1..], b, key, c);
      assert (a + b)[1..] == a[1..] + b;
    }
  }

  lemma TailSorted<T>(s: seq<T>, key: T -> real)
    requires SortedDesc(s, key) && s != []
    ensures SortedDesc(s[1..], key)
  {
    assert forall i :: 0 < i < |s| - 1 ==> s[1..][i - 1] == s[i] && s[1..][i] == s[i + 1];
  }

  /** No entry of a sorted sequence has a key above its first entry's. */
  lemma {:induction false} WithKeyAbove<T>(s: seq<T>, key: T -> real, c: real)
    requires SortedDesc(s, key)
    requires s != [] ==> key(s[0]) < c
    ensures WithKey(s, key, c) == []
    decreases |s|
  {
    if s != [] {
      var tail := s[1..];
      TailSorted(s, key);
      if tail != [] {
        assert key(tail[0]) <= key(s[0]);
      }
      WithKeyAbove(tail, key, c);
    }
  }

  /** Inserting `x` puts it behind every entry of the same key. */
  lemma {:induction false} InsertStable<T>(x: T, s: seq<T>, key: T -> real, c: real)
    requires SortedDesc(s, key)
    ensures WithKey(Insert(x, s, key), key, c) == WithKey(s, key, c) + WithKey([x], key, c)
    decreases |s|
  {
    if s == [] {
    } else if key(s[0]) >= key(x) {
      var tail := s[1..];
      TailSorted(s, key);
      var rest := Insert(x, tail, key);
      assert Insert(x, s, key) == [s[0]] + rest;
      InsertStable(x, tail, key, c);
      WithKeyConcat([s[0]], rest, key, c);
      WithKeyConcat([s[0]], tail, key, c);
      assert s == [s[0]] + tail;
    } else {
      WithKeyConcat([x], s, key, c);
      if key(x) == c {
        WithKeyAbove(s, key, c);
      }
    }
  }

  /** The sort is stable: for every key, the entries with that key appear in
      the result in the order they had in the input. */
  lemma {:induction false} SortStable<T>(s: seq<T>, key: T -> real, c: real)
    ensures WithKey(SortDesc(s, key), key, c) == WithKey(s, key, c)
    decreases |s|
  {
    if s != [] {
      var front := s[..|s| - 1];
      SortStable(front, key, c);
      InsertStable(s[|s| - 1], SortDesc(front, key), key, c);
      WithKeyConcat(front, [s[|s| - 1]], key, c);
      assert front + [s[|s| - 1]] == s;
    }
  }

  /** A prefix of a sorted sequence is sorted. */
  lemma PrefixSorted<T>(s: seq<T>, n: nat, key: T -> real)
    requires SortedDesc(s, key) && n <= |s|
    ensures SortedDesc(s[..n], key)
  {
    assert forall i :: 0 <= i < n ==> s[..n][i] == s[i];
  }

  /** Everything the sort returns was in its input. */
  lemma SortMembers<T>(s: seq<T>, key: T -> real)
    ensures forall x :: x in SortDesc(s, key) ==> x in s
  {
    SortPermutes(s, key);
    forall x | x in SortDesc(s, key)
      ensures x in s
    {
      assert x in multiset(SortDesc(s, key));
    }
  }
}
