/** Bounded, newest-first history lists, as kept in the data store for task
    executions (cap 100) and for learning insights (cap 50): the new entry is
    inserted at the front and the list is cut back to the cap. */
module History {
  import opened Wrappers

  /** Insert `x` at index 0, then keep the first `cap` entries. */
  function PushCapped<T>(h: seq<T>, x: T, cap: nat): (r: seq<T>)
    ensures |r| == Min(|h| + 1, cap)
    ensures |r| > 0 ==> r[0] == x
    ensures forall i :: 1 <= i < |r| ==> r[i] == h[i - 1]
  {
    ([x] + h)[..Min(|h| + 1, cap)]
  }

  /** The list after pushing `xs[0]`, then `xs[1]`, and so on. */
  function PushAll<T>(h: seq<T>, xs: seq<T>, cap: nat): seq<T>
    decreases |xs|
  {
    if xs == [] then h
    else PushCapped(PushAll(h, xs[..|xs| - 1], cap), xs[|xs| - 1], cap)
  }

  function Reversed<T>(s: seq<T>): (r: seq<T>)
    ensures |r| == |s|
    ensures forall i :: 0 <= i < |s| ==> r[i] == s[|s| - 1 - i]
  {
    if s == [] then [] else [s[|s| - 1]] + Reversed(s[..|s| - 1])
  }

  /** Pushing a run of entries leaves them newest first in front of the old
      list, the whole cut back to the cap. */
  lemma {:induction false} PushAllNewestFirst<T>(h: seq<T>, xs: seq<T>, cap: nat)
    requires |h| <= cap
    ensures PushAll(h, xs, cap) == (Reversed(xs) + h)[..Min(|xs| + |h|, cap)]
    decreases |xs|
  {
    if xs == [] {
      assert Reversed(xs) + h == h;
    } else {
      var n := |xs|;
      var front := xs[..n - 1];
      var x := xs[n - 1];
      PushAllNewestFirst(h, front, cap);
      var s := Reversed(front) + h;
      var p := PushAll(h, front, cap);
      assert p == s[..Min(n - 1 + |h|, cap)];
      assert Reversed(xs) == [x] + Reversed(front);
      var r := PushCapped(p, x, cap);
      var k := Min(n + |h|, cap);
      assert |r| == k;
      assert Reversed(xs) + h == [x] + s;
      forall i | 0 <= i < k
        ensures r[i] == ([x] + s)[i]
      {
        if i > 0 {
          assert r[i] == p[i - 1];
        }
      }
      assert r == ([x] + s)[..k];
    }
  }

  /** Starting from an empty list, after any number of pushes the list holds
      exactly the `cap` most recent entries (or all of them), newest first. */
  lemma KeepsMostRecent<T>(xs: seq<T>, cap: nat)
    ensures |PushAll([], xs, cap)| == Min(|xs|, cap)
    ensures forall i :: 0 <= i < Min(|xs|, cap) ==> PushAll([], xs, cap)[i] == xs[|xs| - 1 - i]
  {
    PushAllNewestFirst([], xs, cap);
    assert Reversed(xs) + [] == Reversed(xs);
  }

  /** 150 task executions leave exactly the 100 most recent records. */
  lemma HundredAndFiftyRuns<T>(xs: seq<T>)
    requires |xs| == 150
    ensures |PushAll([], xs, 100)| == 100
    ensures forall i :: 0 <= i < 100 ==> PushAll([], xs, 100)[i] == xs[149 - i]
  {
    KeepsMostRecent(xs, 100);
  }
}
